/**
 The cooldown gate shared by the detectors. `ShouldFire` and `RecordFire` are separate
 critical sections; `Emit` runs both; old entries are pruned to bound memory.
 */
module Cooldown {
  import opened Prelude

  datatype DedupKey = DedupKey(detector: string, uid: string)

  type Fired = map<DedupKey, int>

  predicate MayFire(fired: Fired, key: DedupKey, now: int, cooldown: int) {
    key in fired ==> cooldown <= now - fired[key]
  }

  function Pruned(fired: Fired, now: int, cooldown: int): Fired {
    map k | k in fired && now - fired[k] <= 2 * cooldown :: fired[k]
  }

  class BaseDetector {
    const name: string
    const cooldown: int
    var lastFired: Fired

    constructor (name: string, cooldown: int)
      ensures this.name == name && this.cooldown == cooldown && lastFired == map[]
    {
      this.name, this.cooldown, lastFired := name, cooldown, map[];
    }

    method ShouldFire(uid: string, now: int) returns (fire: bool)
      ensures fire == MayFire(lastFired, DedupKey(name, uid), now, cooldown)
    {
      var key := DedupKey(name, uid);
      if key in lastFired {
        if now - lastFired[key] < cooldown {
          return false;
        }
      }
      return true;
    }

    method RecordFire(uid: string, now: int)
      modifies this
      ensures lastFired == old(lastFired)[DedupKey(name, uid) := now]
    {
      lastFired := lastFired[DedupKey(name, uid) := now];
    }

    /** `created` says whether the event passed validation; the fire is recorded before that is known. */
    method Emit(uid: string, check: int, record: int, created: bool) returns (emitted: bool)
      modifies this
      ensures emitted == (MayFire(old(lastFired), DedupKey(name, uid), check, cooldown) && created)
      ensures lastFired == if MayFire(old(lastFired), DedupKey(name, uid), check, cooldown)
                           then old(lastFired)[DedupKey(name, uid) := record] else old(lastFired)
    {
      var fire := ShouldFire(uid, check);
      if !fire {
        return false;
      }
      RecordFire(uid, record);
      return created;
    }

    /** Deletes while iterating; the order of the map is arbitrary. */
    method CleanupExpiredEntries(now: int)
      modifies this
      ensures lastFired == Pruned(old(lastFired), now, cooldown)
    {
      var threshold := 2 * cooldown;
      var todo := lastFired.Keys;
      while todo != {}
        invariant todo <= lastFired.Keys
        invariant lastFired == map k | k in old(lastFired) && (k in todo || now - old(lastFired)[k] <= threshold) :: old(lastFired)[k]
        decreases todo
      {
        var key :| key in todo;
        if now - lastFired[key] > threshold {
          lastFired := lastFired - {key};
        }
        todo := todo - {key};
      }
    }
  }

  // ----- every interleaving of the critical sections -----

  /** The sections of any number of callers. `Emit` is an `Ask` and, when it passes, a `Record`. */
  datatype Op =
    | Ask(caller: nat, uid: string, now: int)
    | Record(caller: nat, uid: string, now: int)
    | Cleanup(now: int)

  datatype Fire = Fire(uid: string, time: int)

  /** The table, the answers given so far, and the fires recorded so far. */
  datatype State = State(fired: Fired, answers: seq<bool>, fires: seq<Fire>)

  datatype Detector = Detector(name: string, cooldown: int)

  predicate Passes(d: Detector, s: State, uid: string, now: int) {
    MayFire(s.fired, DedupKey(d.name, uid), now, d.cooldown)
  }

  function Next(d: Detector, s: State, op: Op): State {
    match op
    case Ask(_, uid, now) => s.(answers := s.answers + [Passes(d, s, uid, now)])
    case Record(_, uid, now) => s.(fired := s.fired[DedupKey(d.name, uid) := now], fires := s.fires + [Fire(uid, now)])
    case Cleanup(now) => s.(fired := Pruned(s.fired, now, d.cooldown))
  }

  function Run(d: Detector, ops: seq<Op>): State {
    if ops == [] then State(map[], [], []) else Next(d, Run(d, ops[..|ops| - 1]), ops[|ops| - 1])
  }

  lemma RunSnoc(d: Detector, ops: seq<Op>, op: Op)
    ensures Run(d, ops + [op]) == Next(d, Run(d, ops), op)
  {
    assert (ops + [op])[..|ops|] == ops;
  }

  // ----- cleanups -----

  function IsCall(): Op -> bool {
    (op: Op) => !op.Cleanup?
  }

  function WithoutCleanups(ops: seq<Op>): seq<Op> {
    Filter(IsCall(), ops)
  }

  /** The same run without its cleanups. */
  function Full(d: Detector, ops: seq<Op>): State {
    Run(d, WithoutCleanups(ops))
  }

  lemma FullStep(d: Detector, ops: seq<Op>)
    requires ops != []
    ensures var init, op := ops[..|ops| - 1], ops[|ops| - 1];
      Full(d, ops) == if op.Cleanup? then Full(d, init) else Next(d, Full(d, init), op)
  {
    RunSnoc(d, WithoutCleanups(ops[..|ops| - 1]), ops[|ops| - 1]);
  }

  /** `small` lost entries of `full` and changed none. */
  ghost predicate Within(small: Fired, full: Fired) {
    forall k :: k in small ==> k in full && small[k] == full[k]
  }

  /** Whatever the clock does, cleanups only lose entries and never change a recorded fire. */
  lemma {:induction false} CleanupsOnlyForget(d: Detector, ops: seq<Op>)
    ensures Within(Run(d, ops).fired, Full(d, ops).fired)
    ensures Run(d, ops).fires == Full(d, ops).fires && |Run(d, ops).answers| == |Full(d, ops).answers|
  {
    if ops != [] {
      CleanupsOnlyForget(d, ops[..|ops| - 1]);
      FullStep(d, ops);
    }
  }

  /** A call after `ops` carries a time less than a cooldown after an entry that a cleanup removed. */
  ghost predicate TooEarly(d: Detector, ops: seq<Op>, op: Op) {
    && !op.Cleanup?
    && var key := DedupKey(d.name, op.uid);
       key in Full(d, ops).fired && key !in Run(d, ops).fired && op.now - Full(d, ops).fired[key] < d.cooldown
  }

  /** A call passes when it would pass without the cleanups, or when it comes too early for them. */
  lemma PassesIff(d: Detector, ops: seq<Op>, op: Op)
    requires !op.Cleanup?
    ensures Passes(d, Run(d, ops), op.uid, op.now) <==> Passes(d, Full(d, ops), op.uid, op.now) || TooEarly(d, ops, op)
    ensures !(Passes(d, Full(d, ops), op.uid, op.now) && TooEarly(d, ops, op))
  {
    CleanupsOnlyForget(d, ops);
  }

  ghost predicate NoAskTooEarly(d: Detector, ops: seq<Op>) {
    ops != [] ==>
      var init, op := ops[..|ops| - 1], ops[|ops| - 1];
      NoAskTooEarly(d, init) && (op.Ask? ==> !TooEarly(d, init, op))
  }

  ghost predicate NoRecordTooEarly(d: Detector, ops: seq<Op>) {
    ops != [] ==>
      var init, op := ops[..|ops| - 1], ops[|ops| - 1];
      NoRecordTooEarly(d, init) && (op.Record? ==> !TooEarly(d, init, op))
  }

  lemma SnocEqual<T>(a: seq<T>, b: seq<T>, x: T, y: T)
    requires |a| == |b|
    ensures a + [x] == b + [y] <==> a == b && x == y
  {
    assert (a + [x])[..|a|] == a && (b + [y])[..|b|] == b;
    assert (a + [x])[|a|] == x && (b + [y])[|b|] == y;
  }

  /** For every interleaving and every clock: cleanups change no answer if and only if no `ShouldFire` comes too early for them. */
  lemma {:induction false} CleanupIsInvisibleIff(d: Detector, ops: seq<Op>)
    ensures Run(d, ops).answers == Full(d, ops).answers <==> NoAskTooEarly(d, ops)
  {
    if ops != [] {
      var init, op := ops[..|ops| - 1], ops[|ops| - 1];
      CleanupIsInvisibleIff(d, init);
      FullStep(d, ops);
      if op.Ask? {
        PassesIff(d, init, op);
        CleanupsOnlyForget(d, init);
        SnocEqual(Run(d, init).answers, Full(d, init).answers,
                  Passes(d, Run(d, init), op.uid, op.now), Passes(d, Full(d, init), op.uid, op.now));
      }
    }
  }

  // ----- spacing -----

  /** Each fire of a resource is at least the cooldown after the ones recorded before it. */
  ghost predicate Spaced(fires: seq<Fire>, cooldown: int) {
    forall i, j :: 0 <= i < j < |fires| && fires[i].uid == fires[j].uid ==> fires[i].time + cooldown <= fires[j].time
  }

  /** Every `Record` finds the cooldown over at its own time. */
  ghost predicate AllClear(d: Detector, ops: seq<Op>) {
    ops != [] ==>
      var init, op := ops[..|ops| - 1], ops[|ops| - 1];
      AllClear(d, init) && (op.Record? ==> Passes(d, Run(d, init), op.uid, op.now))
  }

  lemma ClearGrows(d: Detector, ops: seq<Op>, op: Op)
    ensures AllClear(d, ops + [op]) <==> AllClear(d, ops) && (op.Record? ==> Passes(d, Run(d, ops), op.uid, op.now))
  {
    assert (ops + [op])[..|ops|] == ops;
  }

  ghost predicate IsLatest(fires: seq<Fire>, i: int, uid: string, time: int) {
    && 0 <= i < |fires| && fires[i] == Fire(uid, time)
    && forall j :: i < j < |fires| ==> fires[j].uid != uid
  }

  /** The table holds the latest fire of every resource that fired. */
  ghost predicate HoldsLatest(d: Detector, s: State) {
    && (forall i :: 0 <= i < |s.fires| ==> DedupKey(d.name, s.fires[i].uid) in s.fired)
    && (forall uid :: DedupKey(d.name, uid) in s.fired ==> exists i :: IsLatest(s.fires, i, uid, s.fired[DedupKey(d.name, uid)]))
  }

  lemma RecordHoldsLatest(d: Detector, s: State, caller: nat, uid: string, now: int)
    requires HoldsLatest(d, s)
    ensures HoldsLatest(d, Next(d, s, Record(caller, uid, now)))
  {
    var s' := Next(d, s, Record(caller, uid, now));
    forall u | DedupKey(d.name, u) in s'.fired ensures exists i :: IsLatest(s'.fires, i, u, s'.fired[DedupKey(d.name, u)]) {
      if u == uid {
        assert IsLatest(s'.fires, |s.fires|, uid, now);
      } else {
        var i :| IsLatest(s.fires, i, u, s.fired[DedupKey(d.name, u)]);
        assert IsLatest(s'.fires, i, u, s'.fired[DedupKey(d.name, u)]);
      }
    }
  }

  lemma {:induction false} FullHoldsLatest(d: Detector, ops: seq<Op>)
    ensures HoldsLatest(d, Full(d, ops))
  {
    if ops != [] {
      var init, op := ops[..|ops| - 1], ops[|ops| - 1];
      FullHoldsLatest(d, init);
      FullStep(d, ops);
      if op.Record? {
        RecordHoldsLatest(d, Full(d, init), op.caller, op.uid, op.now);
      }
    }
  }

  /** Recording keeps the fires apart exactly when the cooldown is over. */
  lemma RecordKeepsSpacedIff(d: Detector, s: State, uid: string, now: int)
    requires 0 < d.cooldown && HoldsLatest(d, s) && Spaced(s.fires, d.cooldown)
    ensures Spaced(s.fires + [Fire(uid, now)], d.cooldown) <==> Passes(d, s, uid, now)
  {
    var key, all := DedupKey(d.name, uid), s.fires + [Fire(uid, now)];
    assert all[|s.fires|] == Fire(uid, now);
    if key in s.fired {
      var last :| IsLatest(s.fires, last, uid, s.fired[key]);
      assert all[last] == s.fires[last];
      forall i | 0 <= i < |s.fires| && s.fires[i].uid == uid ensures s.fires[i].time <= s.fired[key] {
        assert i <= last;
      }
    }
  }

  lemma SpacedPrefix(fires: seq<Fire>, fire: Fire, cooldown: int)
    requires Spaced(fires + [fire], cooldown)
    ensures Spaced(fires, cooldown)
  {
    forall i | 0 <= i < |fires| ensures (fires + [fire])[i] == fires[i] {
    }
  }

  lemma {:induction false} FullSpacedIff(d: Detector, ops: seq<Op>)
    requires 0 < d.cooldown
    ensures Spaced(Full(d, ops).fires, d.cooldown) <==> AllClear(d, WithoutCleanups(ops))
  {
    if ops != [] {
      var init, op := ops[..|ops| - 1], ops[|ops| - 1];
      FullSpacedIff(d, init);
      FullStep(d, ops);
      ClearGrows(d, WithoutCleanups(init), op);
      if op.Record? {
        var fires, fire := Full(d, init).fires, Fire(op.uid, op.now);
        if Spaced(fires, d.cooldown) {
          FullHoldsLatest(d, init);
          RecordKeepsSpacedIff(d, Full(d, init), op.uid, op.now);
        } else if Spaced(fires + [fire], d.cooldown) {
          SpacedPrefix(fires, fire, d.cooldown);
        }
      }
    }
  }

  /**
   For every interleaving and every clock, the fires of each resource are at least the cooldown apart if and only
   if every `Record`, in the run without its cleanups, finds the cooldown over at its own time.
   */
  lemma SpacedIff(d: Detector, ops: seq<Op>)
    requires 0 < d.cooldown
    ensures Spaced(Run(d, ops).fires, d.cooldown) <==> AllClear(d, WithoutCleanups(ops))
  {
    FullSpacedIff(d, ops);
    CleanupsOnlyForget(d, ops);
  }

  lemma {:induction false} ClearWithoutCleanupsIff(d: Detector, ops: seq<Op>)
    ensures AllClear(d, WithoutCleanups(ops)) <==> AllClear(d, ops) && NoRecordTooEarly(d, ops)
  {
    if ops != [] {
      var init, op := ops[..|ops| - 1], ops[|ops| - 1];
      ClearWithoutCleanupsIff(d, init);
      ClearGrows(d, WithoutCleanups(init), op);
      if op.Record? {
        PassesIff(d, init, op);
      }
    }
  }

  /** In terms of the table as it is: every `Record` finds the cooldown over, and none comes too early for a cleanup. */
  lemma SpacedIffClearInTime(d: Detector, ops: seq<Op>)
    requires 0 < d.cooldown
    ensures Spaced(Run(d, ops).fires, d.cooldown) <==> AllClear(d, ops) && NoRecordTooEarly(d, ops)
  {
    SpacedIff(d, ops);
    ClearWithoutCleanupsIff(d, ops);
  }

  // ----- sections in clock order -----

  /** The times of the sections never go back, and all is over by `now`. */
  ghost predicate Timed(ops: seq<Op>, now: int) {
    ops == [] || (ops[|ops| - 1].now <= now && Timed(ops[..|ops| - 1], ops[|ops| - 1].now))
  }

  lemma TimedSnoc(ops: seq<Op>, op: Op)
    requires Timed(ops, op.now)
    ensures Timed(ops + [op], op.now)
  {
    assert (ops + [op])[..|ops|] == ops;
  }

  /** What a cleanup removed can no longer suppress anything. */
  ghost predicate Expired(d: Detector, ops: seq<Op>, now: int) {
    forall k :: k in Full(d, ops).fired && k !in Run(d, ops).fired ==> d.cooldown <= now - Full(d, ops).fired[k]
  }

  lemma {:induction false} TimedExpires(d: Detector, ops: seq<Op>, now: int)
    requires 0 < d.cooldown && Timed(ops, now)
    ensures Expired(d, ops, now) && NoAskTooEarly(d, ops) && NoRecordTooEarly(d, ops)
  {
    if ops != [] {
      TimedExpires(d, ops[..|ops| - 1], ops[|ops| - 1].now);
      FullStep(d, ops);
      CleanupsOnlyForget(d, ops[..|ops| - 1]);
    }
  }

  /** When sections run in clock order, cleanups change no answer and no recorded fire. */
  lemma CleanupIsInvisible(d: Detector, ops: seq<Op>, now: int)
    requires 0 < d.cooldown && Timed(ops, now)
    ensures Run(d, ops).answers == Full(d, ops).answers && Run(d, ops).fires == Full(d, ops).fires
  {
    TimedExpires(d, ops, now);
    CleanupIsInvisibleIff(d, ops);
    CleanupsOnlyForget(d, ops);
  }

  /** When sections run in clock order, fires are apart iff every `Record` finds the cooldown over. */
  lemma SpacedIffAllClear(d: Detector, ops: seq<Op>, now: int)
    requires 0 < d.cooldown && Timed(ops, now)
    ensures Spaced(Run(d, ops).fires, d.cooldown) <==> AllClear(d, ops)
  {
    TimedExpires(d, ops, now);
    SpacedIffClearInTime(d, ops);
  }

  // ----- asking before recording -----

  /** Record k follows a passed `Ask` of its caller, whose own clock does not go back. */
  ghost predicate Asked(d: Detector, ops: seq<Op>, k: nat, j: nat) {
    && j < k < |ops| && ops[k].Record? && ops[j].Ask?
    && ops[j].caller == ops[k].caller && ops[j].uid == ops[k].uid && ops[j].now <= ops[k].now
    && Passes(d, Run(d, ops[..j]), ops[j].uid, ops[j].now)
  }

  /** Nobody records the resource between the two. */
  ghost predicate Undisturbed(ops: seq<Op>, k: nat, j: nat)
    requires j < k < |ops| && ops[k].Record?
  {
    forall i :: j < i < k && ops[i].Record? ==> ops[i].uid != ops[k].uid
  }

  /** Without a record of the resource its entry can only disappear. */
  lemma {:induction false} EntryKept(d: Detector, ops: seq<Op>, uid: string, j: nat, k: nat)
    requires j <= k <= |ops| && forall i :: j <= i < k && ops[i].Record? ==> ops[i].uid != uid
    ensures var key := DedupKey(d.name, uid);
      key in Run(d, ops[..k]).fired ==>
        key in Run(d, ops[..j]).fired && Run(d, ops[..j]).fired[key] == Run(d, ops[..k]).fired[key]
  {
    if j < k {
      EntryKept(d, ops, uid, j, k - 1);
      assert ops[..k] == ops[..k - 1] + [ops[k - 1]];
      RunSnoc(d, ops[..k - 1], ops[k - 1]);
    }
  }

  /** A passed `Ask` is still good at the caller's `Record` if nobody recorded the resource in between. */
  lemma UndisturbedIsClear(d: Detector, ops: seq<Op>, k: nat, j: nat)
    requires Asked(d, ops, k, j) && Undisturbed(ops, k, j)
    ensures Passes(d, Run(d, ops[..k]), ops[k].uid, ops[k].now)
  {
    EntryKept(d, ops, ops[k].uid, j, k);
  }

  lemma {:induction false} ClearUpTo(d: Detector, ops: seq<Op>, n: nat)
    requires n <= |ops|
    requires forall k :: 0 <= k < n && ops[k].Record? ==> Passes(d, Run(d, ops[..k]), ops[k].uid, ops[k].now)
    ensures AllClear(d, ops[..n])
  {
    if n > 0 {
      ClearUpTo(d, ops, n - 1);
      assert ops[..n] == ops[..n - 1] + [ops[n - 1]];
      ClearGrows(d, ops[..n - 1], ops[n - 1]);
    }
  }

  /**
   So callers that ask first, and are not overtaken for their resource, fire apart if and only if none of them
   records too early for a cleanup.
   */
  lemma UndisturbedFiresAreSpacedIff(d: Detector, ops: seq<Op>)
    requires 0 < d.cooldown
    requires forall k :: 0 <= k < |ops| && ops[k].Record? ==> exists j :: Asked(d, ops, k, j) && Undisturbed(ops, k, j)
    ensures Spaced(Run(d, ops).fires, d.cooldown) <==> NoRecordTooEarly(d, ops)
  {
    forall k | 0 <= k < |ops| && ops[k].Record? ensures Passes(d, Run(d, ops[..k]), ops[k].uid, ops[k].now) {
      var j :| Asked(d, ops, k, j) && Undisturbed(ops, k, j);
      UndisturbedIsClear(d, ops, k, j);
    }
    ClearUpTo(d, ops, |ops|);
    assert ops[..|ops|] == ops;
    SpacedIffClearInTime(d, ops);
  }

  // ----- serial callers -----

  datatype Call = Emit(uid: string, check: int, record: int) | Prune(now: int)

  /** Nondecreasing times of one call after the other. */
  ghost predicate InSequence(calls: seq<Call>, now: int) {
    if calls == [] then true
    else
      var last, init := calls[|calls| - 1], calls[..|calls| - 1];
      match last
      case Emit(_, check, record) => check <= record <= now && InSequence(init, check)
      case Prune(t) => t <= now && InSequence(init, t)
  }

  /** The sections that serial calls go through. */
  function Trace(d: Detector, calls: seq<Call>): seq<Op> {
    if calls == [] then []
    else
      var before := Trace(d, calls[..|calls| - 1]);
      match calls[|calls| - 1]
      case Prune(now) => before + [Cleanup(now)]
      case Emit(uid, check, record) =>
        var asked := before + [Ask(0, uid, check)];
        if Passes(d, Run(d, before), uid, check) then asked + [Record(0, uid, record)] else asked
  }

  lemma TimedLater(ops: seq<Op>, now: int, later: int)
    requires Timed(ops, now) && now <= later
    ensures Timed(ops, later)
  {
  }

  lemma {:induction false} TraceTimed(d: Detector, calls: seq<Call>, now: int)
    requires InSequence(calls, now)
    ensures Timed(Trace(d, calls), now)
  {
    if calls != [] {
      var before := Trace(d, calls[..|calls| - 1]);
      match calls[|calls| - 1] {
        case Prune(t) =>
          TraceTimed(d, calls[..|calls| - 1], t);
          TimedSnoc(before, Cleanup(t));
          TimedLater(before + [Cleanup(t)], t, now);
        case Emit(uid, check, record) =>
          TraceTimed(d, calls[..|calls| - 1], check);
          TimedSnoc(before, Ask(0, uid, check));
          TimedLater(before + [Ask(0, uid, check)], check, record);
          TimedSnoc(before + [Ask(0, uid, check)], Record(0, uid, record));
          TimedLater(before + [Ask(0, uid, check)], check, now);
          TimedLater(before + [Ask(0, uid, check)] + [Record(0, uid, record)], record, now);
      }
    }
  }

  lemma {:induction false} TraceClear(d: Detector, calls: seq<Call>, now: int)
    requires InSequence(calls, now)
    ensures AllClear(d, Trace(d, calls))
  {
    if calls != [] {
      var before := Trace(d, calls[..|calls| - 1]);
      match calls[|calls| - 1] {
        case Prune(t) =>
          TraceClear(d, calls[..|calls| - 1], t);
          ClearGrows(d, before, Cleanup(t));
        case Emit(uid, check, record) =>
          TraceClear(d, calls[..|calls| - 1], check);
          ClearGrows(d, before, Ask(0, uid, check));
          RunSnoc(d, before, Ask(0, uid, check));
          ClearGrows(d, before + [Ask(0, uid, check)], Record(0, uid, record));
      }
    }
  }

  /** For serial callers, two fires for one resource are at least the cooldown apart. */
  lemma FiresAreSpaced(d: Detector, calls: seq<Call>, now: int)
    requires 0 < d.cooldown && InSequence(calls, now)
    ensures Spaced(Run(d, Trace(d, calls)).fires, d.cooldown)
  {
    TraceTimed(d, calls, now);
    TraceClear(d, calls, now);
    SpacedIffAllClear(d, Trace(d, calls), now);
  }

  // ----- overlapping callers -----

  lemma RunLiteral(d: Detector, ops: seq<Op>, op: Op, s: State)
    requires Run(d, ops) == s
    ensures Run(d, ops + [op]) == Next(d, s, op)
  {
    RunSnoc(d, ops, op);
  }

  /** Two callers ask before either records, and both pass. */
  lemma BothAsk(d: Detector, uid: string, now: int) returns (ops: seq<Op>)
    ensures ops == [Ask(0, uid, now), Ask(1, uid, now)] && Timed(ops, now) && AllClear(d, ops)
    ensures Run(d, ops) == State(map[], [true, true], [])
  {
    var a, b := Ask(0, uid, now), Ask(1, uid, now);
    ops := [] + [a];
    RunLiteral(d, [], a, State(map[], [], []));
    TimedSnoc([], a);
    ClearGrows(d, [], a);
    ops := ops + [b];
    RunLiteral(d, [a], b, State(map[], [true], []));
    TimedSnoc([a], b);
    ClearGrows(d, [a], b);
  }

  lemma AskedAfter(d: Detector, ops: seq<Op>, uid: string, now: int, k: nat, j: nat)
    requires j < 2 <= k < |ops| && ops[..2] == [Ask(0, uid, now), Ask(1, uid, now)] && ops[k] == Record(j, uid, now)
    ensures Asked(d, ops, k, j)
  {
    assert ops[0] == ops[..2][0] && ops[1] == ops[..2][1];
    assert ops[..0] == [] && ops[..1] == [] + [Ask(0, uid, now)];
    RunLiteral(d, [], Ask(0, uid, now), State(map[], [], []));
  }

  /** Two callers that overlap both ask first, both pass, and fire at the same instant. */
  lemma OverlappingCallersFireTogether(d: Detector, uid: string, now: int) returns (ops: seq<Op>)
    requires 0 < d.cooldown
    ensures Timed(ops, now) && Asked(d, ops, 2, 0) && Asked(d, ops, 3, 1)
    ensures Run(d, ops).fires == [Fire(uid, now), Fire(uid, now)] && !Spaced(Run(d, ops).fires, d.cooldown)
  {
    ops := BothAsk(d, uid, now);
    ghost var asks, x, y := ops, Record(0, uid, now), Record(1, uid, now);
    RunLiteral(d, ops, x, State(map[], [true, true], []));
    TimedSnoc(ops, x);
    ops := ops + [x];
    RunLiteral(d, ops, y, State(map[DedupKey(d.name, uid) := now], [true, true], [Fire(uid, now)]));
    TimedSnoc(ops, y);
    ops := ops + [y];
    assert ops[..2] == asks;
    AskedAfter(d, ops, uid, now, 2, 0);
    AskedAfter(d, ops, uid, now, 3, 1);
    var fires := Run(d, ops).fires;
    assert fires[0].uid == fires[1].uid && fires[0].time == fires[1].time;
  }

  function LongAfter(d: Detector, now: int): Op {
    Cleanup(now + 2 * d.cooldown + 1)
  }

  /**
   The clock is read before the lock is taken. A caller that is delayed in between finds its resource's entry
   removed by a cleanup: every `Record` finds the cooldown over, and two fires still carry the same time.
   */
  lemma DelayedCallerFiresTogether(d: Detector, uid: string, now: int) returns (ops: seq<Op>)
    requires 0 < d.cooldown
    ensures AllClear(d, ops) && Asked(d, ops, 2, 0) && Asked(d, ops, 4, 1)
    ensures Run(d, ops).fires == [Fire(uid, now), Fire(uid, now)] && !Spaced(Run(d, ops).fires, d.cooldown)
  {
    ops := BothAsk(d, uid, now);
    ghost var asks, key := ops, DedupKey(d.name, uid);
    ghost var x, c, y := Record(0, uid, now), LongAfter(d, now), Record(1, uid, now);
    RunLiteral(d, ops, x, State(map[], [true, true], []));
    ClearGrows(d, ops, x);
    ops := ops + [x];
    RunLiteral(d, ops, c, State(map[key := now], [true, true], [Fire(uid, now)]));
    ClearGrows(d, ops, c);
    ops := ops + [c];
    assert Run(d, ops) == State(map[], [true, true], [Fire(uid, now)]);
    RunLiteral(d, ops, y, State(map[], [true, true], [Fire(uid, now)]));
    ClearGrows(d, ops, y);
    ops := ops + [y];
    assert ops[..2] == asks;
    AskedAfter(d, ops, uid, now, 2, 0);
    AskedAfter(d, ops, uid, now, 4, 1);
    var fires := Run(d, ops).fires;
    assert fires[0].uid == fires[1].uid && fires[0].time == fires[1].time;
  }

  /** A delayed `ShouldFire` sees the cleanup too: it passes, and would not have without it. */
  lemma DelayedCallerSeesCleanup(d: Detector, uid: string, now: int) returns (ops: seq<Op>)
    requires 0 < d.cooldown
    ensures Run(d, ops).answers == [true] && Full(d, ops).answers == [false]
  {
    ghost var x, c, a := Record(0, uid, now), LongAfter(d, now), Ask(1, uid, now);
    ghost var fired: Fired := map[DedupKey(d.name, uid) := now];
    RunLiteral(d, [], x, State(map[], [], []));
    RunLiteral(d, [] + [x], c, State(fired, [], [Fire(uid, now)]));
    RunLiteral(d, [] + [x] + [c], a, State(map[], [], [Fire(uid, now)]));
    RunLiteral(d, [] + [x], a, State(fired, [], [Fire(uid, now)]));
    FilterSnoc(IsCall(), [], x);
    FilterSnoc(IsCall(), [] + [x], c);
    FilterSnoc(IsCall(), [] + [x] + [c], a);
    ops := [] + [x] + [c] + [a];
  }
}
