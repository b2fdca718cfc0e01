/**
 The circuit breaker around the analyzer. Reading the state and recording an outcome are
 separate critical sections, and reading can itself move an open circuit to half-open.
 */
module CircuitBreaker {
  import opened Prelude

  datatype CircuitState = Closed | Open | HalfOpen

  datatype Config = Config(consecutiveFailures: int, openDuration: int)

  predicate ValidConfig(cfg: Config) {
    1 <= cfg.consecutiveFailures && 0 < cfg.openDuration
  }

  datatype Breaker = Breaker(state: CircuitState, failures: nat, openedAt: int)

  const NEW := Breaker(Closed, 0, 0)

  function AfterRead(cfg: Config, b: Breaker, now: int): Breaker {
    if b.state == Open && now - b.openedAt >= cfg.openDuration then b.(state := HalfOpen) else b
  }

  function AfterSuccess(b: Breaker): Breaker {
    b.(state := Closed, failures := 0)
  }

  function AfterFailure(cfg: Config, b: Breaker, now: int): Breaker {
    var counted := b.(failures := b.failures + 1);
    if b.state == HalfOpen || (b.state == Closed && counted.failures >= cfg.consecutiveFailures)
    then counted.(state := Open, openedAt := now)
    else counted
  }

  /** Which analyzer produced the answer, and whether the primary failed on the way. */
  datatype Route = ByPrimary | PrimaryError | ByFallback | FallbackAfterProbe

  class CircuitBreaker {
    const cfg: Config
    var state: CircuitState
    var consecutiveFailures: nat
    var openedAt: int

    function Value(): Breaker
      reads this
    {
      Breaker(state, consecutiveFailures, openedAt)
    }

    constructor (cfg: Config)
      ensures this.cfg == cfg && Value() == NEW
    {
      this.cfg := cfg;
      state, consecutiveFailures, openedAt := Closed, 0, 0;
    }

    method CurrentState(now: int) returns (s: CircuitState)
      modifies this`state
      ensures Value() == AfterRead(cfg, old(Value()), now) && s == state
    {
      if state == Open {
        if now - openedAt >= cfg.openDuration {
          state := HalfOpen;
        }
      }
      return state;
    }

    method RecordSuccess()
      modifies this
      ensures Value() == AfterSuccess(old(Value()))
    {
      consecutiveFailures := 0;
      state := Closed;
    }

    method RecordFailure(now: int)
      modifies this
      ensures Value() == AfterFailure(cfg, old(Value()), now)
    {
      consecutiveFailures := consecutiveFailures + 1;
      if state == HalfOpen {
        state := Open;
        openedAt := now;
        return;
      }
      if consecutiveFailures >= cfg.consecutiveFailures && state == Closed {
        state := Open;
        openedAt := now;
      }
    }

    /** One call without interference: checked at `check`, its outcome recorded at `finish`. */
    method Analyze(check: int, primarySucceeds: bool, finish: int) returns (route: Route)
      modifies this
      ensures Value() == AfterCall(cfg, old(Value()), check, primarySucceeds, finish)
      ensures route == ByFallback <==> !CallsPrimary(cfg, old(Value()), check)
      ensures route == ByPrimary <==> CallsPrimary(cfg, old(Value()), check) && primarySucceeds
      ensures route == FallbackAfterProbe <==> AfterRead(cfg, old(Value()), check).state == HalfOpen && !primarySucceeds
    {
      var s := CurrentState(check);
      match s {
        case Open =>
          route := ByFallback;
        case HalfOpen =>
          if !primarySucceeds {
            RecordFailure(finish);
            route := FallbackAfterProbe;
          } else {
            RecordSuccess();
            route := ByPrimary;
          }
        case Closed =>
          if !primarySucceeds {
            RecordFailure(finish);
            route := PrimaryError;
          } else {
            RecordSuccess();
            route := ByPrimary;
          }
      }
    }
  }

  predicate CallsPrimary(cfg: Config, b: Breaker, check: int) {
    AfterRead(cfg, b, check).state != Open
  }

  function AfterCall(cfg: Config, b: Breaker, check: int, primarySucceeds: bool, finish: int): Breaker {
    var read := AfterRead(cfg, b, check);
    if read.state == Open then read
    else if primarySucceeds then AfterSuccess(read)
    else AfterFailure(cfg, read, finish)
  }

  // ----- every interleaving of the critical sections -----

  datatype Section = Read(now: int) | Success | Failure(now: int)

  function After(cfg: Config, b: Breaker, section: Section): Breaker {
    match section
    case Read(now) => AfterRead(cfg, b, now)
    case Success => AfterSuccess(b)
    case Failure(now) => AfterFailure(cfg, b, now)
  }

  function Run(cfg: Config, sections: seq<Section>): Breaker {
    if sections == [] then NEW else After(cfg, Run(cfg, sections[..|sections| - 1]), sections[|sections| - 1])
  }

  /** The failures recorded since the last recorded success. */
  function TrailingFailures(sections: seq<Section>): nat {
    if sections == [] then 0
    else
      match sections[|sections| - 1]
      case Success => 0
      case Failure(_) => TrailingFailures(sections[..|sections| - 1]) + 1
      case Read(_) => TrailingFailures(sections[..|sections| - 1])
  }

  /** The counter is the length of the trailing run of failures, and the circuit is closed iff that run is short. */
  lemma {:induction false} ClosedIffShortRun(cfg: Config, sections: seq<Section>)
    requires ValidConfig(cfg)
    ensures Run(cfg, sections).failures == TrailingFailures(sections)
    ensures Run(cfg, sections).state == Closed <==> TrailingFailures(sections) < cfg.consecutiveFailures
  {
    if sections != [] {
      ClosedIffShortRun(cfg, sections[..|sections| - 1]);
    }
  }

  /** When the circuit last opened: at a failure that found it not open. */
  function LastOpening(cfg: Config, sections: seq<Section>): Option<int> {
    if sections == [] then None
    else
      var init, last := sections[..|sections| - 1], sections[|sections| - 1];
      if Run(cfg, init).state != Open && Run(cfg, sections).state == Open && last.Failure? then Some(last.now)
      else LastOpening(cfg, init)
  }

  /** The recorded time is that of the last opening; failures recorded while already open do not move it. */
  lemma {:induction false} OpenedAtIsLastOpening(cfg: Config, sections: seq<Section>)
    ensures Run(cfg, sections).state != Closed ==> LastOpening(cfg, sections) == Some(Run(cfg, sections).openedAt)
  {
    if sections != [] {
      OpenedAtIsLastOpening(cfg, sections[..|sections| - 1]);
    }
  }

  /** An open circuit lets a call through exactly when the open duration has passed since it last opened. */
  lemma ReadOpensUpIff(cfg: Config, sections: seq<Section>, now: int)
    requires Run(cfg, sections).state == Open
    ensures LastOpening(cfg, sections).Some?
    ensures Run(cfg, sections + [Read(now)]).state
         == if LastOpening(cfg, sections).value + cfg.openDuration <= now then HalfOpen else Open
  {
    OpenedAtIsLastOpening(cfg, sections);
    assert (sections + [Read(now)])[..|sections|] == sections;
  }

  // ----- overlapping callers -----

  /** The breaker and the calls of the primary that are out, each with the state its caller read. */
  datatype Shared = Shared(b: Breaker, clock: int, calls: map<nat, CircuitState>)

  datatype Action =
    | Begin(caller: nat, now: int)            // reads the state and, unless it is open, calls the primary
    | End(caller: nat, ok: bool, now: int)    // the primary returns and the outcome is recorded
    | Look(now: int)                          // State or Healthy

  /** At most `w` calls overlap. */
  predicate CanAct(w: nat, s: Shared, a: Action) {
    && s.clock <= a.now
    && match a
       case Begin(c, _) => c !in s.calls && |s.calls| < w
       case End(c, _, _) => c in s.calls
       case Look(_) => true
  }

  function SectionOf(a: Action): Section {
    match a
    case Begin(_, now) => Read(now)
    case Look(now) => Read(now)
    case End(_, ok, now) => if ok then Success else Failure(now)
  }

  function NextShared(cfg: Config, s: Shared, a: Action): Shared {
    var after := After(cfg, s.b, SectionOf(a));
    var calls := match a
      case Begin(c, _) => if after.state == Open then s.calls else s.calls[c := after.state]
      case End(c, _, _) => s.calls - {c}
      case Look(_) => s.calls;
    Shared(after, a.now, calls)
  }

  function RunShared(cfg: Config, w: nat, start: int, actions: seq<Action>): Option<Shared> {
    if actions == [] then Some(Shared(NEW, start, map[]))
    else
      var before, a := RunShared(cfg, w, start, actions[..|actions| - 1]), actions[|actions| - 1];
      if before.Some? && CanAct(w, before.value, a) then Some(NextShared(cfg, before.value, a)) else None
  }

  function Sections(actions: seq<Action>): seq<Section> {
    if actions == [] then [] else Sections(actions[..|actions| - 1]) + [SectionOf(actions[|actions| - 1])]
  }

  /** The breaker only sees the sections, so what holds for every interleaving holds here. */
  lemma {:induction false} SharedRunsSections(cfg: Config, w: nat, start: int, actions: seq<Action>)
    ensures RunShared(cfg, w, start, actions).Some? ==> RunShared(cfg, w, start, actions).value.b == Run(cfg, Sections(actions))
  {
    if actions != [] {
      SharedRunsSections(cfg, w, start, actions[..|actions| - 1]);
      var init := Sections(actions[..|actions| - 1]);
      assert (init + [SectionOf(actions[|actions| - 1])])[..|init|] == init;
    }
  }

  /** The callers whose probe is out: they read half-open and called the primary. */
  function Probes(s: Shared): set<nat> {
    set c | c in s.calls && s.calls[c] == HalfOpen
  }

  lemma {:induction false} CallsBounded(cfg: Config, w: nat, start: int, actions: seq<Action>)
    ensures RunShared(cfg, w, start, actions).Some? ==> |RunShared(cfg, w, start, actions).value.calls| <= w
  {
    if actions != [] {
      CallsBounded(cfg, w, start, actions[..|actions| - 1]);
      if RunShared(cfg, w, start, actions).Some? {
        CallsStep(cfg, w, RunShared(cfg, w, start, actions[..|actions| - 1]).value, actions[|actions| - 1]);
      }
    }
  }

  lemma CallsStep(cfg: Config, w: nat, s: Shared, a: Action)
    requires |s.calls| <= w && CanAct(w, s, a)
    ensures |NextShared(cfg, s, a).calls| <= w
  {
    if a.End? {
      assert (s.calls - {a.caller}).Keys == s.calls.Keys - {a.caller};
    }
  }

  lemma SubsetSize<T>(a: set<T>, b: set<T>)
    requires a <= b
    ensures |a| <= |b|
  {
    assert b == a + (b - a);
  }

  /** In every run, no more probes are out than callers overlap. */
  lemma ProbesBounded(cfg: Config, w: nat, start: int, actions: seq<Action>)
    requires RunShared(cfg, w, start, actions).Some?
    ensures |Probes(RunShared(cfg, w, start, actions).value)| <= w
  {
    var s := RunShared(cfg, w, start, actions).value;
    CallsBounded(cfg, w, start, actions);
    SubsetSize(Probes(s), s.calls.Keys);
  }

  lemma ExtendShared(cfg: Config, w: nat, start: int, actions: seq<Action>, s: Shared, a: Action)
    requires RunShared(cfg, w, start, actions) == Some(s) && CanAct(w, s, a)
    ensures RunShared(cfg, w, start, actions + [a]) == Some(NextShared(cfg, s, a))
  {
    assert (actions + [a])[..|actions|] == actions;
  }

  /** Failing calls, one after the other, open the circuit at the threshold. */
  lemma {:induction false} FailUntilOpen(cfg: Config, w: nat, start: int, n: nat) returns (actions: seq<Action>, s: Shared)
    requires ValidConfig(cfg) && 1 <= w && n <= cfg.consecutiveFailures
    ensures RunShared(cfg, w, start, actions) == Some(s) && s.clock == start && s.calls == map[]
    ensures s.b == if n < cfg.consecutiveFailures then Breaker(Closed, n, 0) else Breaker(Open, n, start)
  {
    if n == 0 {
      actions, s := [], Shared(NEW, start, map[]);
    } else {
      actions, s := FailUntilOpen(cfg, w, start, n - 1);
      ExtendShared(cfg, w, start, actions, s, Begin(0, start));
      var s1 := NextShared(cfg, s, Begin(0, start));
      assert s1 == Shared(Breaker(Closed, n - 1, 0), start, map[0 := Closed]);
      ExtendShared(cfg, w, start, actions + [Begin(0, start)], s1, End(0, false, start));
      actions, s := actions + [Begin(0, start)] + [End(0, false, start)], NextShared(cfg, s1, End(0, false, start));
    }
  }

  lemma {:induction false} ProbeTogether(cfg: Config, w: nat, start: int, k: nat) returns (actions: seq<Action>, s: Shared)
    requires ValidConfig(cfg) && k <= w && 1 <= w
    ensures RunShared(cfg, w, start, actions) == Some(s) && |s.calls| == k && s.clock <= start + cfg.openDuration
    ensures s.b.openedAt == start && s.b.state == if k == 0 then Open else HalfOpen
    ensures forall c :: c in s.calls ==> c < k && s.calls[c] == HalfOpen
  {
    if k == 0 {
      actions, s := FailUntilOpen(cfg, w, start, cfg.consecutiveFailures);
    } else {
      actions, s := ProbeTogether(cfg, w, start, k - 1);
      var a := Begin(k - 1, start + cfg.openDuration);
      assert k - 1 !in s.calls;
      ExtendShared(cfg, w, start, actions, s, a);
      actions, s := actions + [a], NextShared(cfg, s, a);
    }
  }

  /** From the initial state, for every number of callers, some run has all of them probing at once. */
  lemma ProbesAttained(cfg: Config, w: nat, start: int) returns (actions: seq<Action>)
    requires ValidConfig(cfg)
    ensures RunShared(cfg, w, start, actions).Some?
    ensures |Probes(RunShared(cfg, w, start, actions).value)| == w
  {
    if w == 0 {
      actions := [];
    } else {
      var s;
      actions, s := ProbeTogether(cfg, w, start, w);
      assert Probes(s) == s.calls.Keys;
    }
  }

  ghost predicate SingleProbe(cfg: Config, w: nat, start: int) {
    forall actions :: RunShared(cfg, w, start, actions).Some? ==> |Probes(RunShared(cfg, w, start, actions).value)| <= 1
  }

  /** The documentation promises a single probe. It holds in every run if and only if calls do not overlap. */
  lemma SingleProbeIff(cfg: Config, w: nat, start: int)
    requires ValidConfig(cfg)
    ensures SingleProbe(cfg, w, start) <==> w <= 1
  {
    if w <= 1 {
      forall actions | RunShared(cfg, w, start, actions).Some?
        ensures |Probes(RunShared(cfg, w, start, actions).value)| <= 1
      {
        ProbesBounded(cfg, w, start, actions);
      }
    } else {
      var actions := ProbesAttained(cfg, w, start);
    }
  }

  /** The action does not send a probe while another one is out. */
  predicate ProbesAlone(cfg: Config, s: Shared, a: Action) {
    a.Begin? && AfterRead(cfg, s.b, a.now).state == HalfOpen ==> Probes(s) == {}
  }

  lemma ProbesAfterBegin(cfg: Config, s: Shared, c: nat, now: int)
    requires c !in s.calls
    ensures Probes(NextShared(cfg, s, Begin(c, now)))
         == if AfterRead(cfg, s.b, now).state == HalfOpen then Probes(s) + {c} else Probes(s)
  {
  }

  lemma ProbesAfterOther(cfg: Config, s: Shared, a: Action)
    requires !a.Begin?
    ensures Probes(NextShared(cfg, s, a)) <= Probes(s)
  {
  }

  lemma OneMore<T>(p: set<T>, x: T)
    requires x !in p
    ensures |p + {x}| <= 1 <==> p == {}
  {
    assert |p + {x}| == |p| + 1;
  }

  lemma ProbeStepIff(cfg: Config, w: nat, s: Shared, a: Action)
    requires CanAct(w, s, a) && |Probes(s)| <= 1
    ensures |Probes(NextShared(cfg, s, a))| <= 1 <==> ProbesAlone(cfg, s, a)
  {
    if a.Begin? {
      ProbesAfterBegin(cfg, s, a.caller, a.now);
      OneMore(Probes(s), a.caller);
    } else {
      ProbesAfterOther(cfg, s, a);
      SubsetSize(Probes(NextShared(cfg, s, a)), Probes(s));
    }
  }

  ghost predicate AtMostOneProbe(s: Option<Shared>) {
    s.Some? ==> |Probes(s.value)| <= 1
  }

  /** After every prefix of the run, at most one probe is out. */
  ghost predicate OneProbeThroughout(cfg: Config, w: nat, start: int, actions: seq<Action>) {
    && AtMostOneProbe(RunShared(cfg, w, start, actions))
    && (actions != [] ==> OneProbeThroughout(cfg, w, start, actions[..|actions| - 1]))
  }

  /** Every action of the run respects a probe that is out. */
  ghost predicate EveryProbeAlone(cfg: Config, w: nat, start: int, actions: seq<Action>) {
    actions != [] ==>
      var init := actions[..|actions| - 1];
      && EveryProbeAlone(cfg, w, start, init)
      && (RunShared(cfg, w, start, init).Some? ==> ProbesAlone(cfg, RunShared(cfg, w, start, init).value, actions[|actions| - 1]))
  }

  /** In one run there is never more than one probe out iff every caller that reads half-open finds none out. */
  lemma {:induction false} OneProbeThroughoutIff(cfg: Config, w: nat, start: int, actions: seq<Action>)
    requires RunShared(cfg, w, start, actions).Some?
    ensures OneProbeThroughout(cfg, w, start, actions) <==> EveryProbeAlone(cfg, w, start, actions)
  {
    if actions == [] {
      assert Probes(Shared(NEW, start, map[])) == {};
    } else {
      var init := actions[..|actions| - 1];
      OneProbeThroughoutIff(cfg, w, start, init);
      if OneProbeThroughout(cfg, w, start, init) {
        ProbeStepIff(cfg, w, RunShared(cfg, w, start, init).value, actions[|actions| - 1]);
      }
    }
  }

  // ----- rest after an opening, with overlapping callers -----

  ghost predicate Opens(cfg: Config, s: Shared, a: Action) {
    s.b.state != Open && NextShared(cfg, s, a).b.state == Open
  }

  ghost predicate Calls(cfg: Config, s: Shared, a: Action) {
    a.Begin? && AfterRead(cfg, s.b, a.now).state != Open
  }

  /** The circuit has not closed since it opened at `t`. */
  predicate Resting(cfg: Config, s: Shared, t: int) {
    match s.b.state
    case Closed => false
    case Open => t <= s.b.openedAt
    case HalfOpen => t + cfg.openDuration <= s.clock
  }

  lemma RestingStep(cfg: Config, w: nat, s: Shared, a: Action, t: int)
    requires ValidConfig(cfg) && CanAct(w, s, a) && Resting(cfg, s, t) && !(a.End? && a.ok)
    ensures Resting(cfg, NextShared(cfg, s, a), t)
    ensures Calls(cfg, s, a) ==> t + cfg.openDuration <= a.now
  {
  }

  /** Action i opens the circuit and action k > i calls the primary within the open duration. */
  ghost predicate EarlyCall(cfg: Config, w: nat, start: int, actions: seq<Action>, i: nat, k: nat) {
    && i < k < |actions| && RunShared(cfg, w, start, actions).Some?
    && OpensAt(cfg, w, start, actions, i)
    && RunShared(cfg, w, start, actions[..k]).Some?
    && Calls(cfg, RunShared(cfg, w, start, actions[..k]).value, actions[k])
    && actions[k].now < actions[i].now + cfg.openDuration
  }

  ghost predicate OpensAt(cfg: Config, w: nat, start: int, actions: seq<Action>, i: nat) {
    && i < |actions| && RunShared(cfg, w, start, actions[..i]).Some?
    && Opens(cfg, RunShared(cfg, w, start, actions[..i]).value, actions[i])
  }

  /** `states` are the states that `actions` pass through. */
  ghost predicate Through(cfg: Config, w: nat, states: seq<Shared>, actions: seq<Action>) {
    && |states| == |actions| + 1
    && forall k :: 0 <= k < |actions| ==> CanAct(w, states[k], actions[k]) && states[k + 1] == NextShared(cfg, states[k], actions[k])
  }

  /** The state after the first `k` actions. */
  ghost function StateAt(cfg: Config, w: nat, start: int, actions: seq<Action>, k: nat): Shared
    requires k <= |actions|
  {
    var s := RunShared(cfg, w, start, actions[..k]);
    if s.Some? then s.value else Shared(NEW, start, map[])
  }

  lemma {:induction false} PrefixShared(cfg: Config, w: nat, start: int, actions: seq<Action>, n: nat)
    requires RunShared(cfg, w, start, actions).Some? && n <= |actions|
    ensures RunShared(cfg, w, start, actions[..n]).Some?
  {
    if n == |actions| {
      assert actions[..n] == actions;
    } else {
      PrefixShared(cfg, w, start, actions[..|actions| - 1], n);
      assert actions[..|actions| - 1][..n] == actions[..n];
    }
  }

  lemma StepAt(cfg: Config, w: nat, start: int, actions: seq<Action>, k: nat)
    requires RunShared(cfg, w, start, actions).Some? && k < |actions|
    ensures CanAct(w, StateAt(cfg, w, start, actions, k), actions[k])
    ensures StateAt(cfg, w, start, actions, k + 1) == NextShared(cfg, StateAt(cfg, w, start, actions, k), actions[k])
  {
    PrefixShared(cfg, w, start, actions, k + 1);
    assert actions[..k + 1][..k] == actions[..k] && actions[..k + 1][k] == actions[k];
  }

  lemma StatesOfRun(cfg: Config, w: nat, start: int, actions: seq<Action>) returns (states: seq<Shared>)
    requires RunShared(cfg, w, start, actions).Some?
    ensures Through(cfg, w, states, actions)
    ensures forall k :: 0 <= k <= |actions| ==> states[k] == StateAt(cfg, w, start, actions, k)
  {
    states := seq(|actions| + 1, k requires 0 <= k <= |actions| => StateAt(cfg, w, start, actions, k));
    forall k | 0 <= k < |actions|
      ensures CanAct(w, states[k], actions[k]) && states[k + 1] == NextShared(cfg, states[k], actions[k])
    {
      StepAt(cfg, w, start, actions, k);
    }
  }

  lemma RestsUntil(cfg: Config, w: nat, states: seq<Shared>, actions: seq<Action>, i: nat, k: nat)
    requires ValidConfig(cfg) && Through(cfg, w, states, actions) && i < k <= |actions| && Opens(cfg, states[i], actions[i])
    requires forall j :: i < j < k ==> !(actions[j].End? && actions[j].ok)
    ensures Resting(cfg, states[k], actions[i].now)
  {
    var holds := (s: Shared) => Resting(cfg, s, actions[i].now);
    OpeningRests(cfg, states[i], actions[i]);
    forall j | i + 1 <= j < k ensures holds(states[j]) ==> holds(states[j + 1]) {
      if holds(states[j]) {
        RestingStep(cfg, w, states[j], actions[j], actions[i].now);
      }
    }
    KeptAlong(holds, states, i + 1, k);
  }

  lemma OpeningRests(cfg: Config, s: Shared, a: Action)
    requires Opens(cfg, s, a)
    ensures Resting(cfg, NextShared(cfg, s, a), a.now)
  {
  }

  /** In every interleaving, a call within the open duration of an opening follows a success recorded since. */
  lemma EarlyCallAfterSuccess(cfg: Config, w: nat, start: int, actions: seq<Action>, i: nat, k: nat)
    requires ValidConfig(cfg) && EarlyCall(cfg, w, start, actions, i, k)
    ensures exists j :: i < j < k && actions[j].End? && actions[j].ok
  {
    if forall j :: i < j < k ==> !(actions[j].End? && actions[j].ok) {
      var states := StatesOfRun(cfg, w, start, actions);
      RestsUntil(cfg, w, states, actions, i, k);
      RestingStep(cfg, w, states[k], actions[k], actions[i].now);
    }
  }

  /** After an opening at `t` nobody is out, until the duration has passed. */
  predicate RestingAlone(cfg: Config, s: Shared, t: int) {
    t + cfg.openDuration <= s.clock || (s.b.state == Open && t <= s.b.openedAt && s.calls == map[])
  }

  lemma RestingAloneStep(cfg: Config, w: nat, s: Shared, a: Action, t: int)
    requires ValidConfig(cfg) && CanAct(w, s, a) && RestingAlone(cfg, s, t)
    ensures RestingAlone(cfg, NextShared(cfg, s, a), t)
    ensures Calls(cfg, s, a) ==> t + cfg.openDuration <= a.now
  {
  }

  lemma OpeningAlone(cfg: Config, w: nat, s: Shared, a: Action)
    requires w <= 1 && |s.calls| <= w && CanAct(w, s, a) && Opens(cfg, s, a)
    ensures RestingAlone(cfg, NextShared(cfg, s, a), a.now)
  {
    assert a.End?;
    assert s.calls.Keys == {a.caller} by {
      SubsetSize(s.calls.Keys - {a.caller}, s.calls.Keys);
      assert |s.calls.Keys - {a.caller}| == 0;
    }
  }

  lemma RestsAloneUntil(cfg: Config, w: nat, states: seq<Shared>, actions: seq<Action>, i: nat, k: nat)
    requires ValidConfig(cfg) && w <= 1 && Through(cfg, w, states, actions)
    requires i < k <= |actions| && Opens(cfg, states[i], actions[i]) && |states[i].calls| <= w
    ensures RestingAlone(cfg, states[k], actions[i].now)
  {
    var holds := (s: Shared) => RestingAlone(cfg, s, actions[i].now);
    OpeningAlone(cfg, w, states[i], actions[i]);
    forall j | i + 1 <= j < k ensures holds(states[j]) ==> holds(states[j + 1]) {
      if holds(states[j]) {
        RestingAloneStep(cfg, w, states[j], actions[j], actions[i].now);
      }
    }
    KeptAlong(holds, states, i + 1, k);
  }

  lemma NoEarlyCallAlone(cfg: Config, w: nat, start: int, actions: seq<Action>, i: nat, k: nat)
    requires ValidConfig(cfg) && w <= 1
    ensures !EarlyCall(cfg, w, start, actions, i, k)
  {
    if EarlyCall(cfg, w, start, actions, i, k) {
      var states := StatesOfRun(cfg, w, start, actions);
      CallsBounded(cfg, w, start, actions[..i]);
      RestsAloneUntil(cfg, w, states, actions, i, k);
      RestingAloneStep(cfg, w, states[k], actions[k], actions[i].now);
    }
  }

  /** Two calls are out; one fails and opens the circuit, the other succeeds and closes it, and the next one goes through. */
  lemma OverlapDisturbsRest(cfg: Config, w: nat, start: int) returns (actions: seq<Action>, i: nat, k: nat)
    requires ValidConfig(cfg) && 2 <= w
    ensures EarlyCall(cfg, w, start, actions, i, k)
  {
    var n, s := cfg.consecutiveFailures - 1, Shared(NEW, start, map[]);
    var before: seq<Action>;
    before, s := FailUntilOpen(cfg, w, start, n);
    var a, b, x, y, z := Begin(0, start), Begin(1, start), End(0, false, start), End(1, true, start), Begin(2, start);
    var s1 := Shared(Breaker(Closed, n, 0), start, map[0 := Closed]);
    ExtendShared(cfg, w, start, before, s, a);
    assert NextShared(cfg, s, a) == s1;
    var s2 := Shared(Breaker(Closed, n, 0), start, map[0 := Closed, 1 := Closed]);
    ExtendShared(cfg, w, start, before + [a], s1, b);
    assert NextShared(cfg, s1, b) == s2;
    var s3 := Shared(Breaker(Open, n + 1, start), start, map[1 := Closed]);
    var both := before + [a] + [b];
    ExtendShared(cfg, w, start, both, s2, x);
    assert NextShared(cfg, s2, x) == s3;
    var s4 := Shared(Breaker(Closed, 0, start), start, map[]);
    ExtendShared(cfg, w, start, both + [x], s3, y);
    assert NextShared(cfg, s3, y) == s4;
    ExtendShared(cfg, w, start, both + [x] + [y], s4, z);
    actions, i, k := both + [x] + [y] + [z], |both|, |both| + 2;
    assert actions[..i] == both && actions[..k] == both + [x] + [y];
  }

  ghost predicate AlwaysRests(cfg: Config, w: nat, start: int) {
    forall actions, i, k :: !EarlyCall(cfg, w, start, actions, i, k)
  }

  /** The primary rests after every opening, in every run, if and only if calls do not overlap. */
  lemma AlwaysRestsIff(cfg: Config, w: nat, start: int)
    requires ValidConfig(cfg)
    ensures AlwaysRests(cfg, w, start) <==> w <= 1
  {
    if w <= 1 {
      forall actions, i, k ensures !EarlyCall(cfg, w, start, actions, i, k) {
        NoEarlyCallAlone(cfg, w, start, actions, i, k);
      }
    } else {
      var actions, i, k := OverlapDisturbsRest(cfg, w, start);
    }
  }

  // ----- serial callers -----

  /** What the outside sees: the primary being called, and the circuit opening. */
  datatype Event = Called(time: int) | Opened(time: int)

  datatype Serial = Serial(b: Breaker, clock: int, log: seq<Event>)

  datatype Call = Analyze(check: int, ok: bool, finish: int) | Peek(now: int)

  predicate Enabled(s: Serial, call: Call) {
    match call
    case Analyze(check, _, finish) => s.clock <= check <= finish
    case Peek(now) => s.clock <= now
  }

  function NextSerial(cfg: Config, s: Serial, call: Call): Serial {
    match call
    case Peek(now) => s.(b := AfterRead(cfg, s.b, now), clock := now)
    case Analyze(check, ok, finish) =>
      var after := AfterCall(cfg, s.b, check, ok, finish);
      if !CallsPrimary(cfg, s.b, check) then Serial(after, finish, s.log)
      else Serial(after, finish, s.log + [Called(check)] + if after.state == Open then [Opened(finish)] else [])
  }

  function RunSerial(cfg: Config, from: Serial, calls: seq<Call>): Option<Serial> {
    if calls == [] then Some(from)
    else
      var before, call := RunSerial(cfg, from, calls[..|calls| - 1]), calls[|calls| - 1];
      if before.Some? && Enabled(before.value, call) then Some(NextSerial(cfg, before.value, call)) else None
  }

  /** A call that follows an opening comes at least `openDuration` after it. */
  ghost predicate Spaced(cfg: Config, log: seq<Event>) {
    forall i, j :: 0 <= i < j < |log| && log[i].Opened? && log[j].Called? ==> log[i].time + cfg.openDuration <= log[j].time
  }

  /** All openings so far are at least `openDuration` before `time`. */
  ghost predicate Cooled(cfg: Config, log: seq<Event>, time: int) {
    forall i :: 0 <= i < |log| && log[i].Opened? ==> log[i].time + cfg.openDuration <= time
  }

  ghost predicate SerialInvariant(cfg: Config, s: Serial) {
    && Spaced(cfg, s.log)
    && (s.b.state != Open ==> Cooled(cfg, s.log, s.clock))
    && (s.b.state == Open ==> Cooled(cfg, s.log, s.b.openedAt + cfg.openDuration))
  }

  lemma SerialStep(cfg: Config, s: Serial, call: Call)
    requires ValidConfig(cfg) && SerialInvariant(cfg, s) && Enabled(s, call)
    ensures SerialInvariant(cfg, NextSerial(cfg, s, call))
  {
    if call.Analyze? && CallsPrimary(cfg, s.b, call.check) {
      assert Cooled(cfg, s.log, call.check);
    }
  }

  lemma {:induction false} SerialRunInvariant(cfg: Config, start: int, calls: seq<Call>)
    requires ValidConfig(cfg)
    ensures var end := RunSerial(cfg, Serial(NEW, start, []), calls);
      end.Some? ==> SerialInvariant(cfg, end.value)
  {
    if calls != [] {
      SerialRunInvariant(cfg, start, calls[..|calls| - 1]);
      var before := RunSerial(cfg, Serial(NEW, start, []), calls[..|calls| - 1]);
      if before.Some? && Enabled(before.value, calls[|calls| - 1]) {
        SerialStep(cfg, before.value, calls[|calls| - 1]);
      }
    }
  }

  /** For serial callers and a clock that never goes back, the primary rests for `openDuration` after every opening. */
  lemma PrimaryRestsAfterOpening(cfg: Config, start: int, calls: seq<Call>)
    requires ValidConfig(cfg)
    ensures var end := RunSerial(cfg, Serial(NEW, start, []), calls);
      end.Some? ==> Spaced(cfg, end.value.log)
  {
    SerialRunInvariant(cfg, start, calls);
  }

  function CallTimes(log: seq<Event>): seq<int> {
    if log == [] then []
    else CallTimes(log[..|log| - 1]) + if log[|log| - 1].Called? then [log[|log| - 1].time] else []
  }

  /** The log speaks of the calls that were made: primary calls at the time they were checked, openings at the time they ended. */
  lemma {:induction false} LogIsOfCalls(cfg: Config, from: Serial, calls: seq<Call>, e: Event)
    requires RunSerial(cfg, from, calls).Some? && e in RunSerial(cfg, from, calls).value.log && e !in from.log
    ensures match e
      case Called(t) => exists i :: 0 <= i < |calls| && calls[i].Analyze? && calls[i].check == t
      case Opened(t) => exists i :: 0 <= i < |calls| && calls[i].Analyze? && calls[i].finish == t && !calls[i].ok
  {
    var n := |calls| - 1;
    if n >= 0 {
      var before := RunSerial(cfg, from, calls[..n]).value;
      if e in before.log {
        LogIsOfCalls(cfg, from, calls[..n], e);
        assert forall i :: 0 <= i < n ==> calls[..n][i] == calls[i];
      } else {
        assert calls[n].Analyze?;
      }
    }
  }

  /** The call after `i` others waited for `i + 1` durations. */
  ghost predicate TimesBackOff(cfg: Config, t0: int, times: seq<int>) {
    forall i :: 0 <= i < |times| ==> t0 + Durations(cfg, i + 1) <= times[i]
  }

  /** After `k` failed calls the next one is at least `k + 1` durations away from `t0`. */
  ghost predicate WaitsFor(cfg: Config, b: Breaker, clock: int, t0: int, k: nat) {
    match b.state
    case Closed => false
    case Open => t0 + Durations(cfg, k) <= b.openedAt
    case HalfOpen => t0 + Durations(cfg, k + 1) <= clock
  }

  ghost predicate BackedOff(cfg: Config, s: Serial, t0: int) {
    TimesBackOff(cfg, t0, CallTimes(s.log)) && WaitsFor(cfg, s.b, s.clock, t0, |CallTimes(s.log)|)
  }

  function Durations(cfg: Config, k: nat): int {
    if k == 0 then 0 else Durations(cfg, k - 1) + cfg.openDuration
  }

  lemma {:induction false} DurationsMultiply(cfg: Config, k: nat)
    ensures Durations(cfg, k) == k * cfg.openDuration
  {
    if k != 0 {
      DurationsMultiply(cfg, k - 1);
    }
  }

  lemma FailedCallLogged(log: seq<Event>, check: int, finish: int)
    ensures CallTimes(log + [Called(check)] + [Opened(finish)]) == CallTimes(log) + [check]
  {
    var once := log + [Called(check)];
    assert once[..|log|] == log;
    assert (once + [Opened(finish)])[..|once|] == once;
  }

  lemma WaitsStep(cfg: Config, b: Breaker, clock: int, t0: int, k: nat, call: Call)
    requires ValidConfig(cfg) && WaitsFor(cfg, b, clock, t0, k)
    requires match call case Analyze(check, ok, finish) => clock <= check <= finish && !ok case Peek(now) => clock <= now
    ensures match call
      case Peek(now) => WaitsFor(cfg, AfterRead(cfg, b, now), now, t0, k)
      case Analyze(check, ok, finish) =>
        var after := AfterCall(cfg, b, check, ok, finish);
        if CallsPrimary(cfg, b, check)
        then after.state == Open && t0 + Durations(cfg, k + 1) <= check && WaitsFor(cfg, after, finish, t0, k + 1)
        else WaitsFor(cfg, after, finish, t0, k)
  {
  }

  lemma BackOffStep(cfg: Config, s: Serial, t0: int, call: Call)
    requires ValidConfig(cfg) && BackedOff(cfg, s, t0) && Enabled(s, call) && (call.Analyze? ==> !call.ok)
    ensures BackedOff(cfg, NextSerial(cfg, s, call), t0)
  {
    var times := CallTimes(s.log);
    WaitsStep(cfg, s.b, s.clock, t0, |times|, call);
    if call.Analyze? && CallsPrimary(cfg, s.b, call.check) {
      FailedCallLogged(s.log, call.check, call.finish);
      assert TimesBackOff(cfg, t0, times + [call.check]);
    }
  }

  lemma {:induction false} FailingRunBacksOff(cfg: Config, b: Breaker, t0: int, clock: int, calls: seq<Call>)
    requires ValidConfig(cfg) && b.state == Open && b.openedAt == t0
    requires forall i :: 0 <= i < |calls| && calls[i].Analyze? ==> !calls[i].ok
    ensures var end := RunSerial(cfg, Serial(b, clock, []), calls);
      end.Some? ==> BackedOff(cfg, end.value, t0)
  {
    if calls != [] {
      FailingRunBacksOff(cfg, b, t0, clock, calls[..|calls| - 1]);
      var before := RunSerial(cfg, Serial(b, clock, []), calls[..|calls| - 1]);
      if before.Some? && Enabled(before.value, calls[|calls| - 1]) {
        BackOffStep(cfg, before.value, t0, calls[|calls| - 1]);
      }
    }
  }

  /** While the backend stays down after opening at `t0`, the k-th further call of the primary waits at least k durations. */
  lemma FailingCallsBackOff(cfg: Config, b: Breaker, t0: int, clock: int, calls: seq<Call>)
    requires ValidConfig(cfg) && b.state == Open && b.openedAt == t0
    requires forall i :: 0 <= i < |calls| && calls[i].Analyze? ==> !calls[i].ok
    ensures var end := RunSerial(cfg, Serial(b, clock, []), calls);
      end.Some? ==>
        var times := CallTimes(end.value.log);
        forall k :: 1 <= k <= |times| ==> t0 + k * cfg.openDuration <= times[k - 1]
  {
    FailingRunBacksOff(cfg, b, t0, clock, calls);
    forall k: nat ensures Durations(cfg, k) == k * cfg.openDuration {
      DurationsMultiply(cfg, k);
    }
  }
}
