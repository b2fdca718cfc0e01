/**
 Policy handlers that overlap. A handler updates the store under the lock, collects the list under
 the lock, and hands the list to the engine outside it. Collecting after n events gives the list of
 the first n events, so the engine's content is described by how many events it reflects.
 */
module PolicyHandover {
  import opened Prelude
  import opened FilterEngine
  import opened PolicyWatcher

  datatype Handler = Stored | Collected(upTo: nat)

  datatype State = State(history: seq<Event>, handlers: map<nat, Handler>, shown: nat)

  const INIT := State([], map[], 0)

  datatype Step =
    | Store(id: nat, event: Event)   // the first critical section of a handler
    | Collect(id: nat)               // the read section of rebuildPolicies
    | HandOver(id: nat)              // SetPolicies, after the read lock is released

  /** A policy that fails validation changes nothing and starts no rebuild. */
  ghost predicate Effective(e: Event) {
    e.Upsert? ==> ValidPolicy(e.policy)
  }

  /** Effective are exactly the events that settle some key. */
  lemma EffectiveIffSettles(e: Event)
    ensures Effective(e) <==> exists key :: Settles(e, key)
  {
    var key := if e.Delete? then e.key else KeyOf(e.policy);
    assert Effective(e) ==> Settles(e, key);
  }

  predicate Enabled(s: State, step: Step) {
    match step
    case Store(id, _) => id !in s.handlers
    case Collect(id) => id in s.handlers && s.handlers[id].Stored?
    case HandOver(id) => id in s.handlers && s.handlers[id].Collected?
  }

  ghost function Next(s: State, step: Step): State
    requires Enabled(s, step)
  {
    match step
    case Store(id, e) =>
      s.(history := s.history + [e], handlers := if Effective(e) then s.handlers[id := Stored] else s.handlers)
    case Collect(id) => s.(handlers := s.handlers[id := Collected(|s.history|)])
    case HandOver(id) => s.(shown := s.handlers[id].upTo, handlers := s.handlers - {id})
  }

  /** No list is collected from events that have not happened. */
  ghost predicate InRange(s: State) {
    && s.shown <= |s.history|
    && forall id :: id in s.handlers && s.handlers[id].Collected? ==> s.handlers[id].upTo <= |s.history|
  }

  ghost function Run(steps: seq<Step>): (end: Option<State>)
    ensures end.Some? ==> InRange(end.value)
  {
    if steps == [] then Some(INIT)
    else
      var before, step := Run(steps[..|steps| - 1]), steps[|steps| - 1];
      if before.Some? && Enabled(before.value, step) then Some(Next(before.value, step)) else None
  }

  /** How many events the newest list handed over so far reflects. */
  ghost function Newest(steps: seq<Step>): nat {
    if steps == [] then 0
    else
      var init, step := steps[..|steps| - 1], steps[|steps| - 1];
      if step.HandOver? && Run(init).Some? && Enabled(Run(init).value, step)
      then Later(Newest(init), Run(init).value.handlers[step.id].upTo)
      else Newest(init)
  }

  function Later(a: nat, b: nat): nat {
    if a < b then b else a
  }

  /** Event i was brought to the engine at least once, or a handler in flight will bring it there. */
  ghost predicate Covered(s: State, newest: nat, i: nat) {
    i < newest || exists id :: id in s.handlers && (s.handlers[id].Stored? || i < s.handlers[id].upTo)
  }

  ghost predicate Invariant(s: State, newest: nat) {
    && s.shown <= newest <= |s.history|
    && (forall i :: 0 <= i < |s.history| && Effective(s.history[i]) ==> Covered(s, newest, i))
  }

  ghost function NewestAfter(s: State, newest: nat, step: Step): nat
    requires Enabled(s, step)
  {
    if step.HandOver? then Later(newest, s.handlers[step.id].upTo) else newest
  }

  lemma StepKeepsInvariant(s: State, newest: nat, step: Step)
    requires InRange(s) && Invariant(s, newest) && Enabled(s, step)
    ensures Invariant(Next(s, step), NewestAfter(s, newest, step))
  {
    var s', newest' := Next(s, step), NewestAfter(s, newest, step);
    forall i | 0 <= i < |s'.history| && Effective(s'.history[i]) ensures Covered(s', newest', i) {
      if i == |s.history| {
        assert s'.handlers[step.id].Stored?;
      } else {
        assert Covered(s, newest, i);
        if newest <= i {
          var id :| id in s.handlers && (s.handlers[id].Stored? || i < s.handlers[id].upTo);
          assert id in s'.handlers || (step.HandOver? && step.id == id);
        }
      }
    }
  }

  /** In every interleaving of the handlers' sections. */
  lemma {:induction false} RunKeepsInvariant(steps: seq<Step>)
    ensures Run(steps).Some? ==> Invariant(Run(steps).value, Newest(steps))
  {
    if steps != [] && Run(steps).Some? {
      var init := steps[..|steps| - 1];
      RunKeepsInvariant(init);
      StepKeepsInvariant(Run(init).value, Newest(init), steps[|steps| - 1]);
    }
  }

  ghost predicate NoneEffective(history: seq<Event>, from: nat, to: nat)
    requires to <= |history|
  {
    forall i :: from <= i < to ==> !Effective(history[i])
  }

  /**
   In every run that ends with no handler in flight, the engine reflects every effective event if and only if
   none lies between the list it shows and the newest list it was ever handed.
   */
  lemma QuietEngineReflectsAllIff(steps: seq<Step>)
    requires Run(steps).Some? && Run(steps).value.handlers == map[]
    ensures var s := Run(steps).value;
      && Newest(steps) <= |s.history|
      && (NoneEffective(s.history, s.shown, |s.history|) <==> NoneEffective(s.history, s.shown, Newest(steps)))
  {
    RunKeepsInvariant(steps);
    var s := Run(steps).value;
    forall i | Newest(steps) <= i < |s.history| ensures !Effective(s.history[i]) {
      assert Effective(s.history[i]) ==> Covered(s, Newest(steps), i);
    }
  }

  /** Events that settle nothing do not change what is in force. */
  lemma {:induction false} IneffectiveSuffix(history: seq<Event>, n: nat, key: string)
    requires n <= |history| && NoneEffective(history, n, |history|)
    ensures LastValid(history[..n], key) == LastValid(history, key)
  {
    if n == |history| {
      assert history[..n] == history;
    } else {
      var init := history[..|history| - 1];
      IneffectiveSuffix(init, n, key);
      assert init[..n] == history[..n];
    }
  }

  /** The list is determined by what is in force. */
  lemma ListsTransfer(policies: seq<Policy>, history: seq<Event>, history': seq<Event>)
    requires forall key :: LastValid(history, key) == LastValid(history', key)
    ensures Lists(policies, history) <==> Lists(policies, history')
  {
    if keys :| Listing(keys, policies, history) {
      assert Listing(keys, policies, history');
    }
    if keys :| Listing(keys, policies, history') {
      assert Listing(keys, policies, history);
    }
  }

  /** The engine's list is the one of the whole history iff it is the one of the newest hand-over. */
  lemma QuietEngineIsCurrentIff(steps: seq<Step>, policies: seq<Policy>)
    requires Run(steps).Some? && Run(steps).value.handlers == map[]
    ensures var s := Run(steps).value;
      Newest(steps) <= |s.history| && (Lists(policies, s.history) <==> Lists(policies, s.history[..Newest(steps)]))
  {
    RunKeepsInvariant(steps);
    var s, n := Run(steps).value, Newest(steps);
    forall i | n <= i < |s.history| ensures !Effective(s.history[i]) {
      assert Effective(s.history[i]) ==> Covered(s, n, i);
    }
    forall key ensures LastValid(s.history[..n], key) == LastValid(s.history, key) {
      IneffectiveSuffix(s.history, n, key);
    }
    ListsTransfer(policies, s.history, s.history[..n]);
  }

  // ----- hand-overs in order -----

  /** No step hands over a list older than the one the engine has. */
  ghost predicate InOrder(steps: seq<Step>) {
    steps != [] ==>
      var init := steps[..|steps| - 1];
      InOrder(init) && (Run(init).Some? ==> KeepsOrder(Run(init).value, steps[|steps| - 1]))
  }

  ghost predicate KeepsOrder(s: State, step: Step) {
    step.HandOver? && Enabled(s, step) ==> s.shown <= s.handlers[step.id].upTo
  }

  lemma {:induction false} InOrderShowsNewest(steps: seq<Step>)
    requires InOrder(steps) && Run(steps).Some?
    ensures Run(steps).value.shown == Newest(steps)
  {
    if steps != [] {
      InOrderShowsNewest(steps[..|steps| - 1]);
    }
  }

  /** Hand-overs in order leave a quiet engine with exactly what is in force. */
  lemma QuietEngineIsCurrent(steps: seq<Step>, policies: seq<Policy>)
    requires InOrder(steps) && Run(steps).Some? && Run(steps).value.handlers == map[]
    requires Lists(policies, Run(steps).value.history[..Run(steps).value.shown])
    ensures Lists(policies, Run(steps).value.history)
  {
    InOrderShowsNewest(steps);
    QuietEngineIsCurrentIff(steps, policies);
  }

  /** One informer delivers one event at a time. */
  ghost predicate Serial(steps: seq<Step>) {
    steps != [] ==>
      var init := steps[..|steps| - 1];
      Serial(init) && (Run(init).Some? && steps[|steps| - 1].Store? ==> Run(init).value.handlers == map[])
  }

  ghost predicate OneHandler(s: State) {
    && (forall id, id' :: id in s.handlers && id' in s.handlers ==> id == id')
    && (forall id :: id in s.handlers && s.handlers[id].Collected? ==> s.shown <= s.handlers[id].upTo)
  }

  /** Serial delivery hands over in order, so its quiet states are always current. */
  lemma {:induction false} SerialIsInOrder(steps: seq<Step>)
    requires Serial(steps)
    ensures InOrder(steps) && (Run(steps).Some? ==> OneHandler(Run(steps).value))
  {
    if steps != [] {
      SerialIsInOrder(steps[..|steps| - 1]);
    }
  }

  lemma SerialEngineIsCurrent(steps: seq<Step>, policies: seq<Policy>)
    requires Serial(steps) && Run(steps).Some? && Run(steps).value.handlers == map[]
    requires Lists(policies, Run(steps).value.history[..Run(steps).value.shown])
    ensures Lists(policies, Run(steps).value.history)
  {
    SerialIsInOrder(steps);
    QuietEngineIsCurrent(steps, policies);
  }

  lemma Extend(steps: seq<Step>, step: Step, s: State, t: State)
    requires Run(steps) == Some(s) && Enabled(s, step) && Next(s, step) == t
    ensures Run(steps + [step]) == Some(t)
  {
    assert (steps + [step])[..|steps|] == steps;
  }

  /** Two overlapping handlers that hand over in the wrong order leave a deleted policy in the engine. */
  lemma OverlapResurrects(p: WormsignPolicy) returns (steps: seq<Step>)
    requires ValidPolicy(p)
    ensures var history := [Upsert(p), Delete(KeyOf(p))];
      Run(steps) == Some(State(history, map[], 1))
      && LastValid(history[..1], KeyOf(p)) == Some(p) && LastValid(history, KeyOf(p)) == None
  {
    var up, del := Upsert(p), Delete(KeyOf(p));
    Extend([], Store(0, up), INIT, State([up], map[0 := Stored], 0));
    steps := [Store(0, up)];
    Extend(steps, Collect(0), State([up], map[0 := Stored], 0), State([up], map[0 := Collected(1)], 0));
    steps := steps + [Collect(0)];
    var both := map[0 := Collected(1), 1 := Stored];
    Extend(steps, Store(1, del), State([up], map[0 := Collected(1)], 0), State([up, del], both, 0));
    steps := steps + [Store(1, del)];
    var ready := map[0 := Collected(1), 1 := Collected(2)];
    Extend(steps, Collect(1), State([up, del], both, 0), State([up, del], ready, 0));
    steps := steps + [Collect(1)];
    Extend(steps, HandOver(1), State([up, del], ready, 0), State([up, del], map[0 := Collected(1)], 2));
    steps := steps + [HandOver(1)];
    Extend(steps, HandOver(0), State([up, del], map[0 := Collected(1)], 2), State([up, del], map[], 1));
    steps := steps + [HandOver(0)];
    assert [up, del][..1] == [up];
  }
}
