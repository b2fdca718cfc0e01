/**
 The analysis queue under concurrency. Workers in `Get` and goroutines in `WaitForDrain`
 and `WaitForInflight` sleep on one condition variable. `Add` signals, waking any one
 sleeper of the scheduler's choice; `Done` and `ShutDown` broadcast; `Drain` wakes nobody.
 Every step is one critical section.
 */
module QueueConcurrency {
  import opened Prelude
  import opened PriorityQueue

  datatype Worker<T> = Checking | Sleeping | Busy(item: AnalysisItem<T>) | Exited

  datatype WaitKind = ForDrain | ForInflight

  datatype WaiterPhase = Looking | Asleep | Returned

  datatype Waiter = Waiter(kind: WaitKind, phase: WaiterPhase)

  datatype State<T> = State(
    pending: seq<AnalysisItem<T>>,
    inflight: nat,
    shutdown: bool,
    workers: map<nat, Worker<T>>,
    waiters: map<nat, Waiter>)

  /** Whom `Signal` wakes. */
  datatype Signal = Nobody | WakeWorker(worker: nat) | WakeWaiter(waiter: nat)

  datatype Step<T> =
    | Add(item: AnalysisItem<T>, signal: Signal)
    | Check(worker: nat)                    // the wait loop of Get, and what follows it
    | Done(worker: nat)                     // the worker goes back to Get
    | ShutDown
    | StartWait(waiter: nat, kind: WaitKind)
    | CheckWait(waiter: nat)
    | DrainAll

  function Initial<T>(ids: set<nat>): State<T> {
    State([], 0, false, map w | w in ids :: Checking, map[])
  }

  predicate Sleeps<T>(s: State<T>, w: nat) {
    w in s.workers && s.workers[w].Sleeping?
  }

  predicate WaiterSleeps<T>(s: State<T>, d: nat) {
    d in s.waiters && s.waiters[d].phase == Asleep
  }

  ghost predicate AnySleeper<T>(s: State<T>) {
    (exists w :: Sleeps(s, w)) || (exists d :: WaiterSleeps(s, d))
  }

  /** `Signal` wakes exactly one sleeper if there is any. */
  ghost predicate CanSignal<T>(s: State<T>, signal: Signal) {
    match signal
    case Nobody => !AnySleeper(s)
    case WakeWorker(w) => Sleeps(s, w)
    case WakeWaiter(d) => WaiterSleeps(s, d)
  }

  ghost predicate Enabled<T>(s: State<T>, step: Step<T>) {
    match step
    case Add(_, signal) => if s.shutdown then signal == Nobody else CanSignal(s, signal)
    case Check(w) => w in s.workers && s.workers[w].Checking?
    case Done(w) => w in s.workers && s.workers[w].Busy?
    case ShutDown => true
    case StartWait(d, _) => d !in s.waiters
    case CheckWait(d) => d in s.waiters && s.waiters[d].phase == Looking
    case DrainAll => true
  }

  function Woken<T>(worker: Worker<T>): Worker<T> {
    if worker.Sleeping? then Checking else worker
  }

  function Broadcast<T>(s: State<T>): State<T> {
    s.(workers := map w | w in s.workers :: Woken(s.workers[w]),
       waiters := map d | d in s.waiters :: if s.waiters[d].phase == Asleep then s.waiters[d].(phase := Looking) else s.waiters[d])
  }

  function MustWait<T>(s: State<T>, kind: WaitKind): bool {
    s.inflight > 0 || (kind == ForDrain && s.pending != [])
  }

  ghost function Next<T>(s: State<T>, step: Step<T>): State<T>
    requires Enabled(s, step)
  {
    match step
    case Add(item, signal) =>
      if s.shutdown then s
      else
        var added := s.(pending := s.pending + [item]);
        (match signal
         case Nobody => added
         case WakeWorker(w) => added.(workers := s.workers[w := Checking])
         case WakeWaiter(d) => added.(waiters := s.waiters[d := s.waiters[d].(phase := Looking)]))
    case Check(w) =>
      if s.pending == [] then s.(workers := s.workers[w := if s.shutdown then Exited else Sleeping])
      else s.(pending := AfterGet(s.pending),
              inflight := s.inflight + 1,
              workers := s.workers[w := Busy(s.pending[NextIndex(s.pending)])])
    case Done(w) =>
      Broadcast(s.(inflight := if s.inflight > 0 then s.inflight - 1 else 0, workers := s.workers[w := Checking]))
    case ShutDown => Broadcast(s.(shutdown := true))
    case StartWait(d, kind) => s.(waiters := s.waiters[d := Waiter(kind, Looking)])
    case CheckWait(d) =>
      var phase := if MustWait(s, s.waiters[d].kind) then Asleep else Returned;
      s.(waiters := s.waiters[d := s.waiters[d].(phase := phase)])
    case DrainAll => s.(pending := [])
  }

  /** `Drain` strands nobody: an item is still in flight, or no drain-waiter is asleep. */
  ghost predicate DrainIsSafe<T>(s: State<T>) {
    s.inflight > 0 || forall d :: WaiterSleeps(s, d) ==> s.waiters[d].kind != ForDrain
  }

  /** The state after a run of the workers `ids`, or nothing when a step was not enabled. */
  ghost function Run<T>(ids: set<nat>, steps: seq<Step<T>>): Option<State<T>> {
    if steps == [] then Some(Initial(ids))
    else
      var before, step := Run(ids, steps[..|steps| - 1]), steps[|steps| - 1];
      if before.Some? && Enabled(before.value, step) then Some(Next(before.value, step)) else None
  }

  /** Every `Drain` of the run is safe where it happens. The controller never calls it. */
  ghost predicate DrainsSafely<T>(ids: set<nat>, steps: seq<Step<T>>) {
    steps != [] ==>
      var init := steps[..|steps| - 1];
      && DrainsSafely(ids, init)
      && (steps[|steps| - 1].DrainAll? && Run(ids, init).Some? ==> DrainIsSafe(Run(ids, init).value))
  }

  ghost function BusyWorkers<T>(s: State<T>): set<nat> {
    set w | w in s.workers && s.workers[w].Busy?
  }

  predicate Awake<T>(s: State<T>, w: nat) {
    w in s.workers && (s.workers[w].Checking? || s.workers[w].Busy?)
  }

  /** A sleeper has a reason to sleep. */
  ghost predicate NobodyStranded<T>(s: State<T>) {
    forall d :: WaiterSleeps(s, d) ==> MustWait(s, s.waiters[d].kind)
  }

  ghost predicate Invariant<T>(s: State<T>) {
    && s.inflight == |BusyWorkers(s)|
    && NobodyStranded(s)
    && (forall w :: w in s.workers && s.workers[w].Exited? ==> s.shutdown && s.pending == [])
    && (s.shutdown ==> forall w :: !Sleeps(s, w))
    && (s.pending != [] && s.workers != map[] ==> exists w :: Awake(s, w))
  }

  lemma SomeBusy<T>(s: State<T>)
    requires s.inflight == |BusyWorkers(s)| && s.inflight > 0
    ensures exists w :: w in s.workers && s.workers[w].Busy? && Awake(s, w)
  {
    var w :| w in BusyWorkers(s);
    assert Awake(s, w);
  }

  /** The heart of the argument: a signal that goes to a waiter is not needed by a worker. */
  lemma AddLeavesSomeoneAwake<T>(s: State<T>, step: Step<T>)
    requires Invariant(s) && step.Add? && Enabled(s, step) && !s.shutdown && s.workers != map[]
    ensures exists w :: Awake(Next(s, step), w)
  {
    var s' := Next(s, step);
    if step.signal.WakeWorker? {
      assert Awake(s', step.signal.worker);
    } else if s.pending != [] {
      var w :| Awake(s, w);
      assert Awake(s', w);
    } else if step.signal.WakeWaiter? {
      assert MustWait(s, s.waiters[step.signal.waiter].kind);
      SomeBusy(s);
      var w :| w in s.workers && s.workers[w].Busy? && Awake(s, w);
      assert Awake(s', w);
    } else {
      var w :| w in s.workers;
      assert !Sleeps(s, w);
      assert Awake(s', w);
    }
  }

  lemma BroadcastFacts<T>(s: State<T>)
    ensures var s' := Broadcast(s);
      && s'.pending == s.pending && s'.inflight == s.inflight && s'.shutdown == s.shutdown
      && s'.workers.Keys == s.workers.Keys
      && BusyWorkers(s') == BusyWorkers(s)
      && (forall w :: !Sleeps(s', w)) && (forall d :: !WaiterSleeps(s', d))
      && (forall w :: w in s.workers ==> s'.workers[w].Exited? == s.workers[w].Exited?)
  {
  }

  lemma CheckBusy<T>(s: State<T>, w: nat)
    requires Enabled(s, Check(w))
    ensures |BusyWorkers(Next(s, Check(w)))| == |BusyWorkers(s)| + if s.pending == [] then 0 else 1
  {
    var s' := Next(s, Check(w));
    if s.pending == [] {
      assert BusyWorkers(s') == BusyWorkers(s);
    } else {
      assert BusyWorkers(s') == BusyWorkers(s) + {w};
    }
  }

  lemma CheckKeepsInvariant<T>(s: State<T>, w: nat)
    requires Invariant(s) && Enabled(s, Check(w))
    ensures Invariant(Next(s, Check(w)))
  {
    var s' := Next(s, Check(w));
    CheckBusy(s, w);
    if s.pending != [] {
      assert Awake(s', w);
    }
    forall v | s.shutdown ensures !Sleeps(s', v) {
      assert !Sleeps(s, v);
    }
    forall d | WaiterSleeps(s', d) ensures MustWait(s', s'.waiters[d].kind) {
      assert WaiterSleeps(s, d);
    }
  }

  lemma DoneKeepsInvariant<T>(s: State<T>, w: nat)
    requires Invariant(s) && Enabled(s, Done(w))
    ensures Invariant(Next(s, Done(w)))
  {
    assert w in BusyWorkers(s);
    var mid := s.(inflight := s.inflight - 1, workers := s.workers[w := Checking]);
    assert BusyWorkers(mid) == BusyWorkers(s) - {w};
    BroadcastFacts(mid);
    assert Awake(Next(s, Done(w)), w);
  }

  lemma ShutDownKeepsInvariant<T>(s: State<T>)
    requires Invariant(s)
    ensures Invariant(Next(s, ShutDown))
  {
    var mid, s' := s.(shutdown := true), Next(s, ShutDown);
    BroadcastFacts(mid);
    assert BusyWorkers(mid) == BusyWorkers(s);
    if s.pending != [] && s.workers != map[] {
      var w :| Awake(s, w);
      assert Awake(s', w);
    }
  }

  lemma AddKeepsInvariant<T>(s: State<T>, step: Step<T>)
    requires Invariant(s) && step.Add? && Enabled(s, step)
    ensures Invariant(Next(s, step))
  {
    if !s.shutdown {
      var s' := Next(s, step);
      assert BusyWorkers(s') == BusyWorkers(s);
      forall d | WaiterSleeps(s', d) ensures MustWait(s', s'.waiters[d].kind) {
        assert WaiterSleeps(s, d);
      }
      if s.workers != map[] {
        AddLeavesSomeoneAwake(s, step);
      }
    }
  }

  lemma OtherStepKeepsInvariant<T>(s: State<T>, step: Step<T>)
    requires Invariant(s) && Enabled(s, step)
    requires step.StartWait? || step.CheckWait? || (step.DrainAll? && DrainIsSafe(s))
    ensures Invariant(Next(s, step))
  {
    var s' := Next(s, step);
    assert BusyWorkers(s') == BusyWorkers(s);
    forall d | WaiterSleeps(s', d) ensures MustWait(s', s'.waiters[d].kind) {
      assert WaiterSleeps(s, d) || (step.CheckWait? && step.waiter == d);
    }
    forall v | s.shutdown ensures !Sleeps(s', v) {
      assert !Sleeps(s, v);
    }
    if s'.pending != [] && s.workers != map[] {
      var w :| Awake(s, w);
      assert Awake(s', w);
    }
  }

  lemma {:induction false} RunKeepsInvariant<T>(ids: set<nat>, steps: seq<Step<T>>)
    requires DrainsSafely(ids, steps)
    ensures Run(ids, steps).Some? ==> Invariant(Run(ids, steps).value) && Run(ids, steps).value.workers.Keys == ids
  {
    if steps == [] {
      var s: State<T> := Initial(ids);
      assert BusyWorkers(s) == {};
    } else {
      RunKeepsInvariant(ids, steps[..|steps| - 1]);
      var before, step := Run(ids, steps[..|steps| - 1]), steps[|steps| - 1];
      if Run(ids, steps).Some? {
        match step {
          case Add(_, _) => AddKeepsInvariant(before.value, step);
          case Check(w) => CheckKeepsInvariant(before.value, w);
          case Done(w) => DoneKeepsInvariant(before.value, w);
          case ShutDown => ShutDownKeepsInvariant(before.value);
          case _ => OtherStepKeepsInvariant(before.value, step);
        }
      }
    }
  }

  /** No lost wakeup: in every run, while an item is pending some worker is on its way to it or busy. */
  lemma NoLostWakeup<T>(ids: set<nat>, steps: seq<Step<T>>)
    requires ids != {} && DrainsSafely(ids, steps) && Run(ids, steps).Some?
    ensures var s := Run(ids, steps).value;
      && (s.pending != [] ==> exists w :: Awake(s, w))
      && (forall w :: w in s.workers && s.workers[w].Exited? ==> s.shutdown && s.pending == [])
      && (s.shutdown ==> forall w :: !Sleeps(s, w))
      && s.inflight == |BusyWorkers(s)|
      && (forall d :: WaiterSleeps(s, d) ==> 0 < s.inflight || (s.waiters[d].kind == ForDrain && s.pending != []))
  {
    RunKeepsInvariant(ids, steps);
  }

  // ----- what the workers get -----

  /** A worker that finds work takes the foremost item and leaves the rest in place. */
  lemma CheckTakesForemost<T>(s: State<T>, w: nat) returns (p: nat)
    requires Enabled(s, Check(w)) && s.pending != []
    ensures Foremost(s.pending, p) && Next(s, Check(w)).workers[w] == Busy(s.pending[p])
    ensures Next(s, Check(w)).pending == s.pending[..p] + s.pending[p + 1..]
  {
    NextIsForemost(s.pending);
    p := NextIndex(s.pending);
  }

  /** Some step of the run shuts the queue down. */
  ghost predicate ShutDownIn<T>(steps: seq<Step<T>>) {
    steps != [] && (steps[|steps| - 1].ShutDown? || ShutDownIn(steps[..|steps| - 1]))
  }

  lemma {:induction false} ShutDownIff<T>(ids: set<nat>, steps: seq<Step<T>>)
    requires Run(ids, steps).Some?
    ensures Run(ids, steps).value.shutdown <==> ShutDownIn(steps)
  {
    if steps != [] {
      ShutDownIff(ids, steps[..|steps| - 1]);
    }
  }

  /** The items added before shutdown, in that order. */
  ghost function Added<T>(steps: seq<Step<T>>): seq<AnalysisItem<T>> {
    if steps == [] then []
    else
      var init, step := steps[..|steps| - 1], steps[|steps| - 1];
      if step.Add? && !ShutDownIn(init) then Added(init) + [step.item] else Added(init)
  }

  /** The items that left the queue, in that order: to a worker, or through `Drain`. */
  ghost function Taken<T>(ids: set<nat>, steps: seq<Step<T>>): seq<AnalysisItem<T>> {
    if steps == [] then []
    else
      var init, step := steps[..|steps| - 1], steps[|steps| - 1];
      if Run(ids, steps).None? then Taken(ids, init)
      else Taken(ids, init) + TakenBy(Run(ids, init).value, step, Run(ids, steps).value)
  }

  function TakenBy<T>(s: State<T>, step: Step<T>, t: State<T>): seq<AnalysisItem<T>> {
    if step.DrainAll? then s.pending
    else if step.Check? && step.worker in t.workers && t.workers[step.worker].Busy? then [t.workers[step.worker].item]
    else []
  }

  lemma CheckTakesHead<T>(s: State<T>, w: nat, i: nat)
    requires Enabled(s, Check(w)) && i < 3
    ensures var t := Next(s, Check(w));
      Class(i, s.pending) == Class(i, TakenBy(s, Check(w), t)) + Class(i, t.pending)
  {
    if s.pending != [] {
      GetTakesHead(s.pending, i);
      FilterSnoc(InClass<T>(i), [], s.pending[NextIndex(s.pending)]);
    }
  }

  /** A step moves the items of a class from the queue to the taken ones, first come first served. */
  lemma StepTakesInOrder<T>(s: State<T>, step: Step<T>, i: nat)
    requires Enabled(s, step) && i < 3
    ensures var t := Next(s, step);
      Class(i, s.pending) + (if step.Add? && !s.shutdown then Class(i, [step.item]) else [])
        == Class(i, TakenBy(s, step, t)) + Class(i, t.pending)
  {
    match step {
      case Check(w) => CheckTakesHead(s, w, i);
      case Add(item, _) => FilterConcat(InClass<T>(i), s.pending, [item]);
      case _ =>
    }
  }

  lemma Rearranged<T>(a: seq<T>, p: seq<T>, x: seq<T>, y: seq<T>, q: seq<T>)
    requires p + x == y + q
    ensures (a + p) + x == (a + y) + q
  {
    assert (a + p) + x == a + (p + x);
    assert (a + y) + q == a + (y + q);
  }

  lemma {:induction false} ClassInOrder<T>(ids: set<nat>, steps: seq<Step<T>>, i: nat)
    requires Run(ids, steps).Some? && i < 3
    ensures Class(i, Added(steps)) == Class(i, Taken(ids, steps)) + Class(i, Run(ids, steps).value.pending)
  {
    if steps != [] {
      var init, step := steps[..|steps| - 1], steps[|steps| - 1];
      var s, t := Run(ids, init).value, Run(ids, steps).value;
      ClassInOrder(ids, init, i);
      ShutDownIff(ids, init);
      StepTakesInOrder(s, step, i);
      FilterConcat(InClass<T>(i), Taken(ids, init), TakenBy(s, step, t));
      var more := if step.Add? && !s.shutdown then [step.item] else [];
      FilterConcat(InClass<T>(i), Added(init), more);
      assert Added(steps) == Added(init) + more;
      Rearranged(Class(i, Taken(ids, init)), Class(i, s.pending), Class(i, more), Class(i, TakenBy(s, step, t)), Class(i, t.pending));
    }
  }

  /**
   In every run, the items of each severity that were added before shutdown are those taken, in the order they were
   added, followed by those still pending.
   */
  lemma TakenInOrder<T>(ids: set<nat>, steps: seq<Step<T>>)
    requires Run(ids, steps).Some?
    ensures var pending := Run(ids, steps).value.pending;
      && Filter(IsCritical(), Added(steps)) == Filter(IsCritical(), Taken(ids, steps)) + Filter(IsCritical(), pending)
      && Filter(IsWarning(), Added(steps)) == Filter(IsWarning(), Taken(ids, steps)) + Filter(IsWarning(), pending)
      && Filter(IsPlain(), Added(steps)) == Filter(IsPlain(), Taken(ids, steps)) + Filter(IsPlain(), pending)
  {
    ClassInOrder(ids, steps, 0);
    ClassInOrder(ids, steps, 1);
    ClassInOrder(ids, steps, 2);
    ClassesBySeverity(Added(steps));
    ClassesBySeverity(Taken(ids, steps));
    ClassesBySeverity(Run(ids, steps).value.pending);
  }

  /** Work left, in the number of worker steps it still takes. */
  function Work<T>(s: State<T>): nat {
    2 * |s.pending| + s.inflight
  }

  /** While there is work, some worker can take a step that reduces it. */
  lemma WorkersProgress<T>(s: State<T>) returns (step: Step<T>)
    requires Invariant(s) && s.workers != map[] && Work(s) > 0
    ensures (step.Check? || step.Done?) && Enabled(s, step) && Work(Next(s, step)) == Work(s) - 1
  {
    if s.pending != [] {
      var w :| Awake(s, w);
      if s.workers[w].Checking? {
        step := Check(w);
      } else {
        assert w in BusyWorkers(s);
        step := Done(w);
      }
    } else {
      SomeBusy(s);
      var w :| w in s.workers && s.workers[w].Busy?;
      step := Done(w);
    }
  }

  /** From `s`, these steps lead to `t`. */
  ghost predicate Leads<T>(s: State<T>, steps: seq<Step<T>>, t: State<T>)
    decreases |steps|
  {
    if steps == [] then s == t
    else Enabled(s, steps[0]) && Leads(Next(s, steps[0]), steps[1..], t)
  }

  /** The workers alone can always finish: nothing pending, nothing in flight, no waiter asleep. */
  lemma {:induction false} WorkersCanFinish<T>(s: State<T>) returns (steps: seq<Step<T>>, t: State<T>)
    requires Invariant(s) && s.workers != map[]
    ensures Leads(s, steps, t) && |steps| == Work(s)
    ensures forall i :: 0 <= i < |steps| ==> steps[i].Check? || steps[i].Done?
    ensures t.pending == [] && t.inflight == 0 && forall d :: !WaiterSleeps(t, d)
    decreases Work(s)
  {
    if Work(s) == 0 {
      steps, t := [], s;
    } else {
      var step := WorkersProgress(s);
      var s' := Next(s, step);
      if step.Check? {
        CheckKeepsInvariant(s, step.worker);
      } else {
        DoneKeepsInvariant(s, step.worker);
      }
      var rest: seq<Step<T>>;
      assert step.worker in s'.workers;
      rest, t := WorkersCanFinish(s');
      steps := [step] + rest;
      assert steps[1..] == rest;
    }
  }

  ghost predicate WorkerStep<T>(step: Step<T>) {
    step.Check? || step.Done?
  }

  /** How long the workers can go on by themselves. */
  ghost function Potential<T>(s: State<T>): nat {
    Work(s) * (|s.workers| + 1) + |CheckingWorkers(s)|
  }

  lemma LessWork(a: nat, b: nat, n: nat)
    requires a < b
    ensures a * n + n <= b * n
  {
    assert (b - 1) * n + n == b * n;
    assert a * n <= (b - 1) * n;
  }

  lemma CheckingBounded<T>(s: State<T>)
    ensures |CheckingWorkers(s)| <= |s.workers|
  {
    var rest := s.workers.Keys - CheckingWorkers(s);
    assert s.workers.Keys == CheckingWorkers(s) + rest;
  }

  /** A worker step does some of the work, or sends a worker to sleep or home. */
  lemma WorkerStepWorks<T>(s: State<T>, step: Step<T>)
    requires Invariant(s) && Enabled(s, step) && WorkerStep(step)
    ensures Invariant(Next(s, step)) && Next(s, step).workers.Keys == s.workers.Keys
    ensures || Work(Next(s, step)) < Work(s)
            || (Work(Next(s, step)) == Work(s) && |CheckingWorkers(Next(s, step))| < |CheckingWorkers(s)|)
  {
    var s' := Next(s, step);
    if step.Check? {
      CheckKeepsInvariant(s, step.worker);
      assert CheckingWorkers(s') == CheckingWorkers(s) - {step.worker};
    } else {
      DoneKeepsInvariant(s, step.worker);
      assert step.worker in BusyWorkers(s);
    }
  }

  lemma PotentialFalls<T>(s: State<T>, s': State<T>)
    requires s'.workers.Keys == s.workers.Keys
    requires Work(s') < Work(s) || (Work(s') == Work(s) && |CheckingWorkers(s')| < |CheckingWorkers(s)|)
    ensures Potential(s') < Potential(s)
  {
    assert |s'.workers| == |s'.workers.Keys| && |s.workers| == |s.workers.Keys|;
    CheckingBounded(s');
    if Work(s') < Work(s) {
      LessWork(Work(s'), Work(s), |s.workers| + 1);
    }
  }

  /** However they are scheduled, the workers alone take a bounded number of steps. */
  lemma {:induction false} WorkerRunsAreBounded<T>(s: State<T>, steps: seq<Step<T>>, t: State<T>)
    requires Invariant(s) && Leads(s, steps, t) && forall i :: 0 <= i < |steps| ==> WorkerStep(steps[i])
    ensures Invariant(t) && t.workers.Keys == s.workers.Keys && |steps| + Potential(t) <= Potential(s)
    decreases |steps|
  {
    if steps != [] {
      var s' := Next(s, steps[0]);
      WorkerStepWorks(s, steps[0]);
      PotentialFalls(s, s');
      WorkerRunsAreBounded(s', steps[1..], t);
    }
  }

  /** And when none of them can take another step, all work is done and no waiter sleeps. */
  lemma StuckWorkersAreDone<T>(s: State<T>, steps: seq<Step<T>>, t: State<T>)
    requires Invariant(s) && s.workers != map[] && Leads(s, steps, t)
    requires forall i :: 0 <= i < |steps| ==> WorkerStep(steps[i])
    requires forall step :: WorkerStep(step) ==> !Enabled(t, step)
    ensures Work(t) == 0 && forall d :: !WaiterSleeps(t, d)
  {
    WorkerRunsAreBounded(s, steps, t);
    var w :| w in s.workers;
    assert w in t.workers;
    if Work(t) > 0 {
      var step := WorkersProgress(t);
      assert WorkerStep(step);
    }
  }

  /** A waiter waits for what it was called for. */
  lemma {:induction false} WaiterKind<T>(ids: set<nat>, steps: seq<Step<T>>, d: nat, kind: WaitKind)
    requires Run(ids, steps).Some? && StartWait(d, kind) in steps
    ensures d in Run(ids, steps).value.waiters && Run(ids, steps).value.waiters[d].kind == kind
  {
    var init, step := steps[..|steps| - 1], steps[|steps| - 1];
    assert steps == init + [step];
    if StartWait(d, kind) in init {
      WaiterKind(ids, init, d, kind);
    }
  }

  /** `WaitForDrain` and `WaitForInflight` return only after a state that satisfied them, since they were called. */
  lemma WaitReturnsAfterQuiet<T>(ids: set<nat>, steps: seq<Step<T>>, d: nat, kind: WaitKind) returns (k: nat)
    requires Run(ids, steps).Some? && StartWait(d, kind) in steps
    requires d in Run(ids, steps).value.waiters ==> Run(ids, steps).value.waiters[d].phase == Returned
    ensures k <= |steps| && Run(ids, steps[..k]).Some?
    ensures d in Run(ids, steps[..k]).value.waiters && Run(ids, steps[..k]).value.waiters[d].phase == Looking
    ensures Run(ids, steps[..k]).value.inflight == 0
    ensures kind == ForDrain ==> Run(ids, steps[..k]).value.pending == []
  {
    WaiterKind(ids, steps, d, kind);
    k := ReturnsAfterQuiet(ids, steps, d);
  }

  lemma {:induction false} ReturnsAfterQuiet<T>(ids: set<nat>, steps: seq<Step<T>>, d: nat) returns (k: nat)
    requires Run(ids, steps).Some?
    requires d in Run(ids, steps).value.waiters && Run(ids, steps).value.waiters[d].phase == Returned
    ensures k <= |steps| && Run(ids, steps[..k]).Some?
    ensures d in Run(ids, steps[..k]).value.waiters && Run(ids, steps[..k]).value.waiters[d].phase == Looking
    ensures Run(ids, steps[..k]).value.inflight == 0
    ensures Run(ids, steps).value.waiters[d].kind == ForDrain ==> Run(ids, steps[..k]).value.pending == []
  {
    var n := |steps| - 1;
    var before, step := Run(ids, steps[..n]).value, steps[n];
    if step.CheckWait? && step.waiter == d {
      k := n;
    } else {
      assert d in before.waiters && before.waiters[d] == Run(ids, steps).value.waiters[d];
      k := ReturnsAfterQuiet(ids, steps[..n], d);
      assert steps[..n][..k] == steps[..k];
    }
  }

  /** `Drain` keeps the guarantees exactly when it is safe. */
  lemma DrainKeepsInvariantIff<T>(s: State<T>)
    requires Invariant(s)
    ensures Invariant(Next(s, DrainAll)) <==> DrainIsSafe(s)
  {
    var s' := Next(s, DrainAll);
    if DrainIsSafe(s) {
      OtherStepKeepsInvariant(s, DrainAll);
    } else {
      var d :| WaiterSleeps(s, d) && s.waiters[d].kind == ForDrain;
      assert WaiterSleeps(s', d);
    }
  }

  /** The guarantees hold after every prefix of the run. */
  ghost predicate GuaranteedThroughout<T>(ids: set<nat>, steps: seq<Step<T>>) {
    && (Run(ids, steps).Some? ==> Invariant(Run(ids, steps).value))
    && (steps != [] ==> GuaranteedThroughout(ids, steps[..|steps| - 1]))
  }

  /** In one run the guarantees hold all along if and only if every `Drain` is safe where it happens. */
  lemma {:induction false} GuaranteedThroughoutIff<T>(ids: set<nat>, steps: seq<Step<T>>)
    requires Run(ids, steps).Some?
    ensures GuaranteedThroughout(ids, steps) <==> DrainsSafely(ids, steps)
  {
    if DrainsSafely(ids, steps) {
      RunKeepsInvariant(ids, steps);
    }
    if steps != [] {
      var init := steps[..|steps| - 1];
      GuaranteedThroughoutIff(ids, init);
      if GuaranteedThroughout(ids, init) && steps[|steps| - 1].DrainAll? {
        DrainKeepsInvariantIff(Run(ids, init).value);
      }
    }
  }

  /** A drain-waiter went to sleep over one item, and `Drain` then took the item. */
  lemma WaiterStranded<T>(a: AnalysisItem<T>) returns (steps: seq<Step<T>>)
    ensures Run({0}, steps) == Some(State([], 0, false, map[0 := Checking], map[0 := Waiter(ForDrain, Asleep)]))
  {
    var up: map<nat, Worker<T>> := map[0 := Checking];
    var looking, asleep := map[0 := Waiter(ForDrain, Looking)], map[0 := Waiter(ForDrain, Asleep)];
    assert Initial({0}) == State([], 0, false, up, map[]);
    Extend({0}, [], Add(a, Nobody), Initial({0}), State([a], 0, false, up, map[]));
    steps := [Add(a, Nobody)];
    Extend({0}, steps, StartWait(0, ForDrain), State([a], 0, false, up, map[]), State([a], 0, false, up, looking));
    steps := steps + [StartWait(0, ForDrain)];
    Extend({0}, steps, CheckWait(0), State([a], 0, false, up, looking), State([a], 0, false, up, asleep));
    steps := steps + [CheckWait(0)];
    Extend({0}, steps, DrainAll, State([a], 0, false, up, asleep), State([], 0, false, up, asleep));
    steps := steps + [DrainAll];
  }

  /** After an unsafe `Drain`, a wakeup can be lost for good: an item is pending and everybody sleeps. */
  lemma UnsafeDrainLosesWakeup<T>(a: AnalysisItem<T>, b: AnalysisItem<T>) returns (steps: seq<Step<T>>)
    ensures Run({0}, steps) == Some(State([b], 0, false, map[0 := Sleeping], map[0 := Waiter(ForDrain, Asleep)]))
  {
    steps := WaiterStranded(a);
    var up: map<nat, Worker<T>>, down: map<nat, Worker<T>> := map[0 := Checking], map[0 := Sleeping];
    var looking, asleep := map[0 := Waiter(ForDrain, Looking)], map[0 := Waiter(ForDrain, Asleep)];
    Extend({0}, steps, Check(0), State([], 0, false, up, asleep), State([], 0, false, down, asleep));
    steps := steps + [Check(0)];
    assert WaiterSleeps(State([], 0, false, down, asleep), 0);
    Extend({0}, steps, Add(b, WakeWaiter(0)), State([], 0, false, down, asleep), State([b], 0, false, down, looking));
    steps := steps + [Add(b, WakeWaiter(0))];
    Extend({0}, steps, CheckWait(0), State([b], 0, false, down, looking), State([b], 0, false, down, asleep));
    steps := steps + [CheckWait(0)];
  }

  /** A run grows by one enabled step. */
  lemma Extend<T>(ids: set<nat>, steps: seq<Step<T>>, step: Step<T>, s: State<T>, t: State<T>)
    requires Run(ids, steps) == Some(s) && Enabled(s, step) && Next(s, step) == t
    ensures Run(ids, steps + [step]) == Some(t)
  {
    assert (steps + [step])[..|steps|] == steps;
  }

  ghost function CheckingWorkers<T>(s: State<T>): set<nat> {
    set w | w in s.workers && s.workers[w].Checking?
  }

  /** Every pending item already has its own worker awake for it, or no worker sleeps. */
  ghost predicate FullyServed<T>(s: State<T>) {
    (exists w :: Sleeps(s, w)) ==> |s.pending| <= |CheckingWorkers(s)|
  }

  /** The signal goes to a waiter although a worker sleeps and the awake ones have enough to do. */
  ghost predicate SignalWasted<T>(s: State<T>, step: Step<T>) {
    && step.Add? && !s.shutdown && step.signal.WakeWaiter?
    && (exists w :: Sleeps(s, w))
    && |CheckingWorkers(s)| <= |s.pending|
  }

  /** `Add` keeps every pending item served exactly when its signal is not wasted. */
  lemma AddKeepsFullyServedIff<T>(s: State<T>, item: AnalysisItem<T>, signal: Signal)
    requires FullyServed(s) && Enabled(s, Add(item, signal))
    ensures FullyServed(Next(s, Add(item, signal))) <==> !SignalWasted(s, Add(item, signal))
  {
    var s' := Next(s, Add(item, signal));
    if !s.shutdown {
      if signal.WakeWorker? {
        assert CheckingWorkers(s') == CheckingWorkers(s) + {signal.worker};
        assert forall v :: Sleeps(s', v) ==> Sleeps(s, v);
      } else {
        assert CheckingWorkers(s') == CheckingWorkers(s);
        assert forall v :: Sleeps(s', v) <==> Sleeps(s, v);
      }
    }
  }

  lemma CheckKeepsFullyServed<T>(s: State<T>, w: nat)
    requires FullyServed(s) && Enabled(s, Check(w))
    ensures FullyServed(Next(s, Check(w)))
  {
    var s' := Next(s, Check(w));
    assert CheckingWorkers(s') == CheckingWorkers(s) - {w};
    if s.pending != [] {
      assert forall v :: Sleeps(s', v) ==> Sleeps(s, v);
    }
  }

  lemma WaitKeepsFullyServed<T>(s: State<T>, step: Step<T>)
    requires FullyServed(s) && Enabled(s, step) && (step.StartWait? || step.CheckWait?)
    ensures FullyServed(Next(s, step))
  {
    assert CheckingWorkers(Next(s, step)) == CheckingWorkers(s);
    assert forall v :: Sleeps(Next(s, step), v) <==> Sleeps(s, v);
  }

  /** No other step can leave an item unserved, with or without waiters. */
  lemma StepKeepsFullyServedIff<T>(s: State<T>, step: Step<T>)
    requires FullyServed(s) && Enabled(s, step)
    ensures FullyServed(Next(s, step)) <==> !SignalWasted(s, step)
  {
    match step {
      case Add(item, signal) => AddKeepsFullyServedIff(s, item, signal);
      case Check(w) => CheckKeepsFullyServed(s, w);
      case Done(w) => assert forall v :: !Sleeps(Next(s, step), v);
      case ShutDown => assert forall v :: !Sleeps(Next(s, step), v);
      case StartWait(_, _) => WaitKeepsFullyServed(s, step);
      case CheckWait(_) => WaitKeepsFullyServed(s, step);
      case DrainAll =>
    }
  }

  /** After every prefix of the run, every pending item is served. */
  ghost predicate ServedThroughout<T>(ids: set<nat>, steps: seq<Step<T>>) {
    && (Run(ids, steps).Some? ==> FullyServed(Run(ids, steps).value))
    && (steps != [] ==> ServedThroughout(ids, steps[..|steps| - 1]))
  }

  /** No `Add` of the run wastes its signal. */
  ghost predicate NoSignalWasted<T>(ids: set<nat>, steps: seq<Step<T>>) {
    steps != [] ==>
      var init := steps[..|steps| - 1];
      && NoSignalWasted(ids, init)
      && (Run(ids, init).Some? ==> !SignalWasted(Run(ids, init).value, steps[|steps| - 1]))
  }

  /** In one run every pending item is served all along if and only if no `Add` wastes its signal. */
  lemma {:induction false} ServedThroughoutIff<T>(ids: set<nat>, steps: seq<Step<T>>)
    requires Run(ids, steps).Some?
    ensures ServedThroughout(ids, steps) <==> NoSignalWasted(ids, steps)
  {
    if steps != [] {
      var init := steps[..|steps| - 1];
      ServedThroughoutIff(ids, init);
      if ServedThroughout(ids, init) {
        StepKeepsFullyServedIff(Run(ids, init).value, steps[|steps| - 1]);
      }
    }
  }

  lemma {:induction false} WithoutWaitersNoneWasted<T>(ids: set<nat>, steps: seq<Step<T>>)
    requires forall i :: 0 <= i < |steps| ==> !steps[i].StartWait?
    requires Run(ids, steps).Some?
    ensures Run(ids, steps).value.waiters == map[] && NoSignalWasted(ids, steps)
  {
    if steps != [] {
      WithoutWaitersNoneWasted(ids, steps[..|steps| - 1]);
    }
  }

  /** In particular, without waiters a worker sleeps only if the awake ones can take everything pending. */
  lemma WithoutWaitersFullyServed<T>(ids: set<nat>, steps: seq<Step<T>>)
    requires forall i :: 0 <= i < |steps| ==> !steps[i].StartWait?
    requires Run(ids, steps).Some?
    ensures FullyServed(Run(ids, steps).value)
  {
    WithoutWaitersNoneWasted(ids, steps);
    ServedThroughoutIff(ids, steps);
  }

  lemma OneBusyOneAsleep<T>(a: AnalysisItem<T>) returns (steps: seq<Step<T>>)
    ensures Run({0, 1}, steps) == Some(State([], 1, false, map[0 := Busy(a), 1 := Sleeping], map[]))
    ensures forall i :: 0 <= i < |steps| ==> !steps[i].DrainAll?
  {
    var up: map<nat, Worker<T>>, half: map<nat, Worker<T>> := map[0 := Checking, 1 := Checking], map[0 := Busy(a), 1 := Checking];
    var down: map<nat, Worker<T>> := map[0 := Busy(a), 1 := Sleeping];
    assert Initial({0, 1}) == State([], 0, false, up, map[]);
    Extend({0, 1}, [], Add(a, Nobody), Initial({0, 1}), State([a], 0, false, up, map[]));
    steps := [Add(a, Nobody)];
    assert AfterGet([a]) == [];
    Extend({0, 1}, steps, Check(0), State([a], 0, false, up, map[]), State([], 1, false, half, map[]));
    steps := steps + [Check(0)];
    Extend({0, 1}, steps, Check(1), State([], 1, false, half, map[]), State([], 1, false, down, map[]));
    steps := steps + [Check(1)];
  }

  lemma WaiterJoins<T>(a: AnalysisItem<T>) returns (steps: seq<Step<T>>)
    ensures Run({0, 1}, steps) ==
            Some(State([], 1, false, map[0 := Busy(a), 1 := Sleeping], map[0 := Waiter(ForDrain, Asleep)]))
    ensures forall i :: 0 <= i < |steps| ==> !steps[i].DrainAll?
  {
    steps := OneBusyOneAsleep(a);
    var down: map<nat, Worker<T>> := map[0 := Busy(a), 1 := Sleeping];
    var looking, asleep := map[0 := Waiter(ForDrain, Looking)], map[0 := Waiter(ForDrain, Asleep)];
    Extend({0, 1}, steps, StartWait(0, ForDrain), State([], 1, false, down, map[]), State([], 1, false, down, looking));
    steps := steps + [StartWait(0, ForDrain)];
    Extend({0, 1}, steps, CheckWait(0), State([], 1, false, down, looking), State([], 1, false, down, asleep));
    steps := steps + [CheckWait(0)];
  }

  /** With a waiter a signal can be: one worker is busy, one sleeps, and an item stays pending meanwhile. */
  lemma WaiterTakesSignal<T>(a: AnalysisItem<T>, b: AnalysisItem<T>) returns (steps: seq<Step<T>>)
    ensures Run({0, 1}, steps) ==
            Some(State([b], 1, false, map[0 := Busy(a), 1 := Sleeping], map[0 := Waiter(ForDrain, Asleep)]))
    ensures forall i :: 0 <= i < |steps| ==> !steps[i].DrainAll?
  {
    steps := WaiterJoins(a);
    var down: map<nat, Worker<T>> := map[0 := Busy(a), 1 := Sleeping];
    var looking, asleep := map[0 := Waiter(ForDrain, Looking)], map[0 := Waiter(ForDrain, Asleep)];
    assert WaiterSleeps(State([], 1, false, down, asleep), 0);
    Extend({0, 1}, steps, Add(b, WakeWaiter(0)), State([], 1, false, down, asleep), State([b], 1, false, down, looking));
    steps := steps + [Add(b, WakeWaiter(0))];
    Extend({0, 1}, steps, CheckWait(0), State([b], 1, false, down, looking), State([b], 1, false, down, asleep));
    steps := steps + [CheckWait(0)];
  }
}
