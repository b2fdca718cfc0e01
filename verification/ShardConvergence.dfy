/**
 What the steps of one operation have to do with each other, and when the replicas end up
 with the newest map: a sync applies what the store held when it read, a reconcile writes and
 applies what it computed, and a write replaces exactly what it read.
 */
module ShardConvergence {
  import opened Prelude
  import opened Hasher
  import opened ShardManager
  import opened ShardProtocol

  /** `st` are the states that the steps pass through from the start. */
  ghost predicate Behaves(h: Hashing, st: seq<State>, steps: seq<Step>) {
    && |st| == |steps| + 1 && st[0] == INIT
    && forall k :: 0 <= k < |steps| ==> StepsTo(h, st, steps, k)
  }

  ghost predicate StepsTo(h: Hashing, st: seq<State>, steps: seq<Step>, k: nat) {
    && |st| == |steps| + 1 && k < |steps|
    && Enabled(st[k], steps[k]) && st[k + 1] == Next(h, st[k], steps[k])
  }

  /** Every run passes through such states. */
  lemma {:induction false} RunBehaves(h: Hashing, steps: seq<Step>) returns (st: seq<State>)
    requires Run(h, steps).Some?
    ensures Behaves(h, st, steps) && st[|steps|] == Run(h, steps).value
  {
    if steps == [] {
      st := [INIT];
    } else {
      var n := |steps| - 1;
      var init := RunBehaves(h, steps[..n]);
      st := init + [Run(h, steps).value];
      forall k | 0 <= k < |steps| ensures StepsTo(h, st, steps, k) {
        if k < n {
          assert StepsTo(h, init, steps[..n], k);
        }
      }
    }
  }

  /** And such states make a run. */
  lemma {:induction false} BehavesRuns(h: Hashing, st: seq<State>, steps: seq<Step>, k: nat)
    requires Behaves(h, st, steps) && k <= |steps|
    ensures Run(h, steps[..k]) == Some(st[k])
  {
    if k > 0 {
      BehavesRuns(h, st, steps, k - 1);
      assert StepsTo(h, st, steps, k - 1);
      assert steps[..k][..k - 1] == steps[..k - 1];
    }
  }

  lemma {:induction false} InvariantAt(h: Hashing, st: seq<State>, steps: seq<Step>, k: nat)
    requires Behaves(h, st, steps) && k <= |steps|
    ensures Invariant(h, st[k])
  {
    if k > 0 {
      InvariantAt(h, st, steps, k - 1);
      assert StepsTo(h, st, steps, k - 1);
      StepKeepsInvariant(h, st[k - 1], steps[k - 1]);
    }
  }

  lemma StepAt(h: Hashing, st: seq<State>, steps: seq<Step>, k: nat)
    requires Behaves(h, st, steps) && k < |steps|
    ensures Enabled(st[k], steps[k]) && st[k + 1] == Next(h, st[k], steps[k])
    ensures Invariant(h, st[k])
  {
    assert StepsTo(h, st, steps, k);
    InvariantAt(h, st, steps, k);
  }

  // ----- one operation -----

  /** The step begins a new operation under `id`. */
  predicate Starts(step: Step, id: nat) {
    (step.Compute? && step.id == id) || (step.Fetch? && step.id == id)
  }

  ghost predicate NoStart(steps: seq<Step>, id: nat, from: nat, to: nat)
    requires to <= |steps|
  {
    forall k :: from <= k < to ==> !Starts(steps[k], id)
  }

  /** How an operation can look later on. */
  ghost predicate Descends(h: Hashing, before: Operation, after: Operation) {
    match before
    case Computed(r, inputs) => DescendsFrom(h, r, inputs, after)
    case Observed(r, inputs, _) => DescendsFrom(h, r, inputs, after)
    case _ => after == before
  }

  ghost predicate DescendsFrom(h: Hashing, replica: string, inputs: SoundInputs, after: Operation) {
    && after.replica == replica && !after.Fetched?
    && (after.Committed? ==> after.content == ShardMapFor(h, inputs))
    && (after.Computed? || after.Observed? ==> after.inputs == inputs)
  }

  lemma StepDescends(h: Hashing, s: State, step: Step, id: nat)
    requires Enabled(s, step) && !Starts(step, id) && id in Next(h, s, step).operations
    ensures id in s.operations && Descends(h, s.operations[id], Next(h, s, step).operations[id])
  {
  }

  lemma DescendsOn(h: Hashing, a: Operation, b: Operation, c: Operation)
    requires Descends(h, a, b) && Descends(h, b, c)
    ensures Descends(h, a, c)
  {
  }

  lemma OneStepDescends(h: Hashing, st: seq<State>, steps: seq<Step>, id: nat, k: nat)
    requires Behaves(h, st, steps) && k < |steps| && !Starts(steps[k], id) && id in st[k + 1].operations
    ensures id in st[k].operations && Descends(h, st[k].operations[id], st[k + 1].operations[id])
  {
    StepAt(h, st, steps, k);
    StepDescends(h, st[k], steps[k], id);
  }

  /** An operation keeps its replica and inputs, and what it committed or fetched, until its number is used again. */
  lemma {:induction false} RunDescends(h: Hashing, st: seq<State>, steps: seq<Step>, id: nat, from: nat, to: nat)
    requires Behaves(h, st, steps) && from <= to <= |steps| && NoStart(steps, id, from, to) && id in st[to].operations
    ensures id in st[from].operations
    ensures Descends(h, st[from].operations[id], st[to].operations[id])
  {
    if from < to {
      OneStepDescends(h, st, steps, id, to - 1);
      RunDescends(h, st, steps, id, from, to - 1);
      DescendsOn(h, st[from].operations[id], st[to - 1].operations[id], st[to].operations[id]);
    }
  }

  ghost predicate Holds(s: State, replica: string, content: ShardMap) {
    replica in s.replicas && s.replicas[replica] == Replica(Entry(content, replica), Some(content))
  }

  /** The map written last, whether or not the ConfigMap still exists. */
  ghost function Newest(s: State): ShardMap
    requires s.history != []
  {
    s.history[|s.history| - 1].content
  }

  lemma FetchReads(h: Hashing, s: State, id: nat, r: string)
    requires Invariant(h, s) && Enabled(s, Fetch(id, r))
    ensures s.history != [] && Next(h, s, Fetch(id, r)).operations[id] == Fetched(r, Newest(s))
  {
  }

  /** In every run, a sync applies the newest map at the time it read the store. */
  lemma SyncAppliesNewest(h: Hashing, st: seq<State>, steps: seq<Step>, id: nat, r: string, k: nat, j: nat)
    requires Behaves(h, st, steps) && k < j < |steps| && steps[k] == Fetch(id, r) && steps[j] == Apply(id)
    requires NoStart(steps, id, k + 1, j)
    ensures st[k].history != [] && Holds(st[j + 1], r, Newest(st[k]))
  {
    StepAt(h, st, steps, k);
    FetchReads(h, st[k], id, r);
    StepAt(h, st, steps, j);
    RunDescends(h, st, steps, id, k + 1, j);
  }

  /** In every run, a reconcile writes the map of the inputs it was computed from. */
  lemma ReconcileWritesItsMap(h: Hashing, st: seq<State>, steps: seq<Step>, id: nat, r: string, inputs: SoundInputs, k: nat, j: nat)
    requires Behaves(h, st, steps) && k < j < |steps| && steps[k] == Compute(id, r, inputs) && steps[j] == Commit(id)
    requires NoStart(steps, id, k + 1, j)
    ensures st[j + 1].history == st[j].history + [Written(ShardMapFor(h, inputs), inputs)]
    ensures id in st[j + 1].operations && st[j + 1].operations[id] == Committed(r, ShardMapFor(h, inputs))
  {
    StepAt(h, st, steps, k);
    StepAt(h, st, steps, j);
    RunDescends(h, st, steps, id, k + 1, j);
  }

  /** And applies that map to its own replica. */
  lemma ReconcileAppliesItsMap(h: Hashing, st: seq<State>, steps: seq<Step>, id: nat, r: string, inputs: SoundInputs, k: nat, j: nat)
    requires Behaves(h, st, steps) && k < j < |steps| && steps[k] == Compute(id, r, inputs) && steps[j] == Apply(id)
    requires NoStart(steps, id, k + 1, j)
    ensures Holds(st[j + 1], r, ShardMapFor(h, inputs))
  {
    StepAt(h, st, steps, k);
    StepAt(h, st, steps, j);
    RunDescends(h, st, steps, id, k + 1, j);
  }

  /** A crash takes the replica's operations with it: every operation in flight belongs to a live replica. */
  lemma {:induction false} OperationsBelongToTheLiving(h: Hashing, st: seq<State>, steps: seq<Step>, k: nat)
    requires Behaves(h, st, steps) && k <= |steps|
    ensures forall id :: id in st[k].operations ==> st[k].operations[id].replica in st[k].replicas
  {
    if k > 0 {
      OperationsBelongToTheLiving(h, st, steps, k - 1);
      StepAt(h, st, steps, k - 1);
    }
  }

  /** An aborted operation neither writes nor applies anything any more. */
  lemma AbortedIsOver(h: Hashing, st: seq<State>, steps: seq<Step>, id: nat, k: nat, j: nat)
    requires Behaves(h, st, steps) && k < j < |steps| && steps[k] == Abort(id) && NoStart(steps, id, k + 1, j)
    ensures steps[j] != Commit(id) && steps[j] != Apply(id)
    ensures st[k + 1].store == st[k].store && st[k + 1].history == st[k].history && st[k + 1].replicas == st[k].replicas
  {
    StepAt(h, st, steps, k);
    StepAt(h, st, steps, j);
    if id in st[j].operations {
      RunDescends(h, st, steps, id, k + 1, j);
    }
  }

  lemma {:induction false} StaysEmpty(h: Hashing, st: seq<State>, steps: seq<Step>, from: nat, to: nat)
    requires Behaves(h, st, steps) && from <= to <= |steps| && st[from].store == None
    requires forall k :: from <= k < to ==> !steps[k].Commit?
    ensures st[to].store == None
  {
    if from < to {
      StaysEmpty(h, st, steps, from, to - 1);
      StepAt(h, st, steps, to - 1);
    }
  }

  /** After the ConfigMap is deleted no sync succeeds before the next write, and replicas keep what they hold. */
  lemma NoSyncAfterDeletion(h: Hashing, st: seq<State>, steps: seq<Step>, k: nat, j: nat)
    requires Behaves(h, st, steps) && k < j < |steps| && steps[k].Vanish?
    requires forall l :: k < l < j ==> !steps[l].Commit?
    ensures !steps[j].Fetch? && st[k + 1].replicas == st[k].replicas
  {
    StepAt(h, st, steps, k);
    StaysEmpty(h, st, steps, k + 1, j);
    StepAt(h, st, steps, j);
  }

  // ----- what a write replaces -----

  ghost predicate NoCommit(steps: seq<Step>, from: nat, to: nat)
    requires to <= |steps|
  {
    forall k :: from <= k < to ==> !steps[k].Commit?
  }

  lemma {:induction false} HistoryFixed(h: Hashing, st: seq<State>, steps: seq<Step>, from: nat, to: nat)
    requires Behaves(h, st, steps) && from <= to <= |steps| && NoCommit(steps, from, to)
    ensures st[to].history == st[from].history
  {
    if from < to {
      HistoryFixed(h, st, steps, from, to - 1);
      StepAt(h, st, steps, to - 1);
    }
  }

  /** No observation of the operation in this part of the run. */
  ghost predicate NoObserve(steps: seq<Step>, id: nat, from: nat, to: nat)
    requires to <= |steps|
  {
    forall k :: from <= k < to ==> steps[k] != Observe(id)
  }

  lemma StepKeepsSeen(h: Hashing, s: State, step: Step, id: nat)
    requires Enabled(s, step) && !Starts(step, id) && step != Observe(id)
    requires id in Next(h, s, step).operations && Next(h, s, step).operations[id].Observed?
    ensures id in s.operations && s.operations[id] == Next(h, s, step).operations[id]
  {
  }

  lemma {:induction false} SeenKept(h: Hashing, st: seq<State>, steps: seq<Step>, id: nat, from: nat, to: nat)
    requires Behaves(h, st, steps) && from <= to <= |steps| && NoStart(steps, id, from, to) && NoObserve(steps, id, from, to)
    requires id in st[to].operations && st[to].operations[id].Observed?
    ensures id in st[from].operations && st[from].operations[id] == st[to].operations[id]
  {
    if from < to {
      StepAt(h, st, steps, to - 1);
      StepKeepsSeen(h, st[to - 1], steps[to - 1], id);
      SeenKept(h, st, steps, id, from, to - 1);
    }
  }

  lemma {:induction false} OverwrittenAt(h: Hashing, st: seq<State>, steps: seq<Step>, v: nat, from: nat, to: nat)
    requires Behaves(h, st, steps) && from <= to <= |steps| && Overwritten(st[from], v)
    ensures Overwritten(st[to], v)
  {
    if from < to {
      OverwrittenAt(h, st, steps, v, from, to - 1);
      StepAt(h, st, steps, to - 1);
      StepKeepsOverwritten(h, st[to - 1], steps[to - 1], v);
    }
  }

  lemma CommitOverwrites(h: Hashing, st: seq<State>, steps: seq<Step>, v: nat, k: nat, l: nat, j: nat)
    requires Behaves(h, st, steps) && k <= l < j <= |steps| && steps[l].Commit?
    requires VersionOf(st[k].store) == Some(v)
    ensures VersionOf(st[j].store) != Some(v)
  {
    StepAt(h, st, steps, l);
    BelowAt(h, st, steps, v, k, l);
    CommitMovesOn(h, st[l], steps[l], v);
    OverwrittenAt(h, st, steps, v, l + 1, j);
  }

  lemma CommitMovesOn(h: Hashing, s: State, step: Step, v: nat)
    requires Enabled(s, step) && step.Commit? && v < s.nextVersion
    ensures Overwritten(Next(h, s, step), v)
  {
  }

  lemma StoreIsNewest(h: Hashing, st: seq<State>, steps: seq<Step>, k: nat)
    requires Behaves(h, st, steps) && k < |steps| && st[k].store.Some?
    ensures st[k].history != [] && st[k].store.value.content == Newest(st[k])
  {
    StepAt(h, st, steps, k);
  }

  /**
   In every run, a write that found a ConfigMap replaces exactly the one it read: nobody wrote in between.
   */
  lemma WriteReplacesWhatItRead(h: Hashing, st: seq<State>, steps: seq<Step>, id: nat, k: nat, j: nat)
    requires Behaves(h, st, steps) && k < j < |steps| && steps[k] == Observe(id) && steps[j] == Commit(id)
    requires NoStart(steps, id, k + 1, j) && NoObserve(steps, id, k + 1, j)
    requires st[k].store.Some?
    ensures NoCommit(steps, k, j) && st[j].history == st[k].history
    ensures st[j].store == st[k].store
  {
    StepAt(h, st, steps, k);
    StepAt(h, st, steps, j);
    SeenKept(h, st, steps, id, k + 1, j);
    var v := st[k].store.value.version;
    forall l | k <= l < j ensures !steps[l].Commit? {
      if steps[l].Commit? {
        CommitOverwrites(h, st, steps, v, k, l, j);
      }
    }
    HistoryFixed(h, st, steps, k, j);
    StoreIsNewest(h, st, steps, k);
    StoreIsNewest(h, st, steps, j);
  }

  lemma {:induction false} VersionsBelowAt(h: Hashing, st: seq<State>, steps: seq<Step>, k: nat)
    requires Behaves(h, st, steps) && k <= |steps|
    ensures VersionsBelow(st[k])
  {
    if k > 0 {
      VersionsBelowAt(h, st, steps, k - 1);
      StepAt(h, st, steps, k - 1);
    }
  }

  /** Version numbers are never handed out twice. */
  lemma {:induction false} BelowAt(h: Hashing, st: seq<State>, steps: seq<Step>, v: nat, from: nat, to: nat)
    requires Behaves(h, st, steps) && from <= to <= |steps| && VersionOf(st[from].store) == Some(v)
    ensures v < st[to].nextVersion
  {
    if from < to {
      BelowAt(h, st, steps, v, from, to - 1);
      StepAt(h, st, steps, to - 1);
    } else {
        VersionsBelowAt(h, st, steps, from);
    }
  }

  // ----- convergence -----

  /** Step j applies, on replica r, the map committed at c or one fetched after it. */
  ghost predicate FreshApply(h: Hashing, st: seq<State>, steps: seq<Step>, c: nat, j: nat, r: string) {
    && c < j < |steps| && |st| == |steps| + 1 && steps[c].Commit? && steps[j].Apply?
    && steps[j].id in st[j].operations && st[j].operations[steps[j].id].replica == r
    && exists k: nat :: BeganAt(steps, c, k, j)
  }

  ghost predicate BeganAt(steps: seq<Step>, c: nat, k: nat, j: nat)
    requires c < j < |steps| && steps[c].Commit? && steps[j].Apply?
  {
    && c <= k < j && NoStart(steps, steps[j].id, k + 1, j)
    && if k == c then steps[c].id == steps[j].id else steps[k].Fetch? && steps[k].id == steps[j].id
  }

  lemma CommitIsNewest(h: Hashing, st: seq<State>, steps: seq<Step>, c: nat)
    requires Behaves(h, st, steps) && c < |steps| && steps[c].Commit?
    ensures st[c + 1].history != [] && steps[c].id in st[c + 1].operations
    ensures var op := st[c + 1].operations[steps[c].id];
      op.Committed? && op.content == Newest(st[c + 1])
  {
    StepAt(h, st, steps, c);
  }

  lemma FetchIsNewest(h: Hashing, st: seq<State>, steps: seq<Step>, k: nat)
    requires Behaves(h, st, steps) && k < |steps| && steps[k].Fetch?
    ensures st[k].history != [] && steps[k].id in st[k + 1].operations
    ensures st[k + 1].operations[steps[k].id] == Fetched(steps[k].replica, Newest(st[k]))
  {
    StepAt(h, st, steps, k);
    FetchReads(h, st[k], steps[k].id, steps[k].replica);
  }

  /** What the operation holds when it is applied. */
  lemma FreshContent(h: Hashing, st: seq<State>, steps: seq<Step>, c: nat, k: nat, j: nat)
    requires Behaves(h, st, steps) && c < j < |steps| && steps[c].Commit? && steps[j].Apply? && BeganAt(steps, c, k, j)
    requires NoCommit(steps, c + 1, |steps|) && steps[j].id in st[j].operations
    ensures st[c + 1].history != []
    ensures var op := st[j].operations[steps[j].id];
      (op.Committed? || op.Fetched?) && op.content == Newest(st[c + 1])
  {
    CommitIsNewest(h, st, steps, c);
    RunDescends(h, st, steps, steps[j].id, k + 1, j);
    if k != c {
      FetchIsNewest(h, st, steps, k);
      HistoryFixed(h, st, steps, c + 1, k);
    }
  }

  lemma ApplyHolds(h: Hashing, st: seq<State>, steps: seq<Step>, j: nat, content: ShardMap)
    requires Behaves(h, st, steps) && j < |steps| && steps[j].Apply? && steps[j].id in st[j].operations
    requires var op := st[j].operations[steps[j].id];
      (op.Committed? || op.Fetched?) && op.content == content
    ensures Holds(st[j + 1], st[j].operations[steps[j].id].replica, content)
  {
    StepAt(h, st, steps, j);
  }

  lemma FreshApplyHolds(h: Hashing, st: seq<State>, steps: seq<Step>, c: nat, j: nat, r: string)
    requires Behaves(h, st, steps) && FreshApply(h, st, steps, c, j, r) && NoCommit(steps, c + 1, |steps|)
    ensures st[|steps|].history != [] && Holds(st[j + 1], r, Newest(st[|steps|]))
  {
    var k: nat :| BeganAt(steps, c, k, j);
    FreshContent(h, st, steps, c, k, j);
    ApplyHolds(h, st, steps, j, Newest(st[c + 1]));
    HistoryFixed(h, st, steps, c + 1, |steps|);
  }

  /** The step leaves replica r as it is. */
  ghost predicate LeavesAlone(s: State, step: Step, r: string) {
    && step != Crash(r)
    && (step.Apply? ==> step.id in s.operations && s.operations[step.id].replica != r)
  }

  ghost predicate LeavesAloneAt(h: Hashing, st: seq<State>, steps: seq<Step>, r: string, l: nat) {
    l < |steps| && |st| == |steps| + 1 && LeavesAlone(st[l], steps[l], r)
  }

  ghost predicate LeftAlone(h: Hashing, st: seq<State>, steps: seq<Step>, r: string, from: nat) {
    forall l :: from <= l < |steps| ==> LeavesAloneAt(h, st, steps, r, l)
  }

  ghost predicate Has(s: State, r: string, value: Replica) {
    r in s.replicas && s.replicas[r] == value
  }

  lemma StepLeavesAlone(h: Hashing, s: State, step: Step, r: string, value: Replica)
    requires Enabled(s, step) && LeavesAlone(s, step, r) && Has(s, r, value)
    ensures Has(Next(h, s, step), r, value)
  {
  }

  lemma LeftAloneOnce(h: Hashing, st: seq<State>, steps: seq<Step>, r: string, value: Replica, k: nat)
    requires Behaves(h, st, steps) && k < |steps| && LeavesAloneAt(h, st, steps, r, k) && Has(st[k], r, value)
    ensures Has(st[k + 1], r, value)
  {
    StepAt(h, st, steps, k);
    StepLeavesAlone(h, st[k], steps[k], r, value);
  }

  lemma {:induction false} ReplicaKept(h: Hashing, st: seq<State>, steps: seq<Step>, r: string, value: Replica, from: nat, to: nat)
    requires Behaves(h, st, steps) && from <= to <= |steps| && LeftAlone(h, st, steps, r, from) && Has(st[from], r, value)
    ensures Has(st[to], r, value)
  {
    if from < to {
      ReplicaKept(h, st, steps, r, value, from, to - 1);
      assert LeavesAloneAt(h, st, steps, r, to - 1);
      LeftAloneOnce(h, st, steps, r, value, to - 1);
    }
  }

  /** The last thing that happened to the replica is a fresh apply. */
  ghost predicate EndsFresh(h: Hashing, st: seq<State>, steps: seq<Step>, c: nat, r: string) {
    exists j: nat :: FreshApply(h, st, steps, c, j, r) && LeftAlone(h, st, steps, r, j + 1)
  }

  /** After the last write, replicas that end on a fresh apply are settled on the newest map. */
  lemma FreshReplicasSettle(h: Hashing, st: seq<State>, steps: seq<Step>, c: nat)
    requires Behaves(h, st, steps) && c < |steps| && steps[c].Commit? && NoCommit(steps, c + 1, |steps|)
    requires st[|steps|].history != []
    requires forall r :: r in Newest(st[|steps|]).assignments ==> EndsFresh(h, st, steps, c, r)
    ensures Settled(st[|steps|], Newest(st[|steps|]))
  {
    var s := st[|steps|];
    forall r | r in Newest(s).assignments ensures r in s.replicas && s.replicas[r].current == Some(Newest(s)) {
      EndsFreshHolds(h, st, steps, c, r);
    }
  }

  lemma EndsFreshHolds(h: Hashing, st: seq<State>, steps: seq<Step>, c: nat, r: string)
    requires Behaves(h, st, steps) && NoCommit(steps, c + 1, |steps|) && c < |steps| && EndsFresh(h, st, steps, c, r)
    ensures st[|steps|].history != [] && Holds(st[|steps|], r, Newest(st[|steps|]))
  {
    var j: nat :| FreshApply(h, st, steps, c, j, r) && LeftAlone(h, st, steps, r, j + 1);
    FreshApplyHolds(h, st, steps, c, j, r);
    var content := Newest(st[|steps|]);
    ReplicaKept(h, st, steps, r, Replica(Entry(content, r), Some(content)), j + 1, |steps|);
  }

  /** So the wanted namespaces are all owned, with no assumption on what the replicas hold. */
  lemma FreshReplicasCover(h: Hashing, st: seq<State>, steps: seq<Step>, c: nat, n: int)
    requires Behaves(h, st, steps) && c < |steps| && steps[c].Commit? && NoCommit(steps, c + 1, |steps|)
    requires st[|steps|].history != []
    requires forall r :: r in Newest(st[|steps|]).assignments ==> EndsFresh(h, st, steps, c, r)
    requires var inputs := st[|steps|].history[|st[|steps|].history| - 1].inputs;
      inputs.seen == StableReads(n) && (n != 1 ==> inputs.peers != [])
    ensures var s := st[|steps|];
      OwnedBy(s, Newest(s)) == Wanted(s.history[|s.history| - 1].inputs)
  {
    FreshReplicasSettle(h, st, steps, c);
    BehavesRuns(h, st, steps, |steps|);
    assert steps[..|steps|] == steps;
    SettledCoverage(h, steps, |st[|steps|].history| - 1, n);
  }

  // ----- replicas that do one thing at a time -----

  /** A replica starts an operation only when it has none in flight. */
  ghost predicate OneAtATime(h: Hashing, st: seq<State>, steps: seq<Step>) {
    forall k :: 0 <= k < |steps| ==> StartsAloneAt(h, st, steps, k)
  }

  ghost predicate StartsAloneAt(h: Hashing, st: seq<State>, steps: seq<Step>, k: nat) {
    k < |steps| && |st| == |steps| + 1 && StartsAlone(st[k], steps[k])
  }

  ghost predicate StartsAlone(s: State, step: Step) {
    step.Compute? || step.Fetch? ==> forall id :: id in s.operations ==> s.operations[id].replica != step.replica
  }

  ghost predicate OneEach(s: State) {
    forall i, j :: i in s.operations && j in s.operations && s.operations[i].replica == s.operations[j].replica ==> i == j
  }

  lemma StepKeepsOneEach(h: Hashing, s: State, step: Step)
    requires Enabled(s, step) && OneEach(s) && StartsAlone(s, step)
    ensures OneEach(Next(h, s, step))
  {
  }

  lemma {:induction false} OneEachAt(h: Hashing, st: seq<State>, steps: seq<Step>, k: nat)
    requires Behaves(h, st, steps) && OneAtATime(h, st, steps) && k <= |steps|
    ensures OneEach(st[k])
  {
    if k > 0 {
      OneEachAt(h, st, steps, k - 1);
      StepAt(h, st, steps, k - 1);
      assert StartsAloneAt(h, st, steps, k - 1);
      StepKeepsOneEach(h, st[k - 1], steps[k - 1]);
    }
  }

  /** The replica holds the map, and nothing in flight can make it hold another. */
  ghost predicate FixedOn(s: State, r: string, content: ShardMap) {
    && Holds(s, r, content)
    && forall id :: id in s.operations && s.operations[id].replica == r && (s.operations[id].Committed? || s.operations[id].Fetched?)
                    ==> s.operations[id].content == content
  }

  ghost predicate FixedOnNewest(s: State, r: string, content: ShardMap) {
    s.history != [] && Newest(s) == content && FixedOn(s, r, content)
  }

  lemma StepKeepsFixed(h: Hashing, s: State, step: Step, r: string, content: ShardMap)
    requires Invariant(h, s) && Enabled(s, step) && FixedOnNewest(s, r, content)
    requires !step.Commit? && step != Crash(r)
    ensures FixedOnNewest(Next(h, s, step), r, content)
  {
    if step.Fetch? {
      FetchReads(h, s, step.id, step.replica);
    }
  }

  lemma {:induction false} StaysFixed(h: Hashing, st: seq<State>, steps: seq<Step>, r: string, content: ShardMap, from: nat, to: nat)
    requires Behaves(h, st, steps) && from <= to <= |steps| && NoCommit(steps, from, to)
    requires forall l :: from <= l < to ==> steps[l] != Crash(r)
    requires FixedOnNewest(st[from], r, content)
    ensures FixedOnNewest(st[to], r, content)
  {
    if from < to {
      StaysFixed(h, st, steps, r, content, from, to - 1);
      StepAt(h, st, steps, to - 1);
      StepKeepsFixed(h, st[to - 1], steps[to - 1], r, content);
    }
  }

  lemma ApplyFixes(h: Hashing, s: State, id: nat, r: string, content: ShardMap)
    requires Enabled(s, Apply(id)) && OneEach(s) && s.operations[id].replica == r
    requires Next(h, s, Apply(id)).history != [] && Newest(Next(h, s, Apply(id))) == content
    requires Holds(Next(h, s, Apply(id)), r, content)
    ensures FixedOnNewest(Next(h, s, Apply(id)), r, content)
  {
  }

  /**
   When every replica does one thing at a time, one fresh apply since the last write is enough for good: whatever a
   replica does afterwards, short of crashing, it holds the newest map.
   */
  lemma SerialReplicaStaysFresh(h: Hashing, st: seq<State>, steps: seq<Step>, c: nat, j: nat, r: string)
    requires Behaves(h, st, steps) && OneAtATime(h, st, steps) && FreshApply(h, st, steps, c, j, r)
    requires NoCommit(steps, c + 1, |steps|) && forall l :: j < l < |steps| ==> steps[l] != Crash(r)
    ensures st[|steps|].history != [] && Holds(st[|steps|], r, Newest(st[|steps|]))
  {
    var content := FixedAfterApply(h, st, steps, c, j, r);
    StaysFixed(h, st, steps, r, content, j + 1, |steps|);
  }

  lemma FixedAfterApply(h: Hashing, st: seq<State>, steps: seq<Step>, c: nat, j: nat, r: string) returns (content: ShardMap)
    requires Behaves(h, st, steps) && OneAtATime(h, st, steps) && FreshApply(h, st, steps, c, j, r) && NoCommit(steps, c + 1, |steps|)
    ensures FixedOnNewest(st[j + 1], r, content)
  {
    FreshApplyHolds(h, st, steps, c, j, r);
    content := Newest(st[|steps|]);
    HistoryFixed(h, st, steps, j + 1, |steps|);
    OneEachAt(h, st, steps, j);
    AppliedFixes(h, st, steps, j, r, content);
  }

  lemma AppliedFixes(h: Hashing, st: seq<State>, steps: seq<Step>, j: nat, r: string, content: ShardMap)
    requires Behaves(h, st, steps) && j < |steps| && steps[j].Apply? && OneEach(st[j])
    requires steps[j].id in st[j].operations && st[j].operations[steps[j].id].replica == r
    requires st[j + 1].history != [] && Newest(st[j + 1]) == content && Holds(st[j + 1], r, content)
    ensures FixedOnNewest(st[j + 1], r, content)
  {
    StepAt(h, st, steps, j);
    ApplyFixes(h, st[j], steps[j].id, r, content);
  }
}
