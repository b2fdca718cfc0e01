/**
 The sharding protocol across replicas. The ConfigMap is a versioned register with
 create-if-absent and compare-and-set. Any number of reconcile and sync operations of
 any replicas are in flight at once, so leadership is not assumed to be exclusive.
 */
module ShardProtocol {
  import opened Prelude
  import opened Hasher
  import opened ShardManager

  /** The API server lists distinct names, and reconcile does not index past the peers. */
  ghost predicate Sound(inputs: Inputs) {
    CanPlan(inputs) && Distinct(inputs.peers) && Distinct(inputs.listed)
  }

  type SoundInputs = inputs: Inputs | Sound(inputs) ghost witness Inputs("", [], {}, [], StableReads(1))

  datatype Stored = Stored(version: nat, content: ShardMap)

  /** A shard map that reached the store, with what it was computed from. */
  datatype Written = Written(content: ShardMap, inputs: SoundInputs)

  datatype Replica = Replica(owned: set<string>, current: Option<ShardMap>)

  /** One reconcile or sync, by how far it has come. */
  datatype Operation =
    | Computed(replica: string, inputs: SoundInputs)
    | Observed(replica: string, inputs: SoundInputs, seen: Option<nat>)
    | Committed(replica: string, content: ShardMap)
    | Fetched(replica: string, content: ShardMap)

  datatype State = State(
    store: Option<Stored>,
    nextVersion: nat,
    history: seq<Written>,
    replicas: map<string, Replica>,
    operations: map<nat, Operation>)

  datatype Step =
    | Join(replica: string)                              // a pod starts with an empty assignment
    | Crash(replica: string)                             // a pod dies with its operations
    | Compute(id: nat, replica: string, inputs: SoundInputs)  // reconcile up to the write
    | Observe(id: nat)                                   // the Get inside writeShardMap
    | Commit(id: nat)                                    // a Create or Update that succeeds
    | Abort(id: nat)                                     // any API error: the operation returns it
    | Apply(id: nat)                                     // applyShardMap
    | Fetch(id: nat, replica: string)                    // the Get inside syncFromConfigMap
    | Vanish                                             // somebody deletes the ConfigMap

  const INIT := State(None, 0, [], map[], map[])

  ghost predicate Enabled(s: State, step: Step) {
    match step
    case Join(r) => r !in s.replicas
    case Crash(r) => r in s.replicas
    case Compute(id, r, inputs) => id !in s.operations && r in s.replicas && inputs.self == r
    case Observe(id) => id in s.operations && s.operations[id].Computed?
    case Commit(id) =>
      id in s.operations && s.operations[id].Observed? && s.operations[id].seen == VersionOf(s.store)
    case Abort(id) => id in s.operations
    case Apply(id) => id in s.operations && (s.operations[id].Committed? || s.operations[id].Fetched?)
                      && s.operations[id].replica in s.replicas
    case Fetch(id, r) => id !in s.operations && r in s.replicas && s.store.Some?
    case Vanish => s.store.Some?
  }

  function VersionOf(store: Option<Stored>): Option<nat> {
    if store.Some? then Some(store.value.version) else None
  }

  ghost function AfterCommit(s: State, id: nat, content: ShardMap): State
    requires id in s.operations && s.operations[id].Observed?
  {
    var op := s.operations[id];
    s.(store := Some(Stored(s.nextVersion, content)),
       nextVersion := s.nextVersion + 1,
       history := s.history + [Written(content, op.inputs)],
       operations := s.operations[id := Committed(op.replica, content)])
  }

  ghost function Next(h: Hashing, s: State, step: Step): State
    requires Enabled(s, step)
  {
    match step
    case Join(r) => s.(replicas := s.replicas[r := Replica({}, None)])
    case Crash(r) =>
      s.(replicas := s.replicas - {r},
         operations := map id | id in s.operations && s.operations[id].replica != r :: s.operations[id])
    case Compute(id, r, inputs) => s.(operations := s.operations[id := Computed(r, inputs)])
    case Observe(id) =>
      var op := s.operations[id];
      s.(operations := s.operations[id := Observed(op.replica, op.inputs, VersionOf(s.store))])
    case Commit(id) =>
      AfterCommit(s, id, ShardMapFor(h, s.operations[id].inputs))
    case Abort(id) => s.(operations := s.operations - {id})
    case Apply(id) =>
      var op := s.operations[id];
      s.(replicas := s.replicas[op.replica := Replica(Entry(op.content, op.replica), Some(op.content))],
         operations := s.operations - {id})
    case Fetch(id, r) => s.(operations := s.operations[id := Fetched(r, s.store.value.content)])
    case Vanish => s.(store := None)
  }

  ghost predicate InHistory(s: State, content: ShardMap) {
    exists i :: 0 <= i < |s.history| && s.history[i].content == content
  }

  ghost predicate WrittenSoundly(h: Hashing, w: Written) {
    w.content == ShardMapFor(h, w.inputs)
  }

  ghost predicate ReplicaFollows(s: State, r: string)
    requires r in s.replicas
  {
    match s.replicas[r].current
    case None => s.replicas[r].owned == {}
    case Some(m) => InHistory(s, m) && s.replicas[r].owned == Entry(m, r)
  }

  ghost predicate OperationSound(s: State, op: Operation) {
    op.Committed? || op.Fetched? ==> InHistory(s, op.content)
  }

  ghost predicate Invariant(h: Hashing, s: State) {
    && (forall i :: 0 <= i < |s.history| ==> WrittenSoundly(h, s.history[i]))
    && (s.store.Some? ==> s.history != [] && s.store.value.content == s.history[|s.history| - 1].content)
    && (forall r :: r in s.replicas ==> ReplicaFollows(s, r))
    && (forall id :: id in s.operations ==> OperationSound(s, s.operations[id]))
  }

  lemma HistoryGrows(s: State, s': State, content: ShardMap)
    requires s.history <= s'.history && InHistory(s, content)
    ensures InHistory(s', content)
  {
    var i :| 0 <= i < |s.history| && s.history[i].content == content;
    assert s'.history[i].content == content;
  }

  /** Steps that leave the history alone keep every fact about it. */
  lemma SameHistory(s: State, s': State)
    requires s.history == s'.history
    ensures forall content :: InHistory(s, content) == InHistory(s', content)
    ensures forall r :: r in s.replicas && r in s'.replicas && s.replicas[r] == s'.replicas[r] && ReplicaFollows(s, r)
                        ==> ReplicaFollows(s', r)
  {
  }

  lemma CommitKeepsInvariant(h: Hashing, s: State, id: nat, content: ShardMap)
    requires Invariant(h, s) && id in s.operations && s.operations[id].Observed?
    requires content == ShardMapFor(h, s.operations[id].inputs)
    ensures Invariant(h, AfterCommit(s, id, content))
  {
    var s' := AfterCommit(s, id, content);
    assert s'.history[|s.history|].content == content;
    forall m | InHistory(s, m) ensures InHistory(s', m) {
      HistoryGrows(s, s', m);
    }
    forall r | r in s'.replicas ensures ReplicaFollows(s', r) {
      assert ReplicaFollows(s, r);
    }
    forall k | k in s'.operations ensures OperationSound(s', s'.operations[k]) {
      assert k != id ==> OperationSound(s, s.operations[k]);
    }
  }

  lemma StepKeepsInvariant(h: Hashing, s: State, step: Step)
    requires Invariant(h, s) && Enabled(s, step)
    ensures Invariant(h, Next(h, s, step))
    ensures s.history <= Next(h, s, step).history
  {
    match step {
      case Commit(id) => CommitKeepsInvariant(h, s, id, ShardMapFor(h, s.operations[id].inputs));
      case Apply(id) => ApplyKeepsInvariant(h, s, id);
      case _ => OtherStepKeepsInvariant(h, s, step, Next(h, s, step));
    }
  }

  lemma ApplyKeepsInvariant(h: Hashing, s: State, id: nat)
    requires Invariant(h, s) && Enabled(s, Apply(id))
    ensures Invariant(h, Next(h, s, Apply(id)))
  {
    var s', op := Next(h, s, Apply(id)), s.operations[id];
    SameHistory(s, s');
    assert OperationSound(s, op);
    forall r | r in s'.replicas ensures ReplicaFollows(s', r) {
      assert r != op.replica ==> ReplicaFollows(s, r);
    }
  }

  lemma OtherStepKeepsInvariant(h: Hashing, s: State, step: Step, s': State)
    requires Invariant(h, s) && Enabled(s, step) && !step.Commit? && !step.Apply? && s' == Next(h, s, step)
    ensures Invariant(h, s') && s.history == s'.history
  {
    SameHistory(s, s');
    if s.store.Some? {
      assert InHistory(s, s.store.value.content);
    }
    OtherReplicas(h, s, step, s');
    OtherOperations(h, s, step, s');
  }

  lemma OtherReplicas(h: Hashing, s: State, step: Step, s': State)
    requires Invariant(h, s) && Enabled(s, step) && !step.Commit? && !step.Apply? && s' == Next(h, s, step)
    ensures forall r :: r in s'.replicas ==> ReplicaFollows(s', r)
  {
    SameHistory(s, s');
    forall r | r in s'.replicas ensures ReplicaFollows(s', r) {
      if r in s.replicas {
        assert ReplicaFollows(s, r);
      }
    }
  }

  lemma OtherOperations(h: Hashing, s: State, step: Step, s': State)
    requires Invariant(h, s) && Enabled(s, step) && !step.Commit? && !step.Apply? && s' == Next(h, s, step)
    ensures forall id :: id in s'.operations ==> OperationSound(s', s'.operations[id])
  {
    SameHistory(s, s');
    if s.store.Some? {
      assert InHistory(s, s.store.value.content);
    }
    forall id | id in s'.operations ensures OperationSound(s', s'.operations[id]) {
      if id in s.operations {
        assert OperationSound(s, s.operations[id]);
      }
    }
  }

  /** The state after a run, or nothing when some step was not enabled. */
  ghost function Run(h: Hashing, steps: seq<Step>): Option<State> {
    if steps == [] then Some(INIT)
    else
      var before, step := Run(h, steps[..|steps| - 1]), steps[|steps| - 1];
      if before.Some? && Enabled(before.value, step) then Some(Next(h, before.value, step)) else None
  }

  lemma {:induction false} RunKeepsInvariant(h: Hashing, steps: seq<Step>)
    ensures Run(h, steps).Some? ==> Invariant(h, Run(h, steps).value)
  {
    if steps != [] {
      RunKeepsInvariant(h, steps[..|steps| - 1]);
      var before, step := Run(h, steps[..|steps| - 1]), steps[|steps| - 1];
      if before.Some? && Enabled(before.value, step) {
        StepKeepsInvariant(h, before.value, step);
      }
    }
  }

  /** In every run, what a replica holds is nothing, or its entry in a map that was really written. */
  lemma AssignmentsComeFromTheStore(h: Hashing, steps: seq<Step>, r: string)
    requires Run(h, steps).Some? && r in Run(h, steps).value.replicas
    ensures var s := Run(h, steps).value;
      || s.replicas[r].owned == {}
      || exists i :: 0 <= i < |s.history| && s.replicas[r].owned == Entry(s.history[i].content, r)
  {
    RunKeepsInvariant(h, steps);
    var s := Run(h, steps).value;
    assert ReplicaFollows(s, r);
    if s.replicas[r].current.Some? {
      var i :| 0 <= i < |s.history| && s.history[i].content == s.replicas[r].current.value;
      assert s.replicas[r].owned == Entry(s.history[i].content, r);
    }
  }

  /** In every run, two replicas that last applied the same map share no namespace. */
  lemma NoNamespaceIsShared(h: Hashing, steps: seq<Step>, r1: string, r2: string)
    requires Run(h, steps).Some? && r1 != r2
    requires var s := Run(h, steps).value;
      && r1 in s.replicas && r2 in s.replicas
      && s.replicas[r1].current == s.replicas[r2].current
    ensures var s := Run(h, steps).value;
      s.replicas[r1].owned !! s.replicas[r2].owned
  {
    RunKeepsInvariant(h, steps);
    var s := Run(h, steps).value;
    assert ReplicaFollows(s, r1) && ReplicaFollows(s, r2);
    if s.replicas[r1].current.Some? {
      var i :| 0 <= i < |s.history| && s.history[i].content == s.replicas[r1].current.value;
      assert WrittenSoundly(h, s.history[i]);
      EntriesDisjoint(h, s.history[i].inputs, r1, r2);
    }
  }

  /** Every replica listed in a map is alive and last applied that map. */
  ghost predicate Settled(s: State, content: ShardMap) {
    forall r :: r in content.assignments ==> r in s.replicas && s.replicas[r].current == Some(content)
  }

  ghost function OwnedBy(s: State, content: ShardMap): set<string> {
    set r, ns | r in content.assignments && r in s.replicas && ns in s.replicas[r].owned :: ns
  }

  /**
   In every run, once the replicas of a written map have applied it, they together own
   exactly the wanted namespaces whose bucket has an owner.
   */
  lemma SettledOwnership(h: Hashing, steps: seq<Step>, i: nat)
    requires Run(h, steps).Some? && i < |Run(h, steps).value.history|
    requires Settled(Run(h, steps).value, Run(h, steps).value.history[i].content)
    ensures var s := Run(h, steps).value;
      var plan := PlanFor(s.history[i].inputs);
      OwnedBy(s, s.history[i].content) ==
      (set ns | ns in Wanted(s.history[i].inputs) && Bucket(h.jump, h.hash(ns), plan.buckets) < |plan.owners|)
  {
    RunKeepsInvariant(h, steps);
    var s := Run(h, steps).value;
    var w := s.history[i];
    assert WrittenSoundly(h, w);
    forall r | r in w.content.assignments ensures s.replicas[r].owned == Entry(w.content, r) {
      assert ReplicaFollows(s, r);
    }
    forall ns ensures ns in OwnedBy(s, w.content) <==> ns in Handed(w.content) {
      if ns in Handed(w.content) {
        var r :| r in w.content.assignments && ns in w.content.assignments[r];
        assert ns in s.replicas[r].owned;
      }
    }
    HandedExactly(h, w.inputs);
  }

  /** So, unless the replica count changed under the leader, nothing wanted is left out. */
  lemma SettledCoverage(h: Hashing, steps: seq<Step>, i: nat, n: int)
    requires Run(h, steps).Some? && i < |Run(h, steps).value.history|
    requires var s := Run(h, steps).value;
      && Settled(s, s.history[i].content)
      && s.history[i].inputs.seen == StableReads(n)
      && (n != 1 ==> s.history[i].inputs.peers != [])
    ensures var s := Run(h, steps).value;
      OwnedBy(s, s.history[i].content) == Wanted(s.history[i].inputs)
  {
    SettledOwnership(h, steps, i);
    var inputs := Run(h, steps).value.history[i].inputs;
    StableReadsCover(h, inputs, n);
    HandedExactly(h, inputs);
  }

  // ----- compare-and-set -----

  ghost predicate VersionsBelow(s: State) {
    s.store.Some? ==> s.store.value.version < s.nextVersion
  }

  /** Version `v` was written once and is no longer what the store holds. */
  ghost predicate Overwritten(s: State, v: nat) {
    v < s.nextVersion && VersionOf(s.store) != Some(v)
  }

  lemma {:induction false} RunKeepsVersionsBelow(h: Hashing, steps: seq<Step>)
    ensures Run(h, steps).Some? ==> VersionsBelow(Run(h, steps).value)
  {
    if steps != [] {
      RunKeepsVersionsBelow(h, steps[..|steps| - 1]);
    }
  }

  lemma RunPrefix(h: Hashing, steps: seq<Step>, k: nat)
    requires Run(h, steps).Some? && k < |steps|
    ensures Run(h, steps[..k]).Some? && Enabled(Run(h, steps[..k]).value, steps[k])
    ensures Run(h, steps[..k + 1]) == Some(Next(h, Run(h, steps[..k]).value, steps[k]))
    decreases |steps|
  {
    if k == |steps| - 1 {
      assert steps[..k + 1] == steps;
    } else {
      RunPrefix(h, steps[..|steps| - 1], k);
      assert steps[..|steps| - 1][..k] == steps[..k] && steps[..|steps| - 1][..k + 1] == steps[..k + 1];
    }
  }

  lemma StepKeepsOverwritten(h: Hashing, s: State, step: Step, v: nat)
    requires Enabled(s, step) && Overwritten(s, v)
    ensures Overwritten(Next(h, s, step), v)
  {
  }

  /** An overwritten version never comes back. */
  lemma {:induction false} StaysOverwritten(h: Hashing, steps: seq<Step>, k: nat, v: nat)
    requires Run(h, steps).Some? && k <= |steps|
    requires Run(h, steps[..k]).Some? && Overwritten(Run(h, steps[..k]).value, v)
    ensures Overwritten(Run(h, steps).value, v)
  {
    if k == |steps| {
      assert steps[..k] == steps;
    } else {
      var init := steps[..|steps| - 1];
      assert init[..k] == steps[..k];
      StaysOverwritten(h, init, k, v);
      StepKeepsOverwritten(h, Run(h, init).value, steps[|steps| - 1], v);
    }
  }

  /** In every run, at most one write succeeds on top of any version of the ConfigMap. */
  lemma OneWritePerVersion(h: Hashing, steps: seq<Step>, k1: nat, k2: nat, v: nat)
    requires Run(h, steps).Some? && k1 < k2 < |steps| && steps[k1].Commit? && steps[k2].Commit?
    requires var s := Run(h, steps[..k1]);
      s.Some? && steps[k1].id in s.value.operations && s.value.operations[steps[k1].id].Observed?
      && s.value.operations[steps[k1].id].seen == Some(v)
    ensures var s := Run(h, steps[..k2]);
      s.Some? && steps[k2].id in s.value.operations && s.value.operations[steps[k2].id].Observed?
      && s.value.operations[steps[k2].id].seen != Some(v)
  {
    RunPrefix(h, steps, k1);
    RunPrefix(h, steps, k2);
    RunKeepsVersionsBelow(h, steps[..k1]);
    assert steps[..k2][..k1 + 1] == steps[..k1 + 1];
    StaysOverwritten(h, steps[..k2], k1 + 1, v);
  }
}
