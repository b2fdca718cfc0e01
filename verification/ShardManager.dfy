/**
 The shard manager of one replica: how a leader turns a listing of namespaces and
 peers into a shard map, and how every replica applies a map to its own state.
 */
module ShardManager {
  import opened Prelude
  import opened Ordering
  import opened Hasher

  /** How namespaces hash; the same on every replica. */
  datatype Hashing = Hashing(jump: JumpStep, hash: NamespaceHash)

  datatype ShardMap = ShardMap(assignments: map<string, seq<string>>, numReplicas: int)

  datatype Phase = Pending | Running | Succeeded | Failed | Unknown

  datatype Pod = Pod(name: string, phase: Phase)

  /**
   The values one `reconcile` reads from the replica count. It reads the field
   several times without the lock, so a concurrent SetNumReplicas can make them differ.
   */
  datatype Reads = Reads(assign: int, record: int, mode: int, loop: int, compare: int)

  function StableReads(n: int): Reads {
    Reads(n, n, n, n, n)
  }

  /** Everything a reconcile depends on: `peers` is what peer discovery returned. */
  datatype Inputs = Inputs(self: string, listed: seq<string>, excluded: set<string>, peers: seq<string>, seen: Reads)

  /** Namespaces are hashed over `buckets`; bucket `i` goes to `owners[i]`. */
  datatype Plan = Plan(buckets: int, owners: seq<string>, recorded: int)

  predicate Adjusts(inputs: Inputs) {
    0 < |inputs.peers| && |inputs.peers| != inputs.seen.compare
  }

  /**
   Multi-replica mode indexes the peer list up to the replica count, so without
   an adjustment there must be that many peers.
   */
  predicate CanPlan(inputs: Inputs) {
    && ValidBucketCount(inputs.seen.assign)
    && |inputs.peers| <= MAX_BUCKETS
    && (inputs.seen.mode != 1 && !Adjusts(inputs) ==> 0 <= inputs.seen.loop <= |inputs.peers|)
  }

  function PlanFor(inputs: Inputs): Plan
    requires CanPlan(inputs)
  {
    if inputs.seen.mode == 1 then Plan(inputs.seen.assign, [inputs.self], inputs.seen.record)
    else if Adjusts(inputs) then Plan(|inputs.peers|, inputs.peers, |inputs.peers|)
    else Plan(inputs.seen.assign, inputs.peers[..inputs.seen.loop], inputs.seen.record)
  }

  function NotExcluded(excluded: set<string>): string -> bool {
    ns => ns !in excluded
  }

  function Candidates(inputs: Inputs): seq<string> {
    Sort(Filter(NotExcluded(inputs.excluded), inputs.listed))
  }

  /** The entries for the first `count` owners. */
  function Entries(h: Hashing, names: seq<string>, plan: Plan, count: nat): map<string, seq<string>>
    requires ValidBucketCount(plan.buckets) && count <= |plan.owners|
  {
    if count == 0 then map[]
    else Entries(h, names, plan, count - 1)[plan.owners[count - 1] := Sort(Assigned(h.jump, h.hash, names, plan.buckets, count - 1))]
  }

  function ShardMapFor(h: Hashing, inputs: Inputs): ShardMap
    requires CanPlan(inputs)
  {
    var plan := PlanFor(inputs);
    ShardMap(Entries(h, Candidates(inputs), plan, |plan.owners|), plan.recorded)
  }

  /** The namespaces a map gives to a replica: none when it is not listed. */
  function Entry(m: ShardMap, replica: string): set<string> {
    if replica in m.assignments then set ns | ns in m.assignments[replica] else {}
  }

  lemma {:induction false} EntriesKeys(h: Hashing, names: seq<string>, plan: Plan, count: nat)
    requires ValidBucketCount(plan.buckets) && count <= |plan.owners|
    ensures Entries(h, names, plan, count).Keys == set o | o in plan.owners[..count]
  {
    if count != 0 {
      EntriesKeys(h, names, plan, count - 1);
      assert plan.owners[..count] == plan.owners[..count - 1] + [plan.owners[count - 1]];
    }
  }

  lemma {:induction false} EntryAt(h: Hashing, names: seq<string>, plan: Plan, count: nat, i: nat)
    requires ValidBucketCount(plan.buckets) && i < count <= |plan.owners| && Distinct(plan.owners)
    ensures plan.owners[i] in Entries(h, names, plan, count)
    ensures Entries(h, names, plan, count)[plan.owners[i]] == Sort(Assigned(h.jump, h.hash, names, plan.buckets, i))
  {
    if i < count - 1 {
      EntryAt(h, names, plan, count - 1, i);
    }
  }

  /** Who owns a namespace under a map: the owner its bucket points at, and nobody else. */
  lemma EntryOwner(h: Hashing, inputs: Inputs, replica: string, ns: string)
    requires CanPlan(inputs) && Distinct(inputs.peers)
    ensures var plan := PlanFor(inputs);
      && 0 <= Bucket(h.jump, h.hash(ns), plan.buckets)
      && (ns in Entry(ShardMapFor(h, inputs), replica) <==>
          && ns in Candidates(inputs)
          && Bucket(h.jump, h.hash(ns), plan.buckets) < |plan.owners|
          && plan.owners[Bucket(h.jump, h.hash(ns), plan.buckets)] == replica)
  {
    var plan, names := PlanFor(inputs), Candidates(inputs);
    assert Distinct(plan.owners);
    EntriesKeys(h, names, plan, |plan.owners|);
    assert plan.owners[..|plan.owners|] == plan.owners;
    var b := Bucket(h.jump, h.hash(ns), plan.buckets);
    BucketIsLastJump(h.jump, h.hash(ns), plan.buckets, b);
    if replica in plan.owners {
      var i :| 0 <= i < |plan.owners| && plan.owners[i] == replica;
      EntryAt(h, names, plan, |plan.owners|, i);
      SortPermutes(Assigned(h.jump, h.hash, names, plan.buckets, i));
      FilterMember(InBucket(h.jump, h.hash, plan.buckets, i), names, ns);
      assert ns in Entry(ShardMapFor(h, inputs), replica) <==> ns in names && b == i;
    }
  }

  /** A map never gives one namespace to two replicas, whatever the reads saw. */
  lemma EntriesDisjoint(h: Hashing, inputs: Inputs, r1: string, r2: string)
    requires CanPlan(inputs) && Distinct(inputs.peers) && r1 != r2
    ensures Entry(ShardMapFor(h, inputs), r1) !! Entry(ShardMapFor(h, inputs), r2)
  {
    forall ns ensures !(ns in Entry(ShardMapFor(h, inputs), r1) && ns in Entry(ShardMapFor(h, inputs), r2)) {
      EntryOwner(h, inputs, r1, ns);
      EntryOwner(h, inputs, r2, ns);
    }
  }

  /** All the namespaces a map gives away. */
  ghost function Handed(m: ShardMap): set<string> {
    set r, ns | r in m.assignments && ns in m.assignments[r] :: ns
  }

  ghost function Wanted(inputs: Inputs): set<string> {
    set ns | ns in inputs.listed && ns !in inputs.excluded
  }

  /**
   What a map hands out, exactly: the wanted namespaces whose bucket has an owner.
   So it hands out all of them if and only if no namespace hashes past the owners.
   */
  lemma HandedExactly(h: Hashing, inputs: Inputs)
    requires CanPlan(inputs) && Distinct(inputs.peers)
    ensures var plan := PlanFor(inputs);
      && Handed(ShardMapFor(h, inputs)) ==
         (set ns | ns in Wanted(inputs) && Bucket(h.jump, h.hash(ns), plan.buckets) < |plan.owners|)
      && (Handed(ShardMapFor(h, inputs)) == Wanted(inputs) <==>
          forall ns :: ns in Wanted(inputs) ==> Bucket(h.jump, h.hash(ns), plan.buckets) < |plan.owners|)
  {
    var plan, m := PlanFor(inputs), ShardMapFor(h, inputs);
    var covered := set ns | ns in Wanted(inputs) && Bucket(h.jump, h.hash(ns), plan.buckets) < |plan.owners|;
    FilterMembers(NotExcluded(inputs.excluded), inputs.listed);
    SortPermutes(Filter(NotExcluded(inputs.excluded), inputs.listed));
    forall ns ensures ns in Handed(m) <==> ns in covered {
      var b := Bucket(h.jump, h.hash(ns), plan.buckets);
      BucketIsLastJump(h.jump, h.hash(ns), plan.buckets, b);
      if ns in Handed(m) {
        var r :| r in m.assignments && ns in m.assignments[r];
        EntryOwner(h, inputs, r, ns);
      }
      if ns in covered {
        EntryOwner(h, inputs, plan.owners[b], ns);
      }
    }
    assert Handed(m) == covered;
    if Handed(m) == Wanted(inputs) {
      forall ns | ns in Wanted(inputs) ensures Bucket(h.jump, h.hash(ns), plan.buckets) < |plan.owners| {
        assert ns in covered;
      }
    }
  }

  /** The same in terms of the reads: one replica takes bucket 0, an adjusted map covers everything, any other stops at the loop's read. */
  lemma HandedByReads(h: Hashing, inputs: Inputs, ns: string)
    requires CanPlan(inputs) && Distinct(inputs.peers)
    ensures var seen, m := inputs.seen, ShardMapFor(h, inputs);
      ns in Handed(m) <==>
        && ns in inputs.listed && ns !in inputs.excluded
        && if seen.mode == 1 then Bucket(h.jump, h.hash(ns), seen.assign) == 0
           else if |inputs.peers| != 0 && |inputs.peers| != seen.compare then true
           else Bucket(h.jump, h.hash(ns), seen.assign) < seen.loop
    ensures var seen, m := inputs.seen, ShardMapFor(h, inputs);
      m.numReplicas == if seen.mode != 1 && |inputs.peers| != 0 && |inputs.peers| != seen.compare then |inputs.peers| else seen.record
  {
    HandedExactly(h, inputs);
    var plan := PlanFor(inputs);
    BucketIsLastJump(h.jump, h.hash(ns), plan.buckets, 0);
  }

  /** When all reads agree, every wanted namespace is handed out. */
  lemma StableReadsCover(h: Hashing, inputs: Inputs, n: int)
    requires CanPlan(inputs) && Distinct(inputs.peers)
    requires inputs.seen == StableReads(n) && (n != 1 ==> inputs.peers != [])
    ensures Handed(ShardMapFor(h, inputs)) == Wanted(inputs)
  {
    HandedExactly(h, inputs);
    var plan := PlanFor(inputs);
    forall ns | ns in Wanted(inputs) ensures Bucket(h.jump, h.hash(ns), plan.buckets) < |plan.owners| {
      BucketIsLastJump(h.jump, h.hash(ns), plan.buckets, 0);
    }
  }

  /**
   The reads do matter: if the count drops to one between hashing and the mode test,
   the map keeps only bucket 0 and a namespace of another bucket is handed to nobody.
   */
  lemma RacingReadsDropNamespaces(h: Hashing, self: string, ns: string)
    requires Bucket(h.jump, h.hash(ns), 2) == 1
    ensures var racing := Inputs(self, [ns], {}, [], Reads(2, 2, 1, 1, 1));
      CanPlan(racing) && ns in Wanted(racing) && Handed(ShardMapFor(h, racing)) == {}
  {
    var racing := Inputs(self, [ns], {}, [], Reads(2, 2, 1, 1, 1));
    HandedExactly(h, racing);
  }

  /** And it does happen: under every rounding there is a hash of the namespace for which the map hands out nothing. */
  lemma RacingReadsCanDrop(rnd: Rounding, self: string, ns: string) returns (h: Hashing)
    ensures h.jump == FloatJump(rnd)
    ensures var racing := Inputs(self, [ns], {}, [], Reads(2, 2, 1, 1, 1));
      CanPlan(racing) && ns in Wanted(racing) && Handed(ShardMapFor(h, racing)) == {}
  {
    h := Hashing(FloatJump(rnd), (x: string) => SHORT_JUMP_KEY);
    ShortJumpLands(rnd);
    RacingReadsDropNamespaces(h, self, ns);
  }

  /** Two leaders that see the same cluster, in any listing order, compute the same map. */
  lemma ListingOrderIrrelevant(h: Hashing, inputs: Inputs, listed: seq<string>)
    requires CanPlan(inputs) && multiset(listed) == multiset(inputs.listed)
    ensures ShardMapFor(h, inputs.(listed := listed)) == ShardMapFor(h, inputs)
  {
    FilterPermutes(NotExcluded(inputs.excluded), listed, inputs.listed);
    SortForgetsOrder(Filter(NotExcluded(inputs.excluded), listed), Filter(NotExcluded(inputs.excluded), inputs.listed));
  }

  lemma {:induction false} FilterCounts(p: string -> bool, s: seq<string>, x: string)
    ensures multiset(Filter(p, s))[x] == if p(x) then multiset(s)[x] else 0
  {
    if s != [] {
      FilterCounts(p, s[..|s| - 1], x);
      assert s == s[..|s| - 1] + [s[|s| - 1]];
    }
  }

  lemma FilterPermutes(p: string -> bool, a: seq<string>, b: seq<string>)
    requires multiset(a) == multiset(b)
    ensures multiset(Filter(p, a)) == multiset(Filter(p, b))
  {
    forall x: string ensures multiset(Filter(p, a))[x] == multiset(Filter(p, b))[x] {
      FilterCounts(p, a, x);
      FilterCounts(p, b, x);
    }
  }

  function IsLive(): Pod -> bool {
    (pod: Pod) => pod.phase != Succeeded && pod.phase != Failed
  }

  function Names(pods: seq<Pod>): seq<string> {
    if pods == [] then [] else Names(pods[..|pods| - 1]) + [pods[|pods| - 1].name]
  }

  /** The names of the pods that can still process namespaces, sorted. */
  method DiscoverPeers(pods: seq<Pod>) returns (names: seq<string>)
    ensures IsSorted(names)
    ensures multiset(names) == multiset(Names(Filter(IsLive(), pods)))
  {
    var found: seq<string> := [];
    for i := 0 to |pods|
      invariant found == Names(Filter(IsLive(), pods[..i]))
    {
      FilterStep(IsLive(), pods, i);
      var pod := pods[i];
      if pod.phase == Succeeded || pod.phase == Failed {
        continue;
      }
      found := found + [pod.name];
    }
    assert pods[..|pods|] == pods;
    SortPermutes(found);
    SortSorts(found);
    names := Sort(found);
  }

  /** The state a replica keeps, and what applying a map does to it. */
  class Manager {
    const replicaID: string
    const excludeNamespaces: set<string>
    var numReplicas: int
    var assignedNamespaces: set<string>
    var currentShardMap: Option<ShardMap>

    constructor (replicaID: string, numReplicas: int, excludeNamespaces: set<string>)
      ensures this.replicaID == replicaID && this.excludeNamespaces == excludeNamespaces
      ensures this.numReplicas == numReplicas && assignedNamespaces == {} && currentShardMap == None
    {
      this.replicaID, this.excludeNamespaces := replicaID, excludeNamespaces;
      this.numReplicas, assignedNamespaces, currentShardMap := numReplicas, {}, None;
    }

    /** An invalid count is ignored. */
    method SetNumReplicas(n: int)
      modifies this`numReplicas
      ensures numReplicas == if n < 1 then old(numReplicas) else n
    {
      if n < 1 {
        return;
      }
      numReplicas := n;
    }

    /** The listing without the excluded namespaces, sorted. */
    method ListNamespaces(listed: seq<string>) returns (namespaces: seq<string>)
      ensures namespaces == Sort(Filter(NotExcluded(excludeNamespaces), listed))
    {
      namespaces := FilterListing(listed, excludeNamespaces);
    }

    /**
     The part of `reconcile` up to the write, run without interference. Multi-replica
     mode needs at least one peer.
     */
    method ComputeShardMap(h: Hashing, listed: seq<string>, peers: seq<string>) returns (m: ShardMap)
      requires ValidBucketCount(numReplicas) && |peers| <= MAX_BUCKETS
      requires numReplicas != 1 ==> peers != []
      modifies this`numReplicas
      ensures m == ShardMapFor(h, Inputs(replicaID, listed, excludeNamespaces, peers, StableReads(old(numReplicas))))
      ensures m.numReplicas == numReplicas == if old(numReplicas) == 1 then 1 else |peers|
    {
      var adjusted;
      m, adjusted := MapFromReads(h, Inputs(replicaID, listed, excludeNamespaces, peers, StableReads(numReplicas)));
      if adjusted {
        SetNumReplicas(|peers|);
      }
    }

    /** The new state is the map's entry; the reported difference is exact, sorted and without repetitions. */
    method ApplyShardMap(m: ShardMap) returns (added: seq<string>, removed: seq<string>)
      modifies this`assignedNamespaces, this`currentShardMap
      ensures assignedNamespaces == Entry(m, replicaID) && currentShardMap == Some(m)
      ensures IsSorted(added) && Distinct(added) && IsSorted(removed) && Distinct(removed)
      ensures forall ns :: ns in added <==> ns in Entry(m, replicaID) && ns !in old(assignedNamespaces)
      ensures forall ns :: ns in removed <==> ns in old(assignedNamespaces) && ns !in Entry(m, replicaID)
    {
      var mine := if replicaID in m.assignments then m.assignments[replicaID] else [];
      var newSet: set<string> := {};
      for i := 0 to |mine|
        invariant newSet == set ns | ns in mine[..i]
      {
        newSet := newSet + {mine[i]};
      }
      assert mine[..|mine|] == mine;
      added := Missing(newSet, assignedNamespaces);
      removed := Missing(assignedNamespaces, newSet);
      assignedNamespaces := newSet;
      currentShardMap := Some(m);
    }
  }

  /** The listing without the excluded namespaces, sorted. */
  method FilterListing(listed: seq<string>, excluded: set<string>) returns (namespaces: seq<string>)
    ensures namespaces == Sort(Filter(NotExcluded(excluded), listed))
  {
    namespaces := [];
    for i := 0 to |listed|
      invariant namespaces == Filter(NotExcluded(excluded), listed[..i])
    {
      FilterStep(NotExcluded(excluded), listed, i);
      if listed[i] in excluded {
        continue;
      }
      namespaces := namespaces + [listed[i]];
    }
    assert listed[..|listed|] == listed;
    namespaces := Sort(namespaces);
  }

  /** The computation of `reconcile`, with each unlocked read of the replica count on its own. */
  method MapFromReads(h: Hashing, inputs: Inputs) returns (m: ShardMap, adjusted: bool)
    requires CanPlan(inputs)
    ensures m == ShardMapFor(h, inputs)
    ensures adjusted <==> inputs.seen.mode != 1 && 0 < |inputs.peers| != inputs.seen.compare
  {
    var seen, peers := inputs.seen, inputs.peers;
    var namespaces := FilterListing(inputs.listed, inputs.excluded);
    var assignments := AssignNamespaces(h.jump, h.hash, namespaces, seen.assign);
    if seen.mode == 1 {
      var built := BuildEntries(h, namespaces, assignments, seen.assign, [inputs.self]);
      return ShardMap(built, seen.record), false;
    }
    var buckets, effective, recorded := seen.assign, seen.loop, seen.record;
    adjusted := false;
    if 0 < |peers| && |peers| != seen.compare {
      adjusted := true;
      buckets, effective, recorded := |peers|, |peers|, |peers|;
      assignments := AssignNamespaces(h.jump, h.hash, namespaces, effective);
    }
    assert peers[..|peers|] == peers;
    var built := BuildEntries(h, namespaces, assignments, buckets, peers[..effective]);
    m := ShardMap(built, recorded);
  }

  lemma NothingPastBuckets(h: Hashing, names: seq<string>, buckets: int, b: int)
    requires ValidBucketCount(buckets) && buckets <= b
    ensures Assigned(h.jump, h.hash, names, buckets, b) == []
  {
    forall ns | ns in names ensures !InBucket(h.jump, h.hash, buckets, b)(ns) {
      BucketIsLastJump(h.jump, h.hash(ns), buckets, b);
    }
    FilterNone(InBucket(h.jump, h.hash, buckets, b), names);
  }

  /** Gives bucket `i` to `owners[i]`; an index without a bucket reads as no namespaces. */
  method BuildEntries(h: Hashing, namespaces: seq<string>, assignments: map<int, seq<string>>, buckets: int, owners: seq<string>)
    returns (built: map<string, seq<string>>)
    requires ValidBucketCount(buckets)
    requires forall b :: b in assignments <==> 0 <= b < buckets
    requires forall b :: b in assignments ==> assignments[b] == Assigned(h.jump, h.hash, namespaces, buckets, b)
    ensures forall recorded :: built == Entries(h, namespaces, Plan(buckets, owners, recorded), |owners|)
  {
    built := map[];
    for i := 0 to |owners|
      invariant forall recorded :: built == Entries(h, namespaces, Plan(buckets, owners, recorded), i)
    {
      if i >= buckets {
        NothingPastBuckets(h, namespaces, buckets, i);
      }
      var mine := if i in assignments then assignments[i] else [];
      built := built[owners[i] := Sort(mine)];
    }
  }

  /** The members of `from` that `other` lacks. The loop visits `from` in an arbitrary order. */
  method Missing(from: set<string>, other: set<string>) returns (result: seq<string>)
    ensures IsSorted(result) && Distinct(result)
    ensures forall ns :: ns in result <==> ns in from && ns !in other
  {
    var found: seq<string> := [];
    var todo := from;
    while todo != {}
      invariant todo <= from && Distinct(found)
      invariant forall ns :: ns in found <==> ns in from && ns !in todo && ns !in other
      decreases todo
    {
      var ns :| ns in todo;
      if ns !in other {
        found := found + [ns];
      }
      todo := todo - {ns};
    }
    SortPermutes(found);
    SortSorts(found);
    PermutationDistinct(found, Sort(found));
    result := Sort(found);
  }
}
