/**
 The policy half of the CRD watcher: add, update and delete events keep a store of the valid
 policies, and every change rebuilds the filter engine's list from that store.
 */
module PolicyWatcher {
  import opened Prelude
  import opened Ordering
  import opened FilterEngine

  datatype Match = Match(resourceSelector: Option<LabelSelector>, ownerNames: seq<string>)

  datatype WormsignPolicy = WormsignPolicy(
    name: string,
    ns: string,
    action: string,
    detectors: seq<string>,
    namespaceSelector: Option<LabelSelector>,
    criteria: Option<Match>,
    schedule: Option<Schedule>)

  datatype Defect = BadAction | ScheduleNotAllowed | EmptyWindow | EmptyOwnerName

  /** The Ready condition, and the Active condition that goes with it. */
  datatype Status = Status(defect: Option<Defect>, active: bool)

  datatype Event = Upsert(policy: WormsignPolicy) | Delete(key: string)

  function CrdKey(ns: string, name: string): string {
    if ns == "" then name else ns + "/" + name
  }

  function KeyOf(p: WormsignPolicy): string {
    CrdKey(p.ns, p.name)
  }

  /** Keys are faithful: names without a slash are recovered from the key. */
  lemma CrdKeyInjective(ns: string, name: string, ns': string, name': string)
    requires '/' !in ns && '/' !in name && '/' !in ns' && '/' !in name'
    requires CrdKey(ns, name) == CrdKey(ns', name')
    ensures ns == ns' && name == name'
  {
    var key := CrdKey(ns, name);
    KeyShape(ns, name);
    KeyShape(ns', name');
    assert ns != "" ==> ns == key[..|ns|] && name == key[|ns| + 1..];
    assert ns' != "" ==> ns' == key[..|ns'|] && name' == key[|ns'| + 1..];
  }

  lemma KeyShape(ns: string, name: string)
    requires '/' !in ns && '/' !in name
    ensures ns == "" ==> '/' !in CrdKey(ns, name)
    ensures ns != "" ==> |ns| < |CrdKey(ns, name)| && CrdKey(ns, name)[|ns|] == '/'
    ensures ns != "" ==> forall k :: 0 <= k < |ns| ==> CrdKey(ns, name)[k] != '/'
  {
  }

  ghost predicate ValidPolicy(p: WormsignPolicy) {
    && p.action in {"Exclude", "Suppress"}
    && (p.schedule.Some? ==> p.action == "Suppress" && p.schedule.value.start < p.schedule.value.end)
    && (p.criteria.Some? ==> forall pattern :: pattern in p.criteria.value.ownerNames ==> pattern != "")
  }

  function Convert(p: WormsignPolicy): Policy {
    Policy(p.name, p.ns, p.action, p.detectors, p.namespaceSelector,
           if p.criteria.Some? then p.criteria.value.resourceSelector else None,
           if p.criteria.Some? then p.criteria.value.ownerNames else [],
           p.schedule)
  }

  // ----- what a policy resource means -----

  predicate CoversNamespace(p: WormsignPolicy, ns: NamespaceMeta) {
    match p.namespaceSelector
    case Some(selector) => MatchesSelector(ns.labels, selector)
    case None => p.ns == ns.name
  }

  predicate CoversDetector(p: WormsignPolicy, detector: string) {
    p.detectors == [] || detector in p.detectors
  }

  /** A suppress policy silences what it covers, during its window if it has one. */
  predicate Silences(p: WormsignPolicy, input: FilterInput, now: int) {
    && p.action == "Suppress" && CoversNamespace(p, input.namespace) && CoversDetector(p, input.detector)
    && match p.schedule
       case Some(window) => window.start <= now && now <= window.end
       case None => true
  }

  /** An exclude policy removes what it covers, if the resource has the labels and an owner matches a pattern, where given. */
  predicate Removes(lib: Library, p: WormsignPolicy, input: FilterInput) {
    && p.action == "Exclude" && CoversNamespace(p, input.namespace) && CoversDetector(p, input.detector)
    && match p.criteria
       case None => true
       case Some(criteria) =>
         && (criteria.resourceSelector == None || MatchesSelector(input.resourceLabels, criteria.resourceSelector.value))
         && (criteria.ownerNames == [] || OwnerMatches(lib, input.owners, criteria.ownerNames))
  }

  /** The conversion keeps the meaning and the name. */
  lemma ConvertKeepsMeaning(lib: Library, p: WormsignPolicy, input: FilterInput, now: int)
    ensures SuppressApplies(Convert(p), input, now) <==> Silences(p, input, now)
    ensures ExcludeApplies(lib, Convert(p), input) <==> Removes(lib, p, input)
    ensures Convert(p).name == p.name
  {
  }

  // ----- what a history of events leaves in force -----

  /** The event decides what is in force for the key: a valid version of it, or its deletion. */
  ghost predicate Settles(e: Event, key: string) {
    if e.Delete? then e.key == key else KeyOf(e.policy) == key && ValidPolicy(e.policy)
  }

  /** The last valid version of a key that has not been deleted since. */
  ghost function LastValid(history: seq<Event>, key: string): Option<WormsignPolicy> {
    if history == [] then None
    else
      var last := history[|history| - 1];
      if Settles(last, key) then if last.Delete? then None else Some(last.policy)
      else LastValid(history[..|history| - 1], key)
  }

  lemma LastValidSnoc(history: seq<Event>, e: Event, key: string)
    ensures LastValid(history + [e], key)
         == if !Settles(e, key) then LastValid(history, key) else if e.Delete? then None else Some(e.policy)
  {
    assert (history + [e])[..|history|] == history;
  }

  /** Event i put the version in force and nothing later settled the key. */
  ghost predicate InForceSince(history: seq<Event>, key: string, i: nat, p: WormsignPolicy) {
    && i < |history| && history[i] == Upsert(p) && Settles(history[i], key)
    && forall j :: i < j < |history| ==> !Settles(history[j], key)
  }

  lemma {:induction false} LastValidIsInForce(history: seq<Event>, key: string, p: WormsignPolicy)
    ensures LastValid(history, key) == Some(p) <==> exists i :: InForceSince(history, key, i, p)
  {
    if history != [] {
      var init, n := history[..|history| - 1], |history| - 1;
      LastValidIsInForce(init, key, p);
      if LastValid(history, key) == Some(p) {
        if Settles(history[n], key) {
          assert InForceSince(history, key, n, p);
        } else {
          var i :| InForceSince(init, key, i, p);
          assert InForceSince(history, key, i, p);
        }
      }
      if i: nat :| InForceSince(history, key, i, p) {
        if i < n {
          assert InForceSince(init, key, i, p);
        }
      }
    }
  }

  /** The version in force depends only on the order of the events that settle the key. */
  lemma {:induction false} LastValidProjects(history: seq<Event>, key: string, settles: Event -> bool)
    requires forall e :: settles(e) == Settles(e, key)
    ensures LastValid(Filter(settles, history), key) == LastValid(history, key)
  {
    if history != [] {
      var init, last := history[..|history| - 1], history[|history| - 1];
      LastValidProjects(init, key, settles);
      if settles(last) {
        LastValidSnoc(Filter(settles, init), last, key);
      }
    }
  }

  // ----- the engine's list -----

  ghost predicate Listing(keys: seq<string>, policies: seq<Policy>, history: seq<Event>) {
    && IsSorted(keys) && Distinct(keys) && |policies| == |keys|
    && (forall key :: key in keys <==> LastValid(history, key).Some?)
    && (forall i :: 0 <= i < |keys| ==>
          LastValid(history, keys[i]).Some? && policies[i] == Convert(LastValid(history, keys[i]).value))
  }

  /** The list holds the converted version in force of every live key, in key order. */
  ghost predicate Lists(policies: seq<Policy>, history: seq<Event>) {
    exists keys :: Listing(keys, policies, history)
  }

  /** Histories that leave the same versions in force leave the same list, element by element. */
  lemma SameVersionsSameList(policies: seq<Policy>, policies': seq<Policy>, history: seq<Event>, history': seq<Event>)
    requires Lists(policies, history) && Lists(policies', history')
    requires forall key :: LastValid(history, key) == LastValid(history', key)
    ensures policies == policies'
  {
    var keys :| Listing(keys, policies, history);
    var keys' :| Listing(keys', policies', history');
    assert forall key :: key in keys <==> key in keys';
    DistinctSameMembers(keys, keys');
    SortedUnique(keys, keys');
  }

  /** Events of different policies may arrive in any order relative to each other. */
  lemma InterleavingIrrelevant(policies: seq<Policy>, policies': seq<Policy>, history: seq<Event>, history': seq<Event>,
                               settles: string -> Event -> bool)
    requires forall key, e :: settles(key)(e) == Settles(e, key)
    requires forall key :: Filter(settles(key), history) == Filter(settles(key), history')
    requires Lists(policies, history) && Lists(policies', history')
    ensures policies == policies'
  {
    forall key ensures LastValid(history, key) == LastValid(history', key) {
      LastValidProjects(history, key, settles(key));
      LastValidProjects(history', key, settles(key));
    }
    SameVersionsSameList(policies, policies', history, history');
  }

  /** Some version in force applies. */
  ghost predicate InForceApplies(history: seq<Event>, applies: Policy -> bool) {
    exists key :: LastValid(history, key).Some? && applies(Convert(LastValid(history, key).value))
  }

  lemma ListedIffInForce(policies: seq<Policy>, history: seq<Event>, applies: Policy -> bool)
    requires Lists(policies, history)
    ensures (exists p :: p in policies && applies(p)) <==> InForceApplies(history, applies)
  {
    var keys :| Listing(keys, policies, history);
    if p :| p in policies && applies(p) {
      var i :| 0 <= i < |policies| && policies[i] == p;
      assert LastValid(history, keys[i]).Some? && applies(Convert(LastValid(history, keys[i]).value));
    }
    if key :| LastValid(history, key).Some? && applies(Convert(LastValid(history, key).value)) {
      assert key in keys;
      var i :| 0 <= i < |keys| && keys[i] == key;
      assert policies[i] in policies && applies(policies[i]);
    }
  }

  ghost predicate NamesGiven(history: seq<Event>) {
    forall e :: e in history && e.Upsert? ==> e.policy.name != ""
  }

  lemma {:induction false} InForceNamed(history: seq<Event>, key: string)
    requires NamesGiven(history)
    ensures LastValid(history, key).Some? ==> LastValid(history, key).value.name != ""
  {
    if history != [] {
      assert history[|history| - 1] in history;
      InForceNamed(history[..|history| - 1], key);
    }
  }

  lemma ListedNamed(policies: seq<Policy>, history: seq<Event>)
    requires Lists(policies, history) && NamesGiven(history)
    ensures Named(policies)
  {
    var keys :| Listing(keys, policies, history);
    forall p | p in policies ensures p.name != "" {
      var i :| 0 <= i < |policies| && policies[i] == p;
      InForceNamed(history, keys[i]);
    }
  }

  /** What the policies in force ask for. */
  ghost function HitsInForce(lib: Library, history: seq<Event>, input: FilterInput, now: int): PolicyHits {
    PolicyHits(exists key :: LastValid(history, key).Some? && Silences(LastValid(history, key).value, input, now),
               exists key :: LastValid(history, key).Some? && Removes(lib, LastValid(history, key).value, input))
  }

  lemma InForceMeans(lib: Library, history: seq<Event>, input: FilterInput, now: int)
    ensures HitsInForce(lib, history, input, now)
         == PolicyHits(InForceApplies(history, Suppresses(input, now)), InForceApplies(history, Excludes(lib, input)))
  {
    forall key | LastValid(history, key).Some?
      ensures var p := LastValid(history, key).value;
        && Suppresses(input, now)(Convert(p)) == Silences(p, input, now)
        && Excludes(lib, input)(Convert(p)) == Removes(lib, p, input)
    {
      ConvertKeepsMeaning(lib, LastValid(history, key).value, input, now);
    }
  }

  /** End to end: the answer follows from the nine levels and the policies in force alone. */
  lemma HistoryDecides(lib: Library, cfg: GlobalConfig, policies: seq<Policy>, history: seq<Event>, input: FilterInput, now: int,
                       r: FilterResult)
    requires Lists(policies, history) && NamesGiven(history)
    requires Decides(lib, cfg, input, Found(lib, policies, input, now), r)
    ensures Decides(lib, cfg, input, HitsInForce(lib, history, input, now), r)
  {
    ListedNamed(policies, history);
    NamedPoliciesMeetPromise(lib, cfg, policies, input, now, r);
    ListedIffInForce(policies, history, Suppresses(input, now));
    ListedIffInForce(policies, history, Excludes(lib, input));
    InForceMeans(lib, history, input, now);
    assert Promised(lib, policies, input, now) == HitsInForce(lib, history, input, now);
  }

  /** A key settled by its deletion, with no valid version since, contributes nothing. */
  lemma {:induction false} DeletedStaysOut(history: seq<Event>, key: string, i: nat)
    requires i < |history| && history[i] == Delete(key)
    requires forall j :: i < j < |history| ==> !Settles(history[j], key)
    ensures LastValid(history, key) == None
  {
    if i < |history| - 1 {
      DeletedStaysOut(history[..|history| - 1], key, i);
    }
  }

  // ----- the watcher as written -----

  /** The conversions of the stored policies, key by key. */
  method ConvertAll(keys: seq<string>, store: map<string, WormsignPolicy>) returns (policies: seq<Policy>)
    requires forall key :: key in keys ==> key in store
    ensures |policies| == |keys| && forall i :: 0 <= i < |keys| ==> policies[i] == Convert(store[keys[i]])
  {
    policies := [];
    for i := 0 to |keys|
      invariant |policies| == i && forall k :: 0 <= k < i ==> policies[k] == Convert(store[keys[k]])
    {
      policies := policies + [Convert(store[keys[i]])];
    }
  }

  /** The keys that are stored and marked valid, in whatever order the map yields them. */
  method CollectKeys(stored: set<string>, valid: set<string>) returns (keys: seq<string>)
    ensures Distinct(keys) && forall key :: key in keys <==> key in stored && key in valid
  {
    keys := [];
    var todo := stored;
    while todo != {}
      invariant todo <= stored && Distinct(keys)
      invariant forall key :: key in keys <==> key in stored - todo && key in valid
      decreases |todo|
    {
      var key :| key in todo;
      todo := todo - {key};
      if key in valid {
        keys := keys + [key];
      }
    }
  }

  method Validate(p: WormsignPolicy) returns (defect: Option<Defect>)
    ensures defect.None? <==> ValidPolicy(p)
    ensures defect == Some(BadAction) <==> p.action !in {"Exclude", "Suppress"}
    ensures defect == Some(ScheduleNotAllowed) <==> p.action == "Exclude" && p.schedule.Some?
    ensures defect == Some(EmptyWindow) <==>
      p.action == "Suppress" && p.schedule.Some? && p.schedule.value.end <= p.schedule.value.start
  {
    if p.action != "Exclude" && p.action != "Suppress" {
      return Some(BadAction);
    }
    if p.schedule.Some? && p.action != "Suppress" {
      return Some(ScheduleNotAllowed);
    }
    if p.schedule.Some? {
      if !(p.schedule.value.end > p.schedule.value.start) {
        return Some(EmptyWindow);
      }
    }
    if p.criteria.Some? {
      var patterns := p.criteria.value.ownerNames;
      for i := 0 to |patterns|
        invariant forall k :: 0 <= k < i ==> patterns[k] != ""
      {
        if patterns[i] == "" {
          assert patterns[i] in patterns;
          return Some(EmptyOwnerName);
        }
      }
    }
    return None;
  }

  ghost predicate Stores(store: map<string, WormsignPolicy>, history: seq<Event>) {
    forall key :: LastValid(history, key) == if key in store then Some(store[key]) else None
  }

  /** The sorted keys of a store that agrees with the history give its list. */
  lemma StoreListed(collected: seq<string>, policies: seq<Policy>, store: map<string, WormsignPolicy>, history: seq<Event>)
    requires Stores(store, history)
    requires Distinct(collected) && forall key :: key in collected <==> key in store
    requires |policies| == |Sort(collected)|
    requires forall i :: 0 <= i < |policies| ==> Sort(collected)[i] in store && policies[i] == Convert(store[Sort(collected)[i]])
    ensures Lists(policies, history)
  {
    SortPermutes(collected);
    SortSorts(collected);
    PermutationDistinct(collected, Sort(collected));
    assert Listing(Sort(collected), policies, history);
  }

  class CRDWatcher {
    const engine: Engine
    var policyStore: map<string, WormsignPolicy>
    var validPolicies: set<string>
    /** Every event handled so far. */
    ghost var history: seq<Event>

    ghost predicate Consistent()
      reads this
    {
      Stores(policyStore, history) && validPolicies == policyStore.Keys
    }

    ghost predicate Valid()
      reads this, engine
    {
      Consistent() && Lists(engine.policies, history)
    }

    constructor (engine: Engine)
      requires engine.policies == []
      ensures this.engine == engine && Valid() && history == []
    {
      this.engine := engine;
      policyStore, validPolicies, history := map[], {}, [];
      new;
      assert Listing([], engine.policies, history);
    }

    method RebuildPolicies()
      requires Consistent()
      modifies engine
      ensures Lists(engine.policies, history)
    {
      var collected := CollectKeys(policyStore.Keys, validPolicies);
      var keys := Sort(collected);
      SortPermutes(collected);
      var policies := ConvertAll(keys, policyStore);
      StoreListed(collected, policies, policyStore, history);
      engine.SetPolicies(policies);
    }

    /** An invalid version leaves the previous one in force, and the status says so. */
    method HandlePolicy(p: WormsignPolicy) returns (status: Status)
      requires Valid()
      modifies this, engine
      ensures Valid() && history == old(history) + [Upsert(p)]
      ensures status.defect.None? <==> ValidPolicy(p)
      ensures status.active <==> LastValid(history, KeyOf(p)).Some?
      ensures !ValidPolicy(p) ==> policyStore == old(policyStore) && engine.policies == old(engine.policies)
    {
      var key := CrdKey(p.ns, p.name);
      var defect := Validate(p);
      ghost var before := history;
      forall k ensures LastValid(before + [Upsert(p)], k)
                    == if ValidPolicy(p) && k == key then Some(p) else LastValid(before, k) {
        LastValidSnoc(before, Upsert(p), k);
      }
      history := history + [Upsert(p)];
      if defect.Some? {
        ghost var keys :| Listing(keys, engine.policies, before);
        assert Listing(keys, engine.policies, history);
        return Status(defect, key in validPolicies);
      }
      policyStore := policyStore[key := p];
      validPolicies := validPolicies + {key};
      RebuildPolicies();
      return Status(None, true);
    }

    method OnPolicyDelete(key: string)
      requires Valid()
      modifies this, engine
      ensures Valid() && history == old(history) + [Delete(key)]
    {
      ghost var before := history;
      forall k ensures LastValid(before + [Delete(key)], k) == if k == key then None else LastValid(before, k) {
        LastValidSnoc(before, Delete(key), k);
      }
      history := history + [Delete(key)];
      validPolicies := validPolicies - {key};
      policyStore := policyStore - {key};
      RebuildPolicies();
    }

    /** Any sequence of deliveries. */
    method Run(events: seq<Event>)
      requires Valid()
      modifies this, engine
      ensures Valid() && history == old(history) + events
    {
      for i := 0 to |events|
        invariant Valid() && history == old(history) + events[..i]
      {
        match events[i]
        case Upsert(p) => var _ := HandlePolicy(p);
        case Delete(key) => OnPolicyDelete(key);
      }
    }
  }

  /** From start-up, through any events, to an answer about any input. */
  method WatchThenEvaluate(lib: Library, cfg: GlobalConfig, events: seq<Event>, input: FilterInput, now: int)
    returns (result: FilterResult)
    requires NamesGiven(events)
    ensures Decides(lib, cfg, input, HitsInForce(lib, events, input, now), result)
  {
    var engine := new Engine(lib, cfg);
    var watcher := new CRDWatcher(engine);
    watcher.Run(events);
    assert watcher.history == events;
    result := engine.Evaluate(input, now);
    HistoryDecides(lib, cfg, engine.policies, events, input, now, result);
  }
}
