/**
 The pre-analysis correlation engine. Four rules run in priority order over one window
 of events and share a set of consumed event IDs. Each rule collects groups by key; the
 specification of a rule does not mention the order in which Go visits the group map.
 */
module Correlator {
  import opened Prelude
  import opened Events

  datatype Rule = NodeCascade | DeploymentRollout | StorageCascade | NamespaceStorm

  const RULES := [NodeCascade, DeploymentRollout, StorageCascade, NamespaceStorm]

  datatype Config = Config(
    windowDuration: int,
    nodeCascade: bool, nodeMinPods: int,
    deploymentRollout: bool, rolloutMinPods: int,
    storageCascade: bool,
    namespaceStorm: bool, stormThreshold: int)

  predicate ValidConfig(cfg: Config) {
    && 0 < cfg.windowDuration
    && (cfg.nodeCascade ==> 1 <= cfg.nodeMinPods)
    && (cfg.deploymentRollout ==> 1 <= cfg.rolloutMinPods)
    && (cfg.namespaceStorm ==> 1 <= cfg.stormThreshold)
  }

  predicate RuleEnabled(cfg: Config, rule: Rule) {
    match rule
    case NodeCascade => cfg.nodeCascade
    case DeploymentRollout => cfg.deploymentRollout
    case StorageCascade => cfg.storageCascade
    case NamespaceStorm => cfg.namespaceStorm
  }

  /** The smallest group of non-trigger events that a rule accepts. */
  function MinMembers(cfg: Config, rule: Rule): int {
    match rule
    case NodeCascade => cfg.nodeMinPods
    case DeploymentRollout => cfg.rolloutMinPods
    case StorageCascade => 1
    case NamespaceStorm => cfg.stormThreshold + 1
  }

  datatype Key = Key(ns: string, name: string)

  /** The UUID drawn when a rule creates the super-event of a key; drawing can fail. */
  type Uuids = (Rule, Key) -> Option<string>

  function Annotation(e: FaultEvent, key: string): string {
    if key in e.annotations then e.annotations[key] else ""
  }

  /** Cascades need a trigger event: the failing node or the unbound claim. */
  predicate HasTrigger(rule: Rule) {
    rule == NodeCascade || rule == StorageCascade
  }

  function TriggerKey(rule: Rule, e: FaultEvent): Option<Key> {
    match rule
    case NodeCascade =>
      if e.detector == "NodeNotReady" && e.resource.kind == "Node" then Some(Key("", e.resource.name)) else None
    case StorageCascade =>
      if e.detector == "PVCStuckBinding" && e.resource.kind == "PersistentVolumeClaim"
      then Some(Key(e.resource.ns, e.resource.name)) else None
    case _ => None
  }

  function PodKey(e: FaultEvent, ns: string, annotation: string): Option<Key> {
    if e.resource.kind == "Pod" && Annotation(e, annotation) != "" then Some(Key(ns, Annotation(e, annotation))) else None
  }

  function MemberKey(rule: Rule, e: FaultEvent): Option<Key> {
    match rule
    case NodeCascade => PodKey(e, "", "wormsign.io/node-name")
    case DeploymentRollout => PodKey(e, e.resource.ns, "wormsign.io/owner-deployment")
    case StorageCascade => PodKey(e, e.resource.ns, "wormsign.io/pvc-name")
    case NamespaceStorm => if e.resource.ns != "" then Some(Key("", e.resource.ns)) else None
  }

  /** The latest trigger for `k`: a later one replaces an earlier one. */
  function LastTrigger(rule: Rule, live: seq<FaultEvent>, k: Key): Option<FaultEvent> {
    if live == [] then None
    else if TriggerKey(rule, live[|live| - 1]) == Some(k) then Some(live[|live| - 1])
    else LastTrigger(rule, live[..|live| - 1], k)
  }

  function InGroup(rule: Rule, k: Key): FaultEvent -> bool {
    (e: FaultEvent) => MemberKey(rule, e) == Some(k)
  }

  function Members(rule: Rule, live: seq<FaultEvent>, k: Key): seq<FaultEvent> {
    Filter(InGroup(rule, k), live)
  }

  predicate Qualifies(cfg: Config, rule: Rule, live: seq<FaultEvent>, k: Key) {
    && (HasTrigger(rule) ==> LastTrigger(rule, live, k).Some?)
    && MinMembers(cfg, rule) <= |Members(rule, live, k)|
    && Members(rule, live, k) != []
  }

  function Group(rule: Rule, live: seq<FaultEvent>, k: Key): seq<FaultEvent>
    requires HasTrigger(rule) ==> LastTrigger(rule, live, k).Some?
  {
    (if HasTrigger(rule) then [LastTrigger(rule, live, k).value] else []) + Members(rule, live, k)
  }

  function Primary(rule: Rule, live: seq<FaultEvent>, k: Key): ResourceRef
    requires HasTrigger(rule) ==> LastTrigger(rule, live, k).Some?
  {
    match rule
    case NodeCascade => LastTrigger(rule, live, k).value.resource
    case StorageCascade => LastTrigger(rule, live, k).value.resource
    case DeploymentRollout => ResourceRef("Deployment", k.ns, k.name, "")
    case NamespaceStorm => ResourceRef("Namespace", "", k.name, "")
  }

  function RuleName(rule: Rule): string {
    match rule
    case NodeCascade => "NodeCascade"
    case DeploymentRollout => "DeploymentRollout"
    case StorageCascade => "StorageCascade"
    case NamespaceStorm => "NamespaceStorm"
  }

  function Build(rule: Rule, live: seq<FaultEvent>, uuids: Uuids, k: Key): Option<SuperEvent>
    requires HasTrigger(rule) ==> LastTrigger(rule, live, k).Some?
  {
    NewSuperEvent(RuleName(rule), Primary(rule, live, k), Group(rule, live, k), uuids(rule, k))
  }

  /** The key a super-event of `rule` was built for. */
  function KeyOf(rule: Rule, se: SuperEvent): Key {
    match rule
    case NodeCascade => Key("", se.primary.name)
    case NamespaceStorm => Key("", se.primary.name)
    case _ => Key(se.primary.ns, se.primary.name)
  }

  // ----- facts about one group -----

  function GroupKey(rule: Rule, e: FaultEvent): Option<Key> {
    if TriggerKey(rule, e).Some? then TriggerKey(rule, e) else MemberKey(rule, e)
  }

  lemma {:induction false} TriggerFacts(rule: Rule, live: seq<FaultEvent>, k: Key)
    ensures LastTrigger(rule, live, k).Some? ==>
      LastTrigger(rule, live, k).value in live && TriggerKey(rule, LastTrigger(rule, live, k).value) == Some(k)
  {
    if live != [] && TriggerKey(rule, live[|live| - 1]) != Some(k) {
      TriggerFacts(rule, live[..|live| - 1], k);
    }
  }

  lemma MemberFacts(rule: Rule, live: seq<FaultEvent>, k: Key, e: FaultEvent)
    ensures e in Members(rule, live, k) <==> e in live && MemberKey(rule, e) == Some(k)
  {
    FilterMember(InGroup(rule, k), live, e);
  }

  /** A group is made of different live events, all of them of its key. */
  lemma GroupFacts(rule: Rule, live: seq<FaultEvent>, k: Key)
    requires Distinct(live) && (HasTrigger(rule) ==> LastTrigger(rule, live, k).Some?)
    ensures Distinct(Group(rule, live, k))
    ensures forall e :: e in Group(rule, live, k) ==> e in live && GroupKey(rule, e) == Some(k)
  {
    TriggerFacts(rule, live, k);
    FilterDistinct(InGroup(rule, k), live);
    forall e | e in Members(rule, live, k) ensures e in live && TriggerKey(rule, e) == None && MemberKey(rule, e) == Some(k) {
      MemberFacts(rule, live, k, e);
    }
  }

  /** For a qualifying key the validity checks of NewSuperEvent pass: only drawing a UUID can fail. */
  lemma BuildFacts(cfg: Config, rule: Rule, live: seq<FaultEvent>, uuids: Uuids, k: Key)
    requires Qualifies(cfg, rule, live, k)
    ensures Build(rule, live, uuids, k).Some? <==> uuids(rule, k).Some?
    ensures Build(rule, live, uuids, k).Some? ==>
      var se := Build(rule, live, uuids, k).value;
      KeyOf(rule, se) == k && se.events == Group(rule, live, k) && se.severity == Highest(se.events)
  {
    TriggerFacts(rule, live, k);
    var e := Members(rule, live, k)[0];
    MemberFacts(rule, live, k, e);
    assert k.name != "";
  }

  // ----- the specification of one rule -----

  /** `supers` has one super-event for each qualifying key whose UUID could be drawn, in any order. */
  ghost predicate RuleSpec(cfg: Config, rule: Rule, live: seq<FaultEvent>, uuids: Uuids, supers: seq<SuperEvent>) {
    && (forall i, j :: 0 <= i < j < |supers| ==> KeyOf(rule, supers[i]) != KeyOf(rule, supers[j]))
    && (forall i :: 0 <= i < |supers| ==> Makes(cfg, rule, live, uuids, supers[i]))
    && (forall k :: Qualifies(cfg, rule, live, k) && Build(rule, live, uuids, k).Some? ==>
          Build(rule, live, uuids, k).value in supers)
  }

  ghost predicate Makes(cfg: Config, rule: Rule, live: seq<FaultEvent>, uuids: Uuids, se: SuperEvent) {
    && Qualifies(cfg, rule, live, KeyOf(rule, se))
    && Build(rule, live, uuids, KeyOf(rule, se)) == Some(se)
  }

  // ----- consumption and conservation -----

  function NotIn(consumed: set<string>): FaultEvent -> bool {
    (e: FaultEvent) => e.id !in consumed
  }

  function Unconsumed(events: seq<FaultEvent>, consumed: set<string>): seq<FaultEvent> {
    Filter(NotIn(consumed), events)
  }

  function Ids(events: seq<FaultEvent>): set<string> {
    set e | e in events :: e.id
  }

  /** The IDs that a list of super-events consumes. */
  function ConsumedBy(supers: seq<SuperEvent>): set<string> {
    if supers == [] then {} else ConsumedBy(supers[..|supers| - 1]) + Ids(supers[|supers| - 1].events)
  }

  /** The constituents of a list of super-events, one after the other. */
  function EventsOf(supers: seq<SuperEvent>): seq<FaultEvent> {
    if supers == [] then [] else EventsOf(supers[..|supers| - 1]) + supers[|supers| - 1].events
  }

  ghost predicate DistinctIds(events: seq<FaultEvent>) {
    forall i, j :: 0 <= i < j < |events| ==> events[i].id != events[j].id
  }

  lemma UnconsumedMember(events: seq<FaultEvent>, consumed: set<string>, e: FaultEvent)
    ensures e in Unconsumed(events, consumed) <==> e in events && e.id !in consumed
  {
    FilterMember(NotIn(consumed), events, e);
  }

  lemma {:induction false} UnconsumedDistinct(events: seq<FaultEvent>, consumed: set<string>)
    requires DistinctIds(events)
    ensures DistinctIds(Unconsumed(events, consumed)) && Distinct(Unconsumed(events, consumed))
  {
    if events != [] {
      var init := events[..|events| - 1];
      UnconsumedDistinct(init, consumed);
      var rest := Unconsumed(init, consumed);
      forall i | 0 <= i < |rest| ensures rest[i].id != events[|events| - 1].id {
        UnconsumedMember(init, consumed, rest[i]);
      }
    }
  }

  lemma UnconsumedTwice(events: seq<FaultEvent>, c: set<string>, d: set<string>)
    ensures Unconsumed(Unconsumed(events, c), d) == Unconsumed(events, c + d)
  {
    FilterTwice(NotIn(c), NotIn(d), NotIn(c + d), events);
  }

  lemma UnconsumedNone(events: seq<FaultEvent>)
    ensures Unconsumed(events, {}) == events
  {
    FilterAll(NotIn({}), events);
  }

  lemma SameId(events: seq<FaultEvent>, a: FaultEvent, b: FaultEvent)
    requires DistinctIds(events) && a in events && b in events && a.id == b.id
    ensures a == b
  {
  }

  /** Consuming a group of live events takes away exactly that group. */
  lemma ConsumeGroup(live: seq<FaultEvent>, consumed: set<string>, group: seq<FaultEvent>)
    requires DistinctIds(live) && Distinct(group)
    requires forall e :: e in group ==> e in live && e.id !in consumed
    ensures multiset(Unconsumed(live, consumed)) == multiset(group) + multiset(Unconsumed(live, consumed + Ids(group)))
  {
    var before, after := Unconsumed(live, consumed), Unconsumed(live, consumed + Ids(group));
    UnconsumedDistinct(live, consumed);
    UnconsumedDistinct(live, consumed + Ids(group));
    DistinctOnce(before);
    DistinctOnce(after);
    DistinctOnce(group);
    forall e ensures e in before <==> e in group || e in after {
      UnconsumedMember(live, consumed, e);
      UnconsumedMember(live, consumed + Ids(group), e);
      if e in live && e.id in Ids(group) {
        var g :| g in group && g.id == e.id;
        SameId(live, e, g);
      }
    }
    forall e | e in group ensures e !in after {
      UnconsumedMember(live, consumed + Ids(group), e);
    }
    assert (set x | x in before) == (set x | x in group) + (set x | x in after);
  }

  lemma {:induction false} ConsumedByMember(supers: seq<SuperEvent>, id: string)
    ensures id in ConsumedBy(supers) <==> exists i :: 0 <= i < |supers| && id in Ids(supers[i].events)
  {
    if supers != [] {
      ConsumedByMember(supers[..|supers| - 1], id);
      if id in ConsumedBy(supers[..|supers| - 1]) {
        var i :| 0 <= i < |supers| - 1 && id in Ids(supers[..|supers| - 1][i].events);
        assert id in Ids(supers[i].events);
      }
      if i: int :| 0 <= i < |supers| && id in Ids(supers[i].events) {
        assert i < |supers| - 1 ==> id in Ids(supers[..|supers| - 1][i].events);
      }
    }
  }

  /** The groups of one rule do not overlap. */
  lemma GroupsDisjoint(cfg: Config, rule: Rule, live: seq<FaultEvent>, uuids: Uuids, a: SuperEvent, b: SuperEvent)
    requires DistinctIds(live) && Makes(cfg, rule, live, uuids, a) && Makes(cfg, rule, live, uuids, b)
    requires KeyOf(rule, a) != KeyOf(rule, b)
    ensures Ids(a.events) !! Ids(b.events)
  {
    BuildFacts(cfg, rule, live, uuids, KeyOf(rule, a));
    BuildFacts(cfg, rule, live, uuids, KeyOf(rule, b));
    assert Distinct(live);
    GroupFacts(rule, live, KeyOf(rule, a));
    GroupFacts(rule, live, KeyOf(rule, b));
    forall x, y | x in a.events && y in b.events ensures x.id != y.id {
      if x.id == y.id {
        SameId(live, x, y);
      }
    }
  }

  /** The events of one more group have not been consumed by the groups before it. */
  lemma GroupUntouched(cfg: Config, rule: Rule, live: seq<FaultEvent>, uuids: Uuids, init: seq<SuperEvent>, last: SuperEvent)
    requires DistinctIds(live) && Makes(cfg, rule, live, uuids, last)
    requires forall i :: 0 <= i < |init| ==> Makes(cfg, rule, live, uuids, init[i]) && KeyOf(rule, init[i]) != KeyOf(rule, last)
    ensures forall e :: e in last.events ==> e.id !in ConsumedBy(init)
  {
    forall e | e in last.events ensures e.id !in ConsumedBy(init) {
      ConsumedByMember(init, e.id);
      forall i | 0 <= i < |init| ensures e.id !in Ids(init[i].events) {
        GroupsDisjoint(cfg, rule, live, uuids, init[i], last);
        assert e.id in Ids(last.events);
      }
    }
  }

  lemma OneGroupConserves(cfg: Config, rule: Rule, live: seq<FaultEvent>, uuids: Uuids, init: seq<SuperEvent>, last: SuperEvent)
    requires DistinctIds(live) && Makes(cfg, rule, live, uuids, last)
    requires forall i :: 0 <= i < |init| ==> Makes(cfg, rule, live, uuids, init[i]) && KeyOf(rule, init[i]) != KeyOf(rule, last)
    ensures multiset(Unconsumed(live, ConsumedBy(init)))
         == multiset(last.events) + multiset(Unconsumed(live, ConsumedBy(init) + Ids(last.events)))
  {
    BuildFacts(cfg, rule, live, uuids, KeyOf(rule, last));
    assert Distinct(live);
    GroupFacts(rule, live, KeyOf(rule, last));
    GroupUntouched(cfg, rule, live, uuids, init, last);
    ConsumeGroup(live, ConsumedBy(init), last.events);
  }

  /** One rule moves events from the live window into its super-events and loses none. */
  lemma {:induction false} RuleConserves(cfg: Config, rule: Rule, live: seq<FaultEvent>, uuids: Uuids, supers: seq<SuperEvent>)
    requires DistinctIds(live)
    requires forall i, j :: 0 <= i < j < |supers| ==> KeyOf(rule, supers[i]) != KeyOf(rule, supers[j])
    requires forall i :: 0 <= i < |supers| ==> Makes(cfg, rule, live, uuids, supers[i])
    ensures multiset(live) == multiset(EventsOf(supers)) + multiset(Unconsumed(live, ConsumedBy(supers)))
  {
    if supers == [] {
      UnconsumedNone(live);
    } else {
      var init, last := supers[..|supers| - 1], supers[|supers| - 1];
      RuleConserves(cfg, rule, live, uuids, init);
      OneGroupConserves(cfg, rule, live, uuids, init, last);
      Regroup(multiset(EventsOf(init)), multiset(last.events), multiset(Unconsumed(live, ConsumedBy(supers))));
    }
  }

  // ----- the specification of a window -----

  datatype CorrelationResult = CorrelationResult(superEvents: seq<SuperEvent>, uncorrelated: seq<FaultEvent>)

  function Flatten(phases: seq<seq<SuperEvent>>): seq<SuperEvent> {
    if phases == [] then [] else Flatten(phases[..|phases| - 1]) + phases[|phases| - 1]
  }

  /** The IDs consumed by the phases so far. */
  function ConsumedAfter(phases: seq<seq<SuperEvent>>): set<string> {
    if phases == [] then {} else ConsumedAfter(phases[..|phases| - 1]) + ConsumedBy(phases[|phases| - 1])
  }

  /** Rule `n` sees what the rules before it left. */
  ghost predicate PhaseSpec(cfg: Config, uuids: Uuids, events: seq<FaultEvent>, phases: seq<seq<SuperEvent>>, n: nat)
    requires n < |phases| <= |RULES|
  {
    if RuleEnabled(cfg, RULES[n])
    then RuleSpec(cfg, RULES[n], Unconsumed(events, ConsumedAfter(phases[..n])), uuids, phases[n])
    else phases[n] == []
  }

  ghost predicate PhasesSpec(cfg: Config, uuids: Uuids, events: seq<FaultEvent>, phases: seq<seq<SuperEvent>>) {
    |phases| <= |RULES| && forall n :: 0 <= n < |phases| ==> PhaseSpec(cfg, uuids, events, phases, n)
  }

  /** `result` is what the four rules, in order, make of the window. */
  ghost predicate Explains(cfg: Config, uuids: Uuids, events: seq<FaultEvent>,
                           phases: seq<seq<SuperEvent>>, result: CorrelationResult) {
    && |phases| == |RULES|
    && PhasesSpec(cfg, uuids, events, phases)
    && result.superEvents == Flatten(phases)
    && result.uncorrelated == Unconsumed(events, ConsumedAfter(phases))
  }

  ghost predicate Correlates(cfg: Config, uuids: Uuids, events: seq<FaultEvent>, result: CorrelationResult) {
    exists phases :: Explains(cfg, uuids, events, phases, result)
  }

  lemma PhasesPrefix(cfg: Config, uuids: Uuids, events: seq<FaultEvent>, phases: seq<seq<SuperEvent>>)
    requires PhasesSpec(cfg, uuids, events, phases) && phases != []
    ensures PhasesSpec(cfg, uuids, events, phases[..|phases| - 1])
  {
    var init := phases[..|phases| - 1];
    forall n | 0 <= n < |init| ensures PhaseSpec(cfg, uuids, events, init, n) {
      assert PhaseSpec(cfg, uuids, events, phases, n);
      assert init[..n] == phases[..n];
    }
  }

  lemma EventsOfSnoc(a: seq<SuperEvent>, se: SuperEvent)
    ensures EventsOf(a + [se]) == EventsOf(a) + se.events
  {
    assert (a + [se])[..|a|] == a;
  }

  lemma Associative<T>(x: seq<T>, y: seq<T>, z: seq<T>)
    ensures x + (y + z) == (x + y) + z
  {
  }

  lemma {:induction false} EventsOfConcat(a: seq<SuperEvent>, b: seq<SuperEvent>)
    ensures EventsOf(a + b) == EventsOf(a) + EventsOf(b)
  {
    if b == [] {
      assert a + b == a;
    } else {
      var init, last := b[..|b| - 1], b[|b| - 1];
      EventsOfConcat(a, init);
      assert b == init + [last];
      Associative(a, init, [last]);
      EventsOfSnoc(a + init, last);
      Associative(EventsOf(a), EventsOf(init), last.events);
    }
  }

  lemma {:induction false} PhasesConserve(cfg: Config, uuids: Uuids, events: seq<FaultEvent>, phases: seq<seq<SuperEvent>>)
    requires DistinctIds(events) && PhasesSpec(cfg, uuids, events, phases)
    ensures multiset(events) == multiset(EventsOf(Flatten(phases))) + multiset(Unconsumed(events, ConsumedAfter(phases)))
  {
    if phases == [] {
      UnconsumedNone(events);
    } else {
      var n, init, last := |phases| - 1, phases[..|phases| - 1], phases[|phases| - 1];
      PhasesPrefix(cfg, uuids, events, phases);
      PhasesConserve(cfg, uuids, events, init);
      assert PhaseSpec(cfg, uuids, events, phases, n);
      var live := Unconsumed(events, ConsumedAfter(init));
      UnconsumedDistinct(events, ConsumedAfter(init));
      RuleConserves(cfg, RULES[n], live, uuids, last);
      UnconsumedTwice(events, ConsumedAfter(init), ConsumedBy(last));
      EventsOfConcat(Flatten(init), last);
      Regroup(multiset(EventsOf(Flatten(init))), multiset(EventsOf(last)), multiset(Unconsumed(live, ConsumedBy(last))));
    }
  }

  lemma Regroup(x: multiset<FaultEvent>, y: multiset<FaultEvent>, z: multiset<FaultEvent>)
    ensures x + (y + z) == (x + y) + z
  {
  }

  /** Conservation: every event of the window leaves it once, in one super-event or on its own. */
  lemma CorrelationConserves(cfg: Config, uuids: Uuids, events: seq<FaultEvent>, result: CorrelationResult)
    requires DistinctIds(events) && Correlates(cfg, uuids, events, result)
    ensures multiset(events) == multiset(EventsOf(result.superEvents)) + multiset(result.uncorrelated)
  {
    var phases :| Explains(cfg, uuids, events, phases, result);
    PhasesConserve(cfg, uuids, events, phases);
  }

  // ----- consequences of the specification -----

  lemma SupersDistinct(cfg: Config, rule: Rule, live: seq<FaultEvent>, uuids: Uuids, a: seq<SuperEvent>, b: seq<SuperEvent>)
    requires RuleSpec(cfg, rule, live, uuids, a) && RuleSpec(cfg, rule, live, uuids, b)
    ensures Distinct(a)
    ensures forall se :: se in a ==> se in b
  {
    forall se | se in a ensures se in b {
      assert Makes(cfg, rule, live, uuids, se);
    }
  }

  lemma ConsumedBySame(a: seq<SuperEvent>, b: seq<SuperEvent>)
    requires forall se :: se in a ==> se in b
    ensures ConsumedBy(a) <= ConsumedBy(b)
  {
    forall id | id in ConsumedBy(a) ensures id in ConsumedBy(b) {
      ConsumedByMember(a, id);
      ConsumedByMember(b, id);
      var i :| 0 <= i < |a| && id in Ids(a[i].events);
      assert a[i] in b;
    }
  }

  /** The order of Go's map iteration can only permute the super-events of a rule. */
  lemma RuleDeterministic(cfg: Config, rule: Rule, live: seq<FaultEvent>, uuids: Uuids, a: seq<SuperEvent>, b: seq<SuperEvent>)
    requires RuleSpec(cfg, rule, live, uuids, a) && RuleSpec(cfg, rule, live, uuids, b)
    ensures multiset(a) == multiset(b) && ConsumedBy(a) == ConsumedBy(b)
  {
    SupersDistinct(cfg, rule, live, uuids, a, b);
    SupersDistinct(cfg, rule, live, uuids, b, a);
    DistinctSameMembers(a, b);
    ConsumedBySame(a, b);
    ConsumedBySame(b, a);
  }

  lemma {:induction false} PhasesDeterministic(cfg: Config, uuids: Uuids, events: seq<FaultEvent>,
                                               p: seq<seq<SuperEvent>>, q: seq<seq<SuperEvent>>)
    requires PhasesSpec(cfg, uuids, events, p) && PhasesSpec(cfg, uuids, events, q) && |p| == |q|
    ensures multiset(Flatten(p)) == multiset(Flatten(q)) && ConsumedAfter(p) == ConsumedAfter(q)
  {
    if p != [] {
      var n := |p| - 1;
      PhasesPrefix(cfg, uuids, events, p);
      PhasesPrefix(cfg, uuids, events, q);
      PhasesDeterministic(cfg, uuids, events, p[..n], q[..n]);
      assert PhaseSpec(cfg, uuids, events, p, n) && PhaseSpec(cfg, uuids, events, q, n);
      if RuleEnabled(cfg, RULES[n]) {
        RuleDeterministic(cfg, RULES[n], Unconsumed(events, ConsumedAfter(p[..n])), uuids, p[n], q[n]);
      }
    }
  }

  /** Two evaluations of a window differ at most in the order of the super-event list. */
  lemma CorrelationDeterministic(cfg: Config, uuids: Uuids, events: seq<FaultEvent>, a: CorrelationResult, b: CorrelationResult)
    requires Correlates(cfg, uuids, events, a) && Correlates(cfg, uuids, events, b)
    ensures multiset(a.superEvents) == multiset(b.superEvents) && a.uncorrelated == b.uncorrelated
  {
    var p :| Explains(cfg, uuids, events, p, a);
    var q :| Explains(cfg, uuids, events, q, b);
    PhasesDeterministic(cfg, uuids, events, p, q);
  }

  lemma {:induction false} FlattenMember(phases: seq<seq<SuperEvent>>, se: SuperEvent)
    requires se in Flatten(phases)
    ensures exists n :: 0 <= n < |phases| && se in phases[n]
  {
    var last := |phases| - 1;
    if se !in phases[last] {
      FlattenMember(phases[..last], se);
      var n :| 0 <= n < last && se in phases[..last][n];
      assert se in phases[n];
    }
  }

  /** A super-event is at least as severe as each constituent, and as severe as one unless none has a known severity. */
  lemma SuperEventSeverity(cfg: Config, uuids: Uuids, events: seq<FaultEvent>, result: CorrelationResult, se: SuperEvent)
    requires Correlates(cfg, uuids, events, result) && se in result.superEvents
    ensures se.events != [] && forall e :: e in se.events ==> SeverityRank(e.severity) <= SeverityRank(se.severity)
    ensures (forall e :: e in se.events ==> !e.severity.Other?) ==> exists e :: e in se.events && e.severity == se.severity
  {
    var phases :| Explains(cfg, uuids, events, phases, result);
    FlattenMember(phases, se);
    var n :| 0 <= n < |phases| && se in phases[n];
    assert PhaseSpec(cfg, uuids, events, phases, n);
    var live := Unconsumed(events, ConsumedAfter(phases[..n]));
    assert Makes(cfg, RULES[n], live, uuids, se);
    BuildFacts(cfg, RULES[n], live, uuids, KeyOf(RULES[n], se));
    HighestIsMaximum(se.events);
    assert se.events[0] in se.events;
  }

  lemma FewerMembers(rule: Rule, live: seq<FaultEvent>, consumed: set<string>, k: Key)
    ensures |Members(rule, Unconsumed(live, consumed), k)| <= |Members(rule, live, k)|
  {
    var p, q := NotIn(consumed), InGroup(rule, k);
    var both := (e: FaultEvent) => p(e) && q(e);
    FilterTwice(p, q, both, live);
    FilterTwice(q, p, both, live);
    FilterLength(p, Members(rule, live, k));
  }

  /** With the storm rule on, and UUIDs available to it, no namespace keeps more than the threshold. */
  lemma StormBoundsLeftovers(cfg: Config, uuids: Uuids, events: seq<FaultEvent>, result: CorrelationResult, ns: string)
    requires ValidConfig(cfg) && Correlates(cfg, uuids, events, result) && cfg.namespaceStorm && ns != ""
    requires uuids(NamespaceStorm, Key("", ns)).Some?
    ensures |Members(NamespaceStorm, result.uncorrelated, Key("", ns))| <= cfg.stormThreshold
  {
    var phases :| Explains(cfg, uuids, events, phases, result);
    assert PhaseSpec(cfg, uuids, events, phases, 3);
    var k, live := Key("", ns), Unconsumed(events, ConsumedAfter(phases[..3]));
    UnconsumedTwice(events, ConsumedAfter(phases[..3]), ConsumedBy(phases[3]));
    assert result.uncorrelated == Unconsumed(live, ConsumedBy(phases[3]));
    FewerMembers(NamespaceStorm, live, ConsumedBy(phases[3]), k);
    if Qualifies(cfg, NamespaceStorm, live, k) {
      BuildFacts(cfg, NamespaceStorm, live, uuids, k);
      AllConsumed(NamespaceStorm, live, phases[3], k, Build(NamespaceStorm, live, uuids, k).value);
    }
  }

  lemma AllConsumed(rule: Rule, live: seq<FaultEvent>, supers: seq<SuperEvent>, k: Key, se: SuperEvent)
    requires se in supers && forall e :: e in Members(rule, live, k) ==> e in se.events
    ensures Members(rule, Unconsumed(live, ConsumedBy(supers)), k) == []
  {
    var left := Unconsumed(live, ConsumedBy(supers));
    forall e | e in Members(rule, live, k) ensures e.id in ConsumedBy(supers) {
      var i :| 0 <= i < |supers| && supers[i] == se;
      assert e.id in Ids(supers[i].events);
      ConsumedByMember(supers, e.id);
    }
    forall e | e in left ensures MemberKey(rule, e) != Some(k) {
      MemberFacts(rule, live, k, e);
      UnconsumedMember(live, ConsumedBy(supers), e);
    }
    FilterNone(InGroup(rule, k), left);
  }

  // ----- the evaluation as written -----

  lemma UnconsumedStep(events: seq<FaultEvent>, consumed: set<string>, i: nat)
    requires i < |events|
    ensures Unconsumed(events[..i + 1], consumed) ==
            if events[i].id in consumed then Unconsumed(events[..i], consumed) else Unconsumed(events[..i], consumed) + [events[i]]
    ensures events[..|events|] == events
  {
    FilterStep(NotIn(consumed), events, i);
  }

  ghost predicate TriggersFound(rule: Rule, live: seq<FaultEvent>, triggers: map<Key, FaultEvent>) {
    forall k :: LastTrigger(rule, live, k) == if k in triggers then Some(triggers[k]) else None
  }

  lemma TriggersStep(rule: Rule, live: seq<FaultEvent>, e: FaultEvent, triggers: map<Key, FaultEvent>)
    requires TriggersFound(rule, live, triggers)
    ensures TriggersFound(rule, live + [e], if TriggerKey(rule, e).Some? then triggers[TriggerKey(rule, e).value := e] else triggers)
  {
    assert (live + [e])[..|live|] == live;
  }

  method FindTriggers(rule: Rule, events: seq<FaultEvent>, consumed: set<string>) returns (triggers: map<Key, FaultEvent>)
    ensures TriggersFound(rule, Unconsumed(events, consumed), triggers)
  {
    triggers := map[];
    for i := 0 to |events|
      invariant TriggersFound(rule, Unconsumed(events[..i], consumed), triggers)
    {
      var e := events[i];
      UnconsumedStep(events, consumed, i);
      if e.id in consumed {
        continue;
      }
      TriggersStep(rule, Unconsumed(events[..i], consumed), e, triggers);
      if TriggerKey(rule, e).Some? {
        triggers := triggers[TriggerKey(rule, e).value := e];
      }
    }
    assert events[..|events|] == events;
  }

  /** Groups hold the members of every key that has some, among the keys a cascade has a trigger for. */
  ghost predicate GroupsFound(rule: Rule, live: seq<FaultEvent>, triggers: map<Key, FaultEvent>, groups: map<Key, seq<FaultEvent>>) {
    forall k :: (HasTrigger(rule) ==> k in triggers) ==>
      Members(rule, live, k) == if k in groups then groups[k] else []
  }

  /** The grouping of `e`, unless it belongs to no group. */
  function Joined(rule: Rule, triggers: map<Key, FaultEvent>, groups: map<Key, seq<FaultEvent>>, e: FaultEvent): map<Key, seq<FaultEvent>> {
    match MemberKey(rule, e)
    case None => groups
    case Some(k) =>
      if HasTrigger(rule) && k !in triggers then groups
      else groups[k := (if k in groups then groups[k] else []) + [e]]
  }

  lemma GroupsStepAt(rule: Rule, live: seq<FaultEvent>, e: FaultEvent, triggers: map<Key, FaultEvent>,
                     groups: map<Key, seq<FaultEvent>>, k: Key)
    requires Members(rule, live, k) == if k in groups then groups[k] else []
    requires HasTrigger(rule) ==> k in triggers
    ensures var joined := Joined(rule, triggers, groups, e);
      Members(rule, live + [e], k) == if k in joined then joined[k] else []
  {
    FilterSnoc(InGroup(rule, k), live, e);
  }

  lemma GroupsStep(rule: Rule, live: seq<FaultEvent>, e: FaultEvent, triggers: map<Key, FaultEvent>, groups: map<Key, seq<FaultEvent>>)
    requires GroupsFound(rule, live, triggers, groups)
    ensures GroupsFound(rule, live + [e], triggers, Joined(rule, triggers, groups, e))
  {
    forall k | HasTrigger(rule) ==> k in triggers
      ensures var joined := Joined(rule, triggers, groups, e);
        Members(rule, live + [e], k) == if k in joined then joined[k] else []
    {
      GroupsStepAt(rule, live, e, triggers, groups, k);
    }
  }

  method GroupMembers(rule: Rule, events: seq<FaultEvent>, consumed: set<string>, triggers: map<Key, FaultEvent>)
    returns (groups: map<Key, seq<FaultEvent>>)
    ensures GroupsFound(rule, Unconsumed(events, consumed), triggers, groups)
  {
    groups := map[];
    for i := 0 to |events|
      invariant GroupsFound(rule, Unconsumed(events[..i], consumed), triggers, groups)
    {
      var e := events[i];
      UnconsumedStep(events, consumed, i);
      if e.id in consumed {
        continue;
      }
      GroupsStep(rule, Unconsumed(events[..i], consumed), e, triggers, groups);
      if MemberKey(rule, e) == None {
        continue;
      }
      var k := MemberKey(rule, e).value;
      if HasTrigger(rule) && k !in triggers {
        continue;
      }
      groups := groups[k := (if k in groups then groups[k] else []) + [e]];
    }
    assert events[..|events|] == events;
  }

  /** A rule is part-way through its group map: the keys in `todo` are still to be visited. */
  ghost predicate RuleProgress(cfg: Config, rule: Rule, live: seq<FaultEvent>, uuids: Uuids, todo: set<Key>, supers: seq<SuperEvent>) {
    && (forall i, j :: 0 <= i < j < |supers| ==> KeyOf(rule, supers[i]) != KeyOf(rule, supers[j]))
    && (forall i :: 0 <= i < |supers| ==> Makes(cfg, rule, live, uuids, supers[i]) && KeyOf(rule, supers[i]) !in todo)
    && (forall k :: k !in todo && Qualifies(cfg, rule, live, k) && Build(rule, live, uuids, k).Some? ==>
          Build(rule, live, uuids, k).value in supers)
  }

  lemma ProgressSkips(cfg: Config, rule: Rule, live: seq<FaultEvent>, uuids: Uuids, todo: set<Key>, supers: seq<SuperEvent>, k: Key)
    requires RuleProgress(cfg, rule, live, uuids, todo, supers)
    requires Qualifies(cfg, rule, live, k) ==> Build(rule, live, uuids, k).None?
    ensures RuleProgress(cfg, rule, live, uuids, todo - {k}, supers)
  {
  }

  lemma ProgressAdds(cfg: Config, rule: Rule, live: seq<FaultEvent>, uuids: Uuids, todo: set<Key>, supers: seq<SuperEvent>, k: Key, se: SuperEvent)
    requires RuleProgress(cfg, rule, live, uuids, todo, supers) && k in todo
    requires Qualifies(cfg, rule, live, k) && Build(rule, live, uuids, k) == Some(se)
    ensures RuleProgress(cfg, rule, live, uuids, todo - {k}, supers + [se])
    ensures ConsumedBy(supers + [se]) == ConsumedBy(supers) + Ids(se.events)
  {
    assert (supers + [se])[..|supers|] == supers;
    ProgressKeys(cfg, rule, live, uuids, todo, supers, k, se);
    ProgressCovers(cfg, rule, live, uuids, todo, supers, k, se);
  }

  lemma ProgressKeys(cfg: Config, rule: Rule, live: seq<FaultEvent>, uuids: Uuids, todo: set<Key>, supers: seq<SuperEvent>, k: Key, se: SuperEvent)
    requires RuleProgress(cfg, rule, live, uuids, todo, supers) && k in todo
    requires Qualifies(cfg, rule, live, k) && Build(rule, live, uuids, k) == Some(se)
    ensures var all := supers + [se];
      && (forall i, j :: 0 <= i < j < |all| ==> KeyOf(rule, all[i]) != KeyOf(rule, all[j]))
      && (forall i :: 0 <= i < |all| ==> Makes(cfg, rule, live, uuids, all[i]) && KeyOf(rule, all[i]) !in todo - {k})
  {
    BuildFacts(cfg, rule, live, uuids, k);
    forall i | 0 <= i < |supers| ensures Makes(cfg, rule, live, uuids, supers[i]) && KeyOf(rule, supers[i]) !in todo {
    }
  }

  lemma ProgressCovers(cfg: Config, rule: Rule, live: seq<FaultEvent>, uuids: Uuids, todo: set<Key>, supers: seq<SuperEvent>, k: Key, se: SuperEvent)
    requires RuleProgress(cfg, rule, live, uuids, todo, supers)
    requires Qualifies(cfg, rule, live, k) && Build(rule, live, uuids, k) == Some(se)
    ensures forall k' :: k' !in todo - {k} && Qualifies(cfg, rule, live, k') && Build(rule, live, uuids, k').Some? ==>
      Build(rule, live, uuids, k').value in supers + [se]
  {
  }

  /** What the loop bodies compute is the specified super-event, and their size test decides qualification. */
  lemma CascadeBuilds(cfg: Config, rule: Rule, live: seq<FaultEvent>, uuids: Uuids, k: Key, trigger: FaultEvent)
    requires ValidConfig(cfg) && RuleEnabled(cfg, rule) && HasTrigger(rule) && LastTrigger(rule, live, k) == Some(trigger)
    ensures var members := Members(rule, live, k);
      && Build(rule, live, uuids, k) == NewSuperEvent(RuleName(rule), trigger.resource, [trigger] + members, uuids(rule, k))
      && (Qualifies(cfg, rule, live, k) <==> MinMembers(cfg, rule) <= |members|)
  {
  }

  lemma GroupingBuilds(cfg: Config, rule: Rule, live: seq<FaultEvent>, uuids: Uuids, k: Key)
    requires ValidConfig(cfg) && RuleEnabled(cfg, rule) && !HasTrigger(rule)
    ensures var members := Members(rule, live, k);
      && Build(rule, live, uuids, k) == NewSuperEvent(RuleName(rule), GroupingPrimary(rule, k), members, uuids(rule, k))
      && (Qualifies(cfg, rule, live, k) <==> MinMembers(cfg, rule) <= |members|)
  {
    assert [] + Members(rule, live, k) == Members(rule, live, k);
  }

  function GroupingPrimary(rule: Rule, k: Key): ResourceRef {
    if rule == DeploymentRollout then ResourceRef("Deployment", k.ns, k.name, "") else ResourceRef("Namespace", "", k.name, "")
  }

  /** The end of a loop body: create the super-event of a key that is large enough and consume its events. */
  method Emit(cfg: Config, rule: Rule, uuids: Uuids, k: Key, primary: ResourceRef, group: seq<FaultEvent>,
              supers: seq<SuperEvent>, consumed: set<string>,
              ghost live: seq<FaultEvent>, ghost todo: set<Key>, ghost start: set<string>)
    returns (supers': seq<SuperEvent>, consumed': set<string>)
    requires RuleProgress(cfg, rule, live, uuids, todo, supers) && consumed == start + ConsumedBy(supers)
    requires k in todo && Qualifies(cfg, rule, live, k)
    requires Build(rule, live, uuids, k) == NewSuperEvent(RuleName(rule), primary, group, uuids(rule, k))
    ensures RuleProgress(cfg, rule, live, uuids, todo - {k}, supers') && consumed' == start + ConsumedBy(supers')
  {
    var se := NewSuperEvent(RuleName(rule), primary, group, uuids(rule, k));
    if se.None? {
      ProgressSkips(cfg, rule, live, uuids, todo, supers, k);
      return supers, consumed;
    }
    ProgressAdds(cfg, rule, live, uuids, todo, supers, k, se.value);
    supers', consumed' := supers + [se.value], consumed + Ids(group);
  }

  /** Before the first visit: a key without a trigger makes nothing. */
  lemma CascadeStarts(cfg: Config, rule: Rule, live: seq<FaultEvent>, uuids: Uuids, triggers: map<Key, FaultEvent>)
    requires HasTrigger(rule) && TriggersFound(rule, live, triggers)
    ensures RuleProgress(cfg, rule, live, uuids, triggers.Keys, [])
  {
    forall k | k !in triggers ensures !Qualifies(cfg, rule, live, k) {
      assert LastTrigger(rule, live, k) == None;
    }
  }

  lemma CascadeFound(rule: Rule, live: seq<FaultEvent>, triggers: map<Key, FaultEvent>, pods: map<Key, seq<FaultEvent>>, k: Key)
    requires TriggersFound(rule, live, triggers) && GroupsFound(rule, live, triggers, pods) && k in triggers
    ensures LastTrigger(rule, live, k) == Some(triggers[k])
    ensures Members(rule, live, k) == if k in pods then pods[k] else []
  {
  }

  /** After the last visit. */
  lemma ProgressEnds(cfg: Config, rule: Rule, live: seq<FaultEvent>, uuids: Uuids, supers: seq<SuperEvent>)
    requires RuleProgress(cfg, rule, live, uuids, {}, supers)
    ensures RuleSpec(cfg, rule, live, uuids, supers)
  {
  }

  /** evaluateNodeCascade and evaluateStorageCascade: the latest trigger of a key plus the pods that point at it. */
  method EvaluateCascade(cfg: Config, rule: Rule, events: seq<FaultEvent>, consumed: set<string>, uuids: Uuids)
    returns (supers: seq<SuperEvent>, consumed': set<string>)
    requires ValidConfig(cfg) && RuleEnabled(cfg, rule) && HasTrigger(rule)
    ensures RuleSpec(cfg, rule, Unconsumed(events, consumed), uuids, supers)
    ensures consumed' == consumed + ConsumedBy(supers)
  {
    ghost var live := Unconsumed(events, consumed);
    supers, consumed' := [], consumed;
    var triggers := FindTriggers(rule, events, consumed);
    CascadeStarts(cfg, rule, live, uuids, triggers);
    if |triggers| == 0 {
      assert triggers.Keys == {};
      ProgressEnds(cfg, rule, live, uuids, supers);
      return;
    }
    var pods := GroupMembers(rule, events, consumed, triggers);
    var todo := triggers.Keys;
    while todo != {}
      invariant todo <= triggers.Keys
      invariant RuleProgress(cfg, rule, live, uuids, todo, supers)
      invariant consumed' == consumed + ConsumedBy(supers)
      decreases todo
    {
      var k :| k in todo;
      var trigger, members := triggers[k], if k in pods then pods[k] else [];
      CascadeFound(rule, live, triggers, pods, k);
      CascadeBuilds(cfg, rule, live, uuids, k, trigger);
      if |members| < MinMembers(cfg, rule) {
        ProgressSkips(cfg, rule, live, uuids, todo, supers, k);
      } else {
        supers, consumed' := Emit(cfg, rule, uuids, k, trigger.resource, [trigger] + members,
                                  supers, consumed', live, todo, consumed);
      }
      todo := todo - {k};
    }
    ProgressEnds(cfg, rule, live, uuids, supers);
  }

  /** evaluateDeploymentRollout and evaluateNamespaceStorm: groups without a trigger. */
  method EvaluateGrouping(cfg: Config, rule: Rule, events: seq<FaultEvent>, consumed: set<string>, uuids: Uuids)
    returns (supers: seq<SuperEvent>, consumed': set<string>)
    requires ValidConfig(cfg) && RuleEnabled(cfg, rule) && !HasTrigger(rule)
    ensures RuleSpec(cfg, rule, Unconsumed(events, consumed), uuids, supers)
    ensures consumed' == consumed + ConsumedBy(supers)
  {
    ghost var live := Unconsumed(events, consumed);
    supers, consumed' := [], consumed;
    var groups := GroupMembers(rule, events, consumed, map[]);
    var todo := groups.Keys;
    while todo != {}
      invariant todo <= groups.Keys
      invariant RuleProgress(cfg, rule, live, uuids, todo, supers)
      invariant consumed' == consumed + ConsumedBy(supers)
      decreases todo
    {
      var k :| k in todo;
      var members := groups[k];
      assert Members(rule, live, k) == members;
      GroupingBuilds(cfg, rule, live, uuids, k);
      if |members| < MinMembers(cfg, rule) {
        ProgressSkips(cfg, rule, live, uuids, todo, supers, k);
      } else {
        supers, consumed' := Emit(cfg, rule, uuids, k, GroupingPrimary(rule, k), members,
                                  supers, consumed', live, todo, consumed);
      }
      todo := todo - {k};
    }
    ProgressEnds(cfg, rule, live, uuids, supers);
  }

  /** One rule of the sequence, skipped when it is disabled. */
  method EvaluateRule(cfg: Config, rule: Rule, events: seq<FaultEvent>, consumed: set<string>, uuids: Uuids)
    returns (supers: seq<SuperEvent>, consumed': set<string>)
    requires ValidConfig(cfg)
    ensures if RuleEnabled(cfg, rule) then RuleSpec(cfg, rule, Unconsumed(events, consumed), uuids, supers) else supers == []
    ensures consumed' == consumed + ConsumedBy(supers)
  {
    supers, consumed' := [], consumed;
    if RuleEnabled(cfg, rule) {
      if HasTrigger(rule) {
        supers, consumed' := EvaluateCascade(cfg, rule, events, consumed, uuids);
      } else {
        supers, consumed' := EvaluateGrouping(cfg, rule, events, consumed, uuids);
      }
    }
  }

  method Evaluate(cfg: Config, events: seq<FaultEvent>, uuids: Uuids) returns (result: CorrelationResult)
    requires ValidConfig(cfg)
    ensures Correlates(cfg, uuids, events, result)
  {
    var consumed: set<string> := {};
    var supers: seq<SuperEvent> := [];
    ghost var phases: seq<seq<SuperEvent>> := [];
    for n := 0 to |RULES|
      invariant |phases| == n && PhasesSpec(cfg, uuids, events, phases)
      invariant supers == Flatten(phases) && consumed == ConsumedAfter(phases)
    {
      var more, consumed' := EvaluateRule(cfg, RULES[n], events, consumed, uuids);
      PhasesExtend(cfg, uuids, events, phases, more);
      phases := phases + [more];
      supers, consumed := supers + more, consumed';
    }
    var left: seq<FaultEvent> := [];
    for i := 0 to |events|
      invariant left == Unconsumed(events[..i], consumed)
    {
      UnconsumedStep(events, consumed, i);
      if events[i].id !in consumed {
        left := left + [events[i]];
      }
    }
    assert events[..|events|] == events;
    result := CorrelationResult(supers, left);
    assert Explains(cfg, uuids, events, phases, result);
  }

  lemma PhasesExtend(cfg: Config, uuids: Uuids, events: seq<FaultEvent>, phases: seq<seq<SuperEvent>>, more: seq<SuperEvent>)
    requires PhasesSpec(cfg, uuids, events, phases) && |phases| < |RULES|
    requires var rule := RULES[|phases|];
      if RuleEnabled(cfg, rule) then RuleSpec(cfg, rule, Unconsumed(events, ConsumedAfter(phases)), uuids, more) else more == []
    ensures PhasesSpec(cfg, uuids, events, phases + [more])
    ensures Flatten(phases + [more]) == Flatten(phases) + more
    ensures ConsumedAfter(phases + [more]) == ConsumedAfter(phases) + ConsumedBy(more)
  {
    var all := phases + [more];
    assert all[..|phases|] == phases;
    forall n | 0 <= n < |all| ensures PhaseSpec(cfg, uuids, events, all, n) {
      if n < |phases| {
        assert PhaseSpec(cfg, uuids, events, phases, n);
        assert all[..n] == phases[..n];
      }
    }
  }
}
