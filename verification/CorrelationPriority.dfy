/**
 What a window yields, in the terms of an operator: detector names, kinds, annotations, thresholds,
 and the order in which the four rules claim events.
 */
module CorrelationPriority {
  import opened Prelude
  import opened Events
  import opened Correlator

  predicate Annotated(e: FaultEvent, annotation: string, value: string) {
    value != "" && annotation in e.annotations && e.annotations[annotation] == value
  }

  function NodeNotReady(node: string): FaultEvent -> bool {
    (e: FaultEvent) => e.detector == "NodeNotReady" && e.resource.kind == "Node" && e.resource.name == node
  }

  function PodsOnNode(node: string): FaultEvent -> bool {
    (e: FaultEvent) => e.resource.kind == "Pod" && Annotated(e, "wormsign.io/node-name", node)
  }

  function PodsOfDeployment(ns: string, name: string): FaultEvent -> bool {
    (e: FaultEvent) => e.resource.kind == "Pod" && e.resource.ns == ns && Annotated(e, "wormsign.io/owner-deployment", name)
  }

  function ClaimStuck(ns: string, name: string): FaultEvent -> bool {
    (e: FaultEvent) =>
      e.detector == "PVCStuckBinding" && e.resource.kind == "PersistentVolumeClaim" && e.resource.ns == ns && e.resource.name == name
  }

  function PodsOfClaim(ns: string, name: string): FaultEvent -> bool {
    (e: FaultEvent) => e.resource.kind == "Pod" && e.resource.ns == ns && Annotated(e, "wormsign.io/pvc-name", name)
  }

  function InNamespace(ns: string): FaultEvent -> bool {
    (e: FaultEvent) => ns != "" && e.resource.ns == ns
  }

  /** The last event of `live` that satisfies `p`. */
  ghost predicate Latest(p: FaultEvent -> bool, live: seq<FaultEvent>, i: nat) {
    i < |live| && p(live[i]) && forall j :: i < j < |live| ==> !p(live[j])
  }

  ghost predicate Claimed(supers: seq<SuperEvent>, rules: set<string>, id: string) {
    exists se :: se in supers && se.rule in rules && id in Ids(se.events)
  }

  ghost function Unclaimed(supers: seq<SuperEvent>, rules: set<string>): FaultEvent -> bool {
    (e: FaultEvent) => !Claimed(supers, rules, e.id)
  }

  /** The events of the window that no super-event of the named rules holds. */
  ghost function LeftBy(events: seq<FaultEvent>, supers: seq<SuperEvent>, rules: set<string>): seq<FaultEvent> {
    Filter(Unclaimed(supers, rules), events)
  }

  /** The super-event of a rule, once its identifier is drawn. */
  ghost predicate Made(se: SuperEvent, uuid: Option<string>, rule: string, primary: ResourceRef, group: seq<FaultEvent>) {
    uuid.Some? && se == SuperEvent(uuid.value, rule, primary, group, Highest(group))
  }

  ghost predicate IsNodeCascade(cfg: Config, uuids: Uuids, live: seq<FaultEvent>, se: SuperEvent, node: string, i: nat) {
    && Latest(NodeNotReady(node), live, i)
    && cfg.nodeMinPods <= |Filter(PodsOnNode(node), live)|
    && Made(se, uuids(NodeCascade, Key("", node)), "NodeCascade", live[i].resource, [live[i]] + Filter(PodsOnNode(node), live))
  }

  ghost predicate IsRollout(cfg: Config, uuids: Uuids, live: seq<FaultEvent>, se: SuperEvent, ns: string, name: string) {
    && cfg.rolloutMinPods <= |Filter(PodsOfDeployment(ns, name), live)|
    && Made(se, uuids(DeploymentRollout, Key(ns, name)), "DeploymentRollout", ResourceRef("Deployment", ns, name, ""),
            Filter(PodsOfDeployment(ns, name), live))
  }

  ghost predicate IsStorageCascade(uuids: Uuids, live: seq<FaultEvent>, se: SuperEvent, ns: string, name: string, i: nat) {
    && Latest(ClaimStuck(ns, name), live, i)
    && Filter(PodsOfClaim(ns, name), live) != []
    && Made(se, uuids(StorageCascade, Key(ns, name)), "StorageCascade", live[i].resource,
            [live[i]] + Filter(PodsOfClaim(ns, name), live))
  }

  ghost predicate IsStorm(cfg: Config, uuids: Uuids, live: seq<FaultEvent>, se: SuperEvent, ns: string) {
    && cfg.stormThreshold < |Filter(InNamespace(ns), live)|
    && Made(se, uuids(NamespaceStorm, Key("", ns)), "NamespaceStorm", ResourceRef("Namespace", "", ns, ""),
            Filter(InNamespace(ns), live))
  }

  // ----- the phases by name -----

  /** The rules that claim events before phase n. */
  function Before(n: nat): set<string> {
    if n == 0 then {}
    else if n == 1 then {"NodeCascade"}
    else if n == 2 then {"NodeCascade", "DeploymentRollout"}
    else if n == 3 then {"NodeCascade", "DeploymentRollout", "StorageCascade"}
    else {"NodeCascade", "DeploymentRollout", "StorageCascade", "NamespaceStorm"}
  }

  function NameOf(n: nat): string {
    match n
    case 0 => "NodeCascade"
    case 1 => "DeploymentRollout"
    case 2 => "StorageCascade"
    case _ => "NamespaceStorm"
  }

  lemma NamesInOrder(k: nat, n: nat)
    requires k < 4
    ensures NameOf(k) in Before(n) <==> k < n
  {
    assert "NodeCascade"[0] == 'N' && "DeploymentRollout"[0] == 'D' && "StorageCascade"[0] == 'S';
    assert "NodeCascade"[1] == 'o' && "NamespaceStorm"[1] == 'a' && "NamespaceStorm"[0] == 'N';
  }

  lemma PhaseNamed(cfg: Config, uuids: Uuids, events: seq<FaultEvent>, phases: seq<seq<SuperEvent>>, k: nat, se: SuperEvent)
    requires k < |phases| <= |RULES| && PhaseSpec(cfg, uuids, events, phases, k) && se in phases[k]
    ensures se.rule == NameOf(k)
  {
    assert Makes(cfg, RULES[k], Unconsumed(events, ConsumedAfter(phases[..k])), uuids, se);
  }

  ghost predicate InPhase(phases: seq<seq<SuperEvent>>, k: nat, se: SuperEvent) {
    k < |phases| && se in phases[k]
  }

  lemma {:induction false} FlattenIff(phases: seq<seq<SuperEvent>>, se: SuperEvent)
    ensures se in Flatten(phases) <==> exists k :: InPhase(phases, k, se)
  {
    if phases != [] {
      var n := |phases| - 1;
      FlattenIff(phases[..n], se);
      if k: nat :| InPhase(phases[..n], k, se) {
        assert InPhase(phases, k, se);
      }
      if k: nat :| InPhase(phases, k, se) {
        assert k < n ==> InPhase(phases[..n], k, se);
      }
      assert se in phases[n] ==> InPhase(phases, n, se);
    }
  }

  lemma ConsumedByIff(supers: seq<SuperEvent>, id: string)
    ensures id in ConsumedBy(supers) <==> exists se :: se in supers && id in Ids(se.events)
  {
    ConsumedByMember(supers, id);
    if se :| se in supers && id in Ids(se.events) {
      var i :| 0 <= i < |supers| && supers[i] == se;
      assert id in Ids(supers[i].events);
    }
  }

  ghost predicate ConsumedIn(phases: seq<seq<SuperEvent>>, k: nat, se: SuperEvent, id: string) {
    InPhase(phases, k, se) && id in Ids(se.events)
  }

  lemma {:induction false} ConsumedAfterIff(phases: seq<seq<SuperEvent>>, id: string)
    ensures id in ConsumedAfter(phases) <==> exists k, se :: ConsumedIn(phases, k, se, id)
  {
    if phases != [] {
      var n := |phases| - 1;
      ConsumedAfterIff(phases[..n], id);
      ConsumedByIff(phases[n], id);
      if k: nat, se :| ConsumedIn(phases[..n], k, se, id) {
        assert ConsumedIn(phases, k, se, id);
      }
      if k: nat, se :| ConsumedIn(phases, k, se, id) {
        assert k < n ==> ConsumedIn(phases[..n], k, se, id);
      }
      if se :| se in phases[n] && id in Ids(se.events) {
        assert ConsumedIn(phases, n, se, id);
      }
    }
  }

  ghost predicate Named(phases: seq<seq<SuperEvent>>) {
    |phases| == 4 && forall k, se :: InPhase(phases, k, se) ==> se.rule == NameOf(k)
  }

  /** An ID is consumed before phase n exactly when a super-event of an earlier rule holds it. */
  lemma ConsumedByName(phases: seq<seq<SuperEvent>>, n: nat, id: string)
    requires Named(phases) && n <= 4
    ensures id in ConsumedAfter(phases[..n]) <==> Claimed(Flatten(phases), Before(n), id)
  {
    ConsumedAfterIff(phases[..n], id);
    if k: nat, se :| ConsumedIn(phases[..n], k, se, id) {
      assert InPhase(phases, k, se);
      NamesInOrder(k, n);
      FlattenIff(phases, se);
    }
    if se :| se in Flatten(phases) && se.rule in Before(n) && id in Ids(se.events) {
      FlattenIff(phases, se);
      var k :| InPhase(phases, k, se);
      NamesInOrder(k, n);
      assert ConsumedIn(phases[..n], k, se, id);
    }
  }

  lemma LeftByPhases(events: seq<FaultEvent>, phases: seq<seq<SuperEvent>>, n: nat)
    requires Named(phases) && n <= 4
    ensures Unconsumed(events, ConsumedAfter(phases[..n])) == LeftBy(events, Flatten(phases), Before(n))
  {
    forall e | e in events ensures NotIn(ConsumedAfter(phases[..n]))(e) == Unclaimed(Flatten(phases), Before(n))(e) {
      ConsumedByName(phases, n, e.id);
    }
    FilterCongruence(NotIn(ConsumedAfter(phases[..n])), Unclaimed(Flatten(phases), Before(n)), events);
  }

  lemma OnlyPhase(phases: seq<seq<SuperEvent>>, n: nat, se: SuperEvent)
    requires Named(phases) && n < 4
    ensures se in phases[n] <==> se in Flatten(phases) && se.rule == NameOf(n)
  {
    FlattenIff(phases, se);
    if se in phases[n] {
      assert InPhase(phases, n, se);
    }
    if k: nat :| InPhase(phases, k, se) {
      NamesInOrder(k, n);
      NamesInOrder(k, n + 1);
      NamesInOrder(n, n);
      NamesInOrder(n, n + 1);
    }
  }

  /** The super-events of phase n are those of its rule over what the earlier rules left. */
  lemma PhaseByName(cfg: Config, uuids: Uuids, events: seq<FaultEvent>, result: CorrelationResult, n: nat, se: SuperEvent)
    requires Correlates(cfg, uuids, events, result) && n < 4
    ensures var live := LeftBy(events, result.superEvents, Before(n));
      se in result.superEvents && se.rule == NameOf(n) <==>
      RuleEnabled(cfg, RULES[n]) && exists k :: MadeFor(cfg, RULES[n], live, uuids, k, se)
    ensures result.uncorrelated == LeftBy(events, result.superEvents, Before(4))
  {
    var phases :| Explains(cfg, uuids, events, phases, result);
    forall k, s | InPhase(phases, k, s) ensures s.rule == NameOf(k) {
      PhaseNamed(cfg, uuids, events, phases, k, s);
    }
    assert PhaseSpec(cfg, uuids, events, phases, n);
    LeftByPhases(events, phases, n);
    OnlyPhase(phases, n, se);
    LeftByPhases(events, phases, 4);
    assert phases[..4] == phases;
    if RuleEnabled(cfg, RULES[n]) {
      RuleMembers(cfg, RULES[n], Unconsumed(events, ConsumedAfter(phases[..n])), uuids, phases[n], se);
    }
  }

  ghost predicate MadeFor(cfg: Config, rule: Rule, live: seq<FaultEvent>, uuids: Uuids, k: Key, se: SuperEvent) {
    Qualifies(cfg, rule, live, k) && Build(rule, live, uuids, k) == Some(se)
  }

  lemma RuleMembers(cfg: Config, rule: Rule, live: seq<FaultEvent>, uuids: Uuids, supers: seq<SuperEvent>, se: SuperEvent)
    requires RuleSpec(cfg, rule, live, uuids, supers)
    ensures se in supers <==> exists k :: MadeFor(cfg, rule, live, uuids, k, se)
  {
    if se in supers {
      assert Makes(cfg, rule, live, uuids, se);
      assert MadeFor(cfg, rule, live, uuids, KeyOf(rule, se), se);
    }
  }

  // ----- each rule by name -----

  lemma {:induction false} TriggerIsLatest(rule: Rule, live: seq<FaultEvent>, k: Key, p: FaultEvent -> bool)
    requires forall e :: p(e) <==> TriggerKey(rule, e) == Some(k)
    ensures LastTrigger(rule, live, k).Some? ==> exists i :: Latest(p, live, i)
    ensures forall i: nat :: Latest(p, live, i) ==> LastTrigger(rule, live, k) == Some(live[i])
  {
    if live != [] {
      var n := |live| - 1;
      if p(live[n]) {
        assert Latest(p, live, n);
      } else {
        TriggerIsLatest(rule, live[..n], k, p);
        if i :| Latest(p, live[..n], i) {
          assert Latest(p, live, i);
        }
        forall i: nat | Latest(p, live, i) ensures LastTrigger(rule, live, k) == Some(live[i]) {
          assert Latest(p, live[..n], i);
        }
      }
    }
  }

  lemma MembersAre(rule: Rule, live: seq<FaultEvent>, k: Key, p: FaultEvent -> bool)
    requires forall e :: p(e) <==> MemberKey(rule, e) == Some(k)
    ensures Members(rule, live, k) == Filter(p, live)
  {
    FilterCongruence(InGroup(rule, k), p, live);
  }

  lemma NodeKeys(node: string)
    ensures forall e :: NodeNotReady(node)(e) <==> TriggerKey(NodeCascade, e) == Some(Key("", node))
    ensures forall e :: PodsOnNode(node)(e) <==> MemberKey(NodeCascade, e) == Some(Key("", node))
  {
  }

  lemma NodeCascadeMade(cfg: Config, uuids: Uuids, live: seq<FaultEvent>, se: SuperEvent, node: string)
    requires ValidConfig(cfg) && cfg.nodeCascade
    ensures MadeFor(cfg, NodeCascade, live, uuids, Key("", node), se) <==> exists i :: IsNodeCascade(cfg, uuids, live, se, node, i)
  {
    var k := Key("", node);
    NodeKeys(node);
    TriggerIsLatest(NodeCascade, live, k, NodeNotReady(node));
    MembersAre(NodeCascade, live, k, PodsOnNode(node));
    if Qualifies(cfg, NodeCascade, live, k) {
      BuildFacts(cfg, NodeCascade, live, uuids, k);
      var i :| Latest(NodeNotReady(node), live, i);
      assert MadeFor(cfg, NodeCascade, live, uuids, k, se) ==> IsNodeCascade(cfg, uuids, live, se, node, i);
    }
  }

  /**
   The node rule claims first: its super-events are exactly, for each node with a not-ready event and enough annotated
   pods in the window, the latest such event with all those pods.
   */
  lemma NodeCascadesFirst(cfg: Config, uuids: Uuids, events: seq<FaultEvent>, result: CorrelationResult, se: SuperEvent)
    requires ValidConfig(cfg) && Correlates(cfg, uuids, events, result)
    ensures se in result.superEvents && se.rule == "NodeCascade" <==>
      cfg.nodeCascade && exists node, i :: IsNodeCascade(cfg, uuids, events, se, node, i)
  {
    PhaseByName(cfg, uuids, events, result, 0, se);
    AllLeft(events, result.superEvents);
    if cfg.nodeCascade {
      if k :| MadeFor(cfg, NodeCascade, events, uuids, k, se) {
        TriggerFacts(NodeCascade, events, k);
        NodeCascadeMade(cfg, uuids, events, se, k.name);
      }
      if node, i :| IsNodeCascade(cfg, uuids, events, se, node, i) {
        NodeCascadeMade(cfg, uuids, events, se, node);
      }
    }
  }

  lemma AllLeft(events: seq<FaultEvent>, supers: seq<SuperEvent>)
    ensures LeftBy(events, supers, {}) == events
  {
    FilterAll(Unclaimed(supers, {}), events);
  }

  lemma RolloutMade(cfg: Config, uuids: Uuids, live: seq<FaultEvent>, se: SuperEvent, ns: string, name: string)
    requires ValidConfig(cfg) && cfg.deploymentRollout
    ensures MadeFor(cfg, DeploymentRollout, live, uuids, Key(ns, name), se) <==> IsRollout(cfg, uuids, live, se, ns, name)
  {
    var k := Key(ns, name);
    MembersAre(DeploymentRollout, live, k, PodsOfDeployment(ns, name));
    if Qualifies(cfg, DeploymentRollout, live, k) {
      BuildFacts(cfg, DeploymentRollout, live, uuids, k);
      GroupingBuilds(cfg, DeploymentRollout, live, uuids, k);
    }
  }

  /** Then deployments, over what the node rule left: the pods of each deployment that has enough of them. */
  lemma RolloutsSecond(cfg: Config, uuids: Uuids, events: seq<FaultEvent>, result: CorrelationResult, se: SuperEvent)
    requires ValidConfig(cfg) && Correlates(cfg, uuids, events, result)
    ensures se in result.superEvents && se.rule == "DeploymentRollout" <==>
      cfg.deploymentRollout &&
      exists ns, name :: IsRollout(cfg, uuids, LeftBy(events, result.superEvents, {"NodeCascade"}), se, ns, name)
  {
    var live := LeftBy(events, result.superEvents, {"NodeCascade"});
    PhaseByName(cfg, uuids, events, result, 1, se);
    if cfg.deploymentRollout {
      if k :| MadeFor(cfg, DeploymentRollout, live, uuids, k, se) {
        RolloutMade(cfg, uuids, live, se, k.ns, k.name);
      }
      if ns, name :| IsRollout(cfg, uuids, live, se, ns, name) {
        RolloutMade(cfg, uuids, live, se, ns, name);
      }
    }
  }

  lemma ClaimKeys(ns: string, name: string)
    ensures forall e :: ClaimStuck(ns, name)(e) <==> TriggerKey(StorageCascade, e) == Some(Key(ns, name))
    ensures forall e :: PodsOfClaim(ns, name)(e) <==> MemberKey(StorageCascade, e) == Some(Key(ns, name))
  {
  }

  lemma StorageMade(cfg: Config, uuids: Uuids, live: seq<FaultEvent>, se: SuperEvent, ns: string, name: string)
    ensures MadeFor(cfg, StorageCascade, live, uuids, Key(ns, name), se) <==>
      exists i :: IsStorageCascade(uuids, live, se, ns, name, i)
  {
    var k := Key(ns, name);
    ClaimKeys(ns, name);
    TriggerIsLatest(StorageCascade, live, k, ClaimStuck(ns, name));
    MembersAre(StorageCascade, live, k, PodsOfClaim(ns, name));
    if Qualifies(cfg, StorageCascade, live, k) {
      BuildFacts(cfg, StorageCascade, live, uuids, k);
      var i :| Latest(ClaimStuck(ns, name), live, i);
      assert MadeFor(cfg, StorageCascade, live, uuids, k, se) ==> IsStorageCascade(uuids, live, se, ns, name, i);
    }
  }

  /** Then claims, over what both left: the latest stuck-claim event with the pods of its namespace that use the claim. */
  lemma StorageThird(cfg: Config, uuids: Uuids, events: seq<FaultEvent>, result: CorrelationResult, se: SuperEvent)
    requires ValidConfig(cfg) && Correlates(cfg, uuids, events, result)
    ensures se in result.superEvents && se.rule == "StorageCascade" <==>
      cfg.storageCascade &&
      exists ns, name, i ::
        IsStorageCascade(uuids, LeftBy(events, result.superEvents, {"NodeCascade", "DeploymentRollout"}), se, ns, name, i)
  {
    var live := LeftBy(events, result.superEvents, {"NodeCascade", "DeploymentRollout"});
    PhaseByName(cfg, uuids, events, result, 2, se);
    if cfg.storageCascade {
      if k :| MadeFor(cfg, StorageCascade, live, uuids, k, se) {
        StorageMade(cfg, uuids, live, se, k.ns, k.name);
      }
      if ns, name, i :| IsStorageCascade(uuids, live, se, ns, name, i) {
        StorageMade(cfg, uuids, live, se, ns, name);
      }
    }
  }

  lemma StormMade(cfg: Config, uuids: Uuids, live: seq<FaultEvent>, se: SuperEvent, ns: string)
    requires ValidConfig(cfg) && cfg.namespaceStorm
    ensures MadeFor(cfg, NamespaceStorm, live, uuids, Key("", ns), se) <==> IsStorm(cfg, uuids, live, se, ns)
  {
    var k := Key("", ns);
    MembersAre(NamespaceStorm, live, k, InNamespace(ns));
    if Qualifies(cfg, NamespaceStorm, live, k) {
      BuildFacts(cfg, NamespaceStorm, live, uuids, k);
      GroupingBuilds(cfg, NamespaceStorm, live, uuids, k);
    }
  }

  /** The storm rule comes last: each namespace with more than the threshold of events that all three left. */
  lemma StormsLast(cfg: Config, uuids: Uuids, events: seq<FaultEvent>, result: CorrelationResult, se: SuperEvent)
    requires ValidConfig(cfg) && Correlates(cfg, uuids, events, result)
    ensures se in result.superEvents && se.rule == "NamespaceStorm" <==>
      cfg.namespaceStorm &&
      exists ns :: IsStorm(cfg, uuids,
        LeftBy(events, result.superEvents, {"NodeCascade", "DeploymentRollout", "StorageCascade"}), se, ns)
  {
    var live := LeftBy(events, result.superEvents, {"NodeCascade", "DeploymentRollout", "StorageCascade"});
    PhaseByName(cfg, uuids, events, result, 3, se);
    if cfg.namespaceStorm {
      if k :| MadeFor(cfg, NamespaceStorm, live, uuids, k, se) {
        MemberFacts(NamespaceStorm, live, k, Members(NamespaceStorm, live, k)[0]);
        StormMade(cfg, uuids, live, se, k.name);
      }
      if ns :| IsStorm(cfg, uuids, live, se, ns) {
        StormMade(cfg, uuids, live, se, ns);
      }
    }
  }

  /** There is no other super-event, and what no super-event holds comes out on its own, in window order. */
  lemma NothingElse(cfg: Config, uuids: Uuids, events: seq<FaultEvent>, result: CorrelationResult, se: SuperEvent)
    requires ValidConfig(cfg) && Correlates(cfg, uuids, events, result)
    ensures se in result.superEvents ==> se.rule in {"NodeCascade", "DeploymentRollout", "StorageCascade", "NamespaceStorm"}
    ensures result.uncorrelated
         == LeftBy(events, result.superEvents, {"NodeCascade", "DeploymentRollout", "StorageCascade", "NamespaceStorm"})
  {
    PhaseByName(cfg, uuids, events, result, 0, se);
    if se in result.superEvents {
      var phases :| Explains(cfg, uuids, events, phases, result);
      FlattenIff(phases, se);
      var k :| InPhase(phases, k, se);
      PhaseNamed(cfg, uuids, events, phases, k, se);
    }
  }
}
