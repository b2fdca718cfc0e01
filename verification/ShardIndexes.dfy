/**
 The two indexes a replica derives from its assignment through shard-change callbacks:
 the informer factories and the namespaces wired to detectors. A factory is reduced to
 a token; cancelling it and registering handlers on it are counted per token.
 */
module ShardIndexes {
  import opened Prelude
  import opened ShardManager

  /** `after` keeps the factories of `before` and adds new ones for `names`. */
  ghost predicate Extends(before: map<string, nat>, created: nat, after: map<string, nat>, names: set<string>) {
    && after.Keys == before.Keys + names
    && (forall ns :: ns in before ==> after[ns] == before[ns])
    && (forall ns :: ns in after && ns !in before ==> created <= after[ns])
  }

  class InformerManager {
    var factories: map<string, nat>
    var created: nat
    var stopped: bool
    ghost var cancelled: multiset<nat>
    ghost var namespaceOf: map<nat, string>

    /** Every factory ever created is live under one namespace, or was cancelled exactly once. */
    ghost predicate Valid()
      reads this
    {
      && Inverse(factories, namespaceOf)
      && (forall t: nat :: cancelled[t] == if t < created && t !in namespaceOf then 1 else 0)
      && (forall t :: t in namespaceOf ==> t < created)
      && (stopped ==> factories == map[])
    }

    static ghost predicate Inverse(factories: map<string, nat>, namespaceOf: map<nat, string>) {
      && (forall ns :: ns in factories ==> factories[ns] in namespaceOf && namespaceOf[factories[ns]] == ns)
      && (forall t :: t in namespaceOf ==> namespaceOf[t] in factories && factories[namespaceOf[t]] == t)
    }

    constructor ()
      ensures Valid() && factories == map[] && created == 0 && !stopped
    {
      factories, created, stopped := map[], 0, false;
      cancelled, namespaceOf := multiset{}, map[];
    }

    method CancelFactory(ns: string)
      requires Valid() && ns in factories
      modifies this`factories, this`cancelled, this`namespaceOf
      ensures Valid() && factories == old(factories) - {ns}
    {
      cancelled := cancelled + multiset{factories[ns]};
      namespaceOf := namespaceOf - {factories[ns]};
      factories := factories - {ns};
    }

    method StartFactory(ns: string)
      requires Valid() && ns !in factories && !stopped
      modifies this`factories, this`created, this`namespaceOf
      ensures Valid() && created == old(created) + 1
      ensures factories == old(factories)[ns := old(created)]
    {
      factories := factories[ns := created];
      namespaceOf := namespaceOf[created := ns];
      created := created + 1;
    }

    method TearDown(removed: seq<string>)
      requires Valid()
      modifies this`factories, this`cancelled, this`namespaceOf
      ensures Valid() && factories == old(factories) - Elements(removed)
    {
      for i := 0 to |removed|
        invariant Valid() && factories == old(factories) - Elements(removed[..i])
      {
        ElementsStep(removed, i);
        if removed[i] in factories {
          CancelFactory(removed[i]);
        }
      }
      assert removed[..|removed|] == removed;
    }

    method StartAll(added: seq<string>)
      requires Valid() && !stopped
      modifies this`factories, this`created, this`namespaceOf
      ensures Valid() && old(created) <= created
      ensures Extends(old(factories), old(created), factories, Elements(added))
    {
      ghost var before, start := factories, created;
      for i := 0 to |added|
        invariant Valid() && start <= created
        invariant Extends(before, start, factories, Elements(added[..i]))
      {
        ElementsStep(added, i);
        if added[i] !in factories {
          StartFactory(added[i]);
        }
      }
      assert added[..|added|] == added;
    }

    /** Removed namespaces lose their factory, added ones get a new one, the rest keep theirs. */
    method HandleShardChange(added: seq<string>, removed: seq<string>)
      requires Valid()
      modifies this`factories, this`created, this`cancelled, this`namespaceOf
      ensures Valid() && old(created) <= created
      ensures stopped ==> factories == old(factories) && created == old(created)
      ensures !stopped ==>
        Extends(old(factories) - Elements(removed), old(created), factories, Elements(added))
    {
      if stopped {
        return;
      }
      TearDown(removed);
      StartAll(added);
    }

    function GetFactory(ns: string): Option<nat>
      reads this
    {
      if ns in factories then Some(factories[ns]) else None
    }

    /** Cancels every live factory; the loop order over the map is arbitrary. */
    method Stop()
      requires Valid()
      modifies this
      ensures Valid() && stopped && factories == map[] && created == old(created)
      ensures forall t: nat :: t < created ==> cancelled[t] == 1
    {
      while factories != map[]
        invariant Valid() && created == old(created)
        decreases |factories|
      {
        var ns :| ns in factories;
        CancelFactory(ns);
      }
      stopped := true;
    }
  }

  /** Handlers are registered once on the factory of each newly wired namespace, and nowhere else. */
  ghost predicate RegistersOnce(factories: map<string, nat>, before: multiset<nat>, after: multiset<nat>, wired: set<string>) {
    && (forall ns :: ns in factories ==>
          after[factories[ns]] == before[factories[ns]] + if ns in wired then 1 else 0)
    && (forall t :: after[t] != before[t] ==> exists ns :: ns in factories && factories[ns] == t)
  }

  /** No factory has its handlers registered twice, and every live one has them. */
  ghost predicate AllRegistered(factories: map<string, nat>, created: nat, registered: multiset<nat>) {
    && (forall t: nat :: registered[t] <= 1 && (created <= t ==> registered[t] == 0))
    && (forall ns :: ns in factories ==> registered[factories[ns]] == 1)
  }

  lemma RegistrationKept(f: map<string, nat>, created: nat, before: multiset<nat>,
                         f': map<string, nat>, created': nat, after: multiset<nat>, wired: set<string>)
    requires AllRegistered(f, created, before) && RegistersOnce(f', before, after, wired) && created <= created'
    requires forall ns :: ns in f' ==> f'[ns] < created' && (ns in wired <==> ns !in f)
    requires forall ns :: ns in f' ==> if ns in f then f'[ns] == f[ns] else created <= f'[ns]
    ensures AllRegistered(f', created', after)
  {
    forall t: nat ensures after[t] <= 1 && (created' <= t ==> after[t] == 0) {
      if after[t] != before[t] {
        var ns :| ns in f' && f'[ns] == t;
      }
    }
  }

  /** Replaying a difference leads from one assignment to the next. */
  lemma DifferenceReplayed(before: set<string>, now: set<string>, added: set<string>, removed: set<string>)
    requires added == now - before && removed == before - now
    ensures before - removed == before * now
    ensures before - removed + added == now && now - (before - removed) == added
  {
  }

  class DetectorBridge {
    var wiredNamespaces: set<string>
    ghost var registered: multiset<nat>

    constructor ()
      ensures wiredNamespaces == {} && registered == multiset{}
    {
      wiredNamespaces, registered := {}, multiset{};
    }

    method Unwire(removed: seq<string>)
      modifies this`wiredNamespaces
      ensures wiredNamespaces == old(wiredNamespaces) - Elements(removed)
    {
      for i := 0 to |removed|
        invariant wiredNamespaces == old(wiredNamespaces) - Elements(removed[..i])
      {
        ElementsStep(removed, i);
        wiredNamespaces := wiredNamespaces - {removed[i]};
      }
      assert removed[..|removed|] == removed;
    }

    method Wire(informers: InformerManager, added: seq<string>)
      requires informers.Valid()
      modifies this
      ensures wiredNamespaces == old(wiredNamespaces) + Elements(added) * informers.factories.Keys
      ensures RegistersOnce(informers.factories, old(registered), registered, wiredNamespaces - old(wiredNamespaces))
    {
      for i := 0 to |added|
        invariant wiredNamespaces == old(wiredNamespaces) + Elements(added[..i]) * informers.factories.Keys
        invariant RegistersOnce(informers.factories, old(registered), registered, wiredNamespaces - old(wiredNamespaces))
      {
        var ns := added[i];
        ElementsStep(added, i);
        if ns in wiredNamespaces {
          continue;
        }
        var factory := informers.GetFactory(ns);
        if factory == None {
          continue;
        }
        ghost var before, was := registered, wiredNamespaces;
        registered := registered + multiset{factory.value};
        wiredNamespaces := wiredNamespaces + {ns};
        assert wiredNamespaces - old(wiredNamespaces) == (was - old(wiredNamespaces)) + {ns};
      }
      assert added[..|added|] == added;
    }

    /** Wires each added namespace that is not wired yet and has a factory. */
    method HandleShardChange(informers: InformerManager, added: seq<string>, removed: seq<string>)
      requires informers.Valid()
      modifies this
      ensures wiredNamespaces == old(wiredNamespaces) - Elements(removed)
                                 + Elements(added) * informers.factories.Keys
      ensures RegistersOnce(informers.factories, old(registered), registered,
                            wiredNamespaces - (old(wiredNamespaces) - Elements(removed)))
    {
      Unwire(removed);
      Wire(informers, added);
    }
  }

  datatype Event = ShardMapArrives(content: ShardMap) | InformersStop

  /** One replica with its callbacks in registration order: informers first, then the bridge. */
  class ShardedReplica {
    const manager: Manager
    const informers: InformerManager
    const bridge: DetectorBridge

    ghost predicate Valid()
      reads this, manager, informers, bridge
    {
      && informers.Valid()
      && Tracks()
      && AllRegistered(informers.factories, informers.created, bridge.registered)
    }

    /** The three indexes agree until the informers stop; afterwards nothing new is wired. */
    ghost predicate Tracks()
      reads this, manager, informers, bridge
    {
      if informers.stopped then bridge.wiredNamespaces <= manager.assignedNamespaces
      else informers.factories.Keys == manager.assignedNamespaces == bridge.wiredNamespaces
    }

    constructor (replicaID: string, numReplicas: int, excludeNamespaces: set<string>)
      ensures Valid() && !informers.stopped && manager.replicaID == replicaID
      ensures fresh(manager) && fresh(informers) && fresh(bridge)
    {
      manager := new Manager(replicaID, numReplicas, excludeNamespaces);
      informers := new InformerManager();
      bridge := new DetectorBridge();
    }

    method Apply(content: ShardMap)
      requires Valid()
      modifies manager, informers, bridge
      ensures Valid() && informers.stopped == old(informers.stopped)
      ensures manager.assignedNamespaces == Entry(content, manager.replicaID)
      ensures informers.stopped ==>
        bridge.wiredNamespaces == old(bridge.wiredNamespaces) * manager.assignedNamespaces
    {
      ghost var before := manager.assignedNamespaces;
      var added, removed := manager.ApplyShardMap(content);
      assert Elements(added) == manager.assignedNamespaces - before;
      assert Elements(removed) == before - manager.assignedNamespaces;
      if |added| == 0 && |removed| == 0 {
        assert manager.assignedNamespaces == before;
        return;
      }
      Notify(before, added, removed);
    }

    /** The callbacks, once the manager has moved on from the assignment `before`. */
    method Notify(ghost before: set<string>, added: seq<string>, removed: seq<string>)
      requires informers.Valid()
      requires AllRegistered(informers.factories, informers.created, bridge.registered)
      requires if informers.stopped then bridge.wiredNamespaces <= before
               else informers.factories.Keys == before == bridge.wiredNamespaces
      requires Elements(added) == manager.assignedNamespaces - before
      requires Elements(removed) == before - manager.assignedNamespaces
      modifies informers, bridge
      ensures Valid() && informers.stopped == old(informers.stopped)
      ensures informers.stopped ==>
        bridge.wiredNamespaces == old(bridge.wiredNamespaces) * manager.assignedNamespaces
    {
      ghost var f, created, registered := informers.factories, informers.created, bridge.registered;
      ghost var now, gone := manager.assignedNamespaces, Elements(removed);
      ghost var kept := bridge.wiredNamespaces - gone;
      DifferenceReplayed(before, now, Elements(added), gone);
      informers.HandleShardChange(added, removed);
      bridge.HandleShardChange(informers, added, removed);
      if informers.stopped {
        assert bridge.wiredNamespaces == kept;
        RegistrationKept(f, created, registered, f, created, bridge.registered, {});
      } else {
        assert informers.factories.Keys == now == bridge.wiredNamespaces;
        RegistrationKept(f, created, registered, informers.factories, informers.created, bridge.registered, Elements(added));
      }
    }

    /** After any run of map applications and stops, the indexes are in step. */
    method Run(events: seq<Event>)
      requires Valid()
      modifies manager, informers, bridge
      ensures Valid()
      ensures informers.stopped <==> old(informers.stopped) || InformersStop in events
      ensures old(informers.stopped) ==> bridge.wiredNamespaces <= old(bridge.wiredNamespaces)
    {
      for i := 0 to |events|
        invariant Valid()
        invariant informers.stopped <==> old(informers.stopped) || InformersStop in events[..i]
        invariant old(informers.stopped) ==> bridge.wiredNamespaces <= old(bridge.wiredNamespaces)
      {
        match events[i] {
          case ShardMapArrives(content) => Apply(content);
          case InformersStop => informers.Stop();
        }
      }
      assert events[..|events|] == events;
    }
  }
}
