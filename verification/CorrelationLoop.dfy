/** The correlator around the rules: events are buffered, and each tick swaps the buffer out and evaluates it. */
module CorrelationLoop {
  import opened Prelude
  import opened Events
  import opened Correlator

  class CorrelationEngine {
    const enabled: bool
    const cfg: Config
    var buffer: seq<FaultEvent>
    /** Everything submitted, and everything handed to the output handler. */
    ghost var submitted: seq<FaultEvent>
    ghost var delivered: multiset<FaultEvent>

    /** What was submitted has been delivered or is in the buffer, once. */
    ghost predicate Valid()
      reads this
    {
      && ValidConfig(cfg) && (!enabled ==> buffer == [])
      && DistinctIds(submitted) && DistinctIds(buffer) && (forall e :: e in buffer ==> e in submitted)
      && multiset(submitted) == delivered + multiset(buffer)
    }

    constructor (enabled: bool, cfg: Config)
      requires ValidConfig(cfg)
      ensures Valid() && this.enabled == enabled && this.cfg == cfg && submitted == [] && buffer == []
    {
      this.enabled, this.cfg := enabled, cfg;
      buffer, submitted, delivered := [], [], multiset{};
    }

    /** Buffers the event, or passes it straight to the handler when correlation is off. */
    method Submit(event: FaultEvent) returns (output: Option<CorrelationResult>)
      requires Valid() && event.id !in Ids(submitted)
      modifies this
      ensures Valid() && submitted == old(submitted) + [event]
      ensures enabled ==> output == None && buffer == old(buffer) + [event] && delivered == old(delivered)
      ensures !enabled ==> output == Some(CorrelationResult([], [event])) && delivered == old(delivered) + multiset{event}
    {
      FreshId(submitted, event);
      FreshId(buffer, event);
      submitted := submitted + [event];
      if !enabled {
        delivered := delivered + multiset{event};
        return Some(CorrelationResult([], [event]));
      }
      buffer := buffer + [event];
      return None;
    }

    /** Hands the handler exactly the buffered events, correlated; an empty window is not reported. */
    method EvaluateAndEmit(uuids: Uuids) returns (output: Option<CorrelationResult>)
      requires Valid()
      modifies this
      ensures Valid() && buffer == [] && submitted == old(submitted)
      ensures output.None? <==> old(buffer) == []
      ensures output.Some? ==> Correlates(cfg, uuids, old(buffer), output.value)
      ensures delivered == multiset(submitted) == if output.None? then old(delivered) else
        old(delivered) + multiset(EventsOf(output.value.superEvents)) + multiset(output.value.uncorrelated)
    {
      var events := buffer;
      buffer := [];
      if |events| == 0 {
        return None;
      }
      var result := Evaluate(cfg, events, uuids);
      CorrelationConserves(cfg, uuids, events, result);
      NothingFromNothing(events, result);
      Regroup(delivered, multiset(EventsOf(result.superEvents)), multiset(result.uncorrelated));
      if |result.superEvents| > 0 || |result.uncorrelated| > 0 {
        delivered := delivered + multiset(EventsOf(result.superEvents)) + multiset(result.uncorrelated);
        return Some(result);
      }
      return None;
    }
  }

  lemma FreshId(events: seq<FaultEvent>, e: FaultEvent)
    requires DistinctIds(events)
    ensures e.id !in Ids(events) ==> DistinctIds(events + [e])
  {
    forall x | x in events ensures x.id in Ids(events) {
    }
  }

  /** A window with events always has something to report. */
  lemma NothingFromNothing(events: seq<FaultEvent>, result: CorrelationResult)
    requires multiset(events) == multiset(EventsOf(result.superEvents)) + multiset(result.uncorrelated) && events != []
    ensures result.superEvents != [] || result.uncorrelated != []
  {
    assert events[0] in multiset(events);
  }
}
