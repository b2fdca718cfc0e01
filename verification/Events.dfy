/** The data that flows through the pipeline, and how a group of events becomes one. */
module Events {
  import opened Prelude

  /** `Other` stands for any text that is not one of the three severities. */
  datatype Severity = Critical | Warning | Info | Other(text: string)

  datatype ResourceRef = ResourceRef(kind: string, ns: string, name: string, uid: string)

  datatype FaultEvent = FaultEvent(
    id: string,
    detector: string,
    severity: Severity,
    resource: ResourceRef,
    annotations: map<string, string>)

  datatype SuperEvent = SuperEvent(
    id: string,
    rule: string,
    primary: ResourceRef,
    events: seq<FaultEvent>,
    severity: Severity)

  function SeverityRank(s: Severity): nat {
    match s
    case Critical => 3
    case Warning => 2
    case Info => 1
    case Other(_) => 0
  }

  function MoreSevere(a: Severity, b: Severity): Severity {
    if SeverityRank(b) > SeverityRank(a) then b else a
  }

  function Highest(events: seq<FaultEvent>): Severity {
    if events == [] then Info
    else MoreSevere(Highest(events[..|events| - 1]), events[|events| - 1].severity)
  }

  method HighestSeverity(events: seq<FaultEvent>) returns (highest: Severity)
    ensures highest == Highest(events)
  {
    highest := Info;
    for i := 0 to |events|
      invariant highest == Highest(events[..i])
    {
      assert events[..i + 1][..i] == events[..i];
      if SeverityRank(events[i].severity) > SeverityRank(highest) {
        highest := events[i].severity;
      }
    }
    assert events[..|events|] == events;
  }

  /** No event is more severe, and some event is that severe unless none has a known severity. */
  lemma {:induction false} HighestIsMaximum(events: seq<FaultEvent>)
    ensures forall e :: e in events ==> SeverityRank(e.severity) <= SeverityRank(Highest(events))
    ensures (exists e :: e in events && e.severity == Highest(events))
         || (Highest(events) == Info && forall e :: e in events ==> e.severity.Other?)
         || events == []
  {
    if events != [] {
      var init, last := events[..|events| - 1], events[|events| - 1];
      HighestIsMaximum(init);
      assert events == init + [last];
      if init != [] && (exists e :: e in init && e.severity == Highest(init)) {
        var e :| e in init && e.severity == Highest(init);
        assert e in events && last in events;
      } else {
        assert last in events;
      }
    }
  }

  ghost predicate Has(events: seq<FaultEvent>, s: Severity) {
    exists e :: e in events && e.severity == s
  }

  /** Critical if any event is, otherwise warning if any event is, otherwise info, whatever the rest says. */
  lemma {:induction false} HighestByName(events: seq<FaultEvent>)
    ensures Highest(events) == Critical <==> Has(events, Critical)
    ensures Highest(events) == Warning <==> !Has(events, Critical) && Has(events, Warning)
    ensures Highest(events) == Info <==> !Has(events, Critical) && !Has(events, Warning)
  {
    if events != [] {
      var init, last := events[..|events| - 1], events[|events| - 1];
      HighestByName(init);
      assert events == init + [last] && last in events;
      forall s ensures Has(events, s) <==> Has(init, s) || last.severity == s {
        if Has(init, s) {
          var e :| e in init && e.severity == s;
          assert e in events;
        }
      }
    }
  }

  /** Fails on an empty kind, name or group, or when no UUID can be drawn. */
  function NewSuperEvent(rule: string, primary: ResourceRef, events: seq<FaultEvent>, uuid: Option<string>): Option<SuperEvent> {
    if rule == "" || primary.kind == "" || primary.name == "" || events == [] || uuid.None? then None
    else Some(SuperEvent(uuid.value, rule, primary, events, Highest(events)))
  }
}
