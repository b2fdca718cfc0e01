/**
 Super-event IDs are drawn while a rule visits its groups, so they depend on the visiting order.
 Apart from the IDs, the outcome of a window does not.
 */
module CorrelationGroups {
  import opened Prelude
  import opened Events
  import opened Correlator

  function Anonymous(se: SuperEvent): SuperEvent {
    se.(id := "")
  }

  function AllAnonymous(supers: seq<SuperEvent>): seq<SuperEvent> {
    seq(|supers|, i requires 0 <= i < |supers| => Anonymous(supers[i]))
  }

  /** The table that draws where `uuids` draws, but always the empty ID. */
  ghost predicate Blanks(uuids: Uuids, blank: Uuids) {
    forall rule, k :: blank(rule, k) == if uuids(rule, k).Some? then Some("") else None
  }

  lemma BuildForgets(rule: Rule, live: seq<FaultEvent>, uuids: Uuids, blank: Uuids, k: Key)
    requires Blanks(uuids, blank) && (HasTrigger(rule) ==> LastTrigger(rule, live, k).Some?)
    ensures var se := Build(rule, live, uuids, k);
      Build(rule, live, blank, k) == if se.Some? then Some(Anonymous(se.value)) else None
  {
  }

  lemma RuleForgets(cfg: Config, rule: Rule, live: seq<FaultEvent>, uuids: Uuids, blank: Uuids, supers: seq<SuperEvent>)
    requires Blanks(uuids, blank) && RuleSpec(cfg, rule, live, uuids, supers)
    ensures RuleSpec(cfg, rule, live, blank, AllAnonymous(supers))
  {
    var all := AllAnonymous(supers);
    forall i | 0 <= i < |all| ensures Makes(cfg, rule, live, blank, all[i]) && KeyOf(rule, all[i]) == KeyOf(rule, supers[i]) {
      assert Makes(cfg, rule, live, uuids, supers[i]);
      BuildForgets(rule, live, uuids, blank, KeyOf(rule, supers[i]));
    }
    forall k | Qualifies(cfg, rule, live, k) && Build(rule, live, blank, k).Some?
      ensures Build(rule, live, blank, k).value in all
    {
      BuildForgets(rule, live, uuids, blank, k);
      var i :| 0 <= i < |supers| && supers[i] == Build(rule, live, uuids, k).value;
      assert all[i] == Build(rule, live, blank, k).value;
    }
  }

  lemma {:induction false} ConsumedForgets(supers: seq<SuperEvent>)
    ensures ConsumedBy(AllAnonymous(supers)) == ConsumedBy(supers)
  {
    if supers != [] {
      var n := |supers| - 1;
      ConsumedForgets(supers[..n]);
      assert AllAnonymous(supers)[..n] == AllAnonymous(supers[..n]);
    }
  }

  function PhasesAnonymous(phases: seq<seq<SuperEvent>>): seq<seq<SuperEvent>> {
    seq(|phases|, n requires 0 <= n < |phases| => AllAnonymous(phases[n]))
  }

  lemma PrefixAnonymous(phases: seq<seq<SuperEvent>>, n: nat)
    requires n < |phases|
    ensures PhasesAnonymous(phases)[..n] == PhasesAnonymous(phases[..n])
    ensures PhasesAnonymous(phases)[n] == AllAnonymous(phases[n])
  {
  }

  lemma {:induction false} ConsumedAfterForgets(phases: seq<seq<SuperEvent>>)
    ensures ConsumedAfter(PhasesAnonymous(phases)) == ConsumedAfter(phases)
  {
    if phases != [] {
      var n := |phases| - 1;
      ConsumedAfterForgets(phases[..n]);
      PrefixAnonymous(phases, n);
      ConsumedForgets(phases[n]);
    }
  }

  lemma AnonymousConcat(a: seq<SuperEvent>, b: seq<SuperEvent>)
    ensures AllAnonymous(a + b) == AllAnonymous(a) + AllAnonymous(b)
  {
  }

  lemma {:induction false} FlattenForgets(phases: seq<seq<SuperEvent>>)
    ensures Flatten(PhasesAnonymous(phases)) == AllAnonymous(Flatten(phases))
  {
    if phases != [] {
      var n := |phases| - 1;
      FlattenForgets(phases[..n]);
      PrefixAnonymous(phases, n);
      AnonymousConcat(Flatten(phases[..n]), phases[n]);
    }
  }

  lemma PhaseForgets(cfg: Config, uuids: Uuids, blank: Uuids, events: seq<FaultEvent>, phases: seq<seq<SuperEvent>>, n: nat)
    requires n < |phases| <= |RULES| && Blanks(uuids, blank) && PhaseSpec(cfg, uuids, events, phases, n)
    ensures PhaseSpec(cfg, blank, events, PhasesAnonymous(phases), n)
  {
    PrefixAnonymous(phases, n);
    ConsumedAfterForgets(phases[..n]);
    if RuleEnabled(cfg, RULES[n]) {
      RuleForgets(cfg, RULES[n], Unconsumed(events, ConsumedAfter(phases[..n])), uuids, blank, phases[n]);
    }
  }

  lemma PhasesForget(cfg: Config, uuids: Uuids, blank: Uuids, events: seq<FaultEvent>, phases: seq<seq<SuperEvent>>)
    requires Blanks(uuids, blank) && PhasesSpec(cfg, uuids, events, phases)
    ensures PhasesSpec(cfg, blank, events, PhasesAnonymous(phases))
  {
    forall n | 0 <= n < |phases| ensures PhaseSpec(cfg, blank, events, PhasesAnonymous(phases), n) {
      assert PhaseSpec(cfg, uuids, events, phases, n);
      PhaseForgets(cfg, uuids, blank, events, phases, n);
    }
  }

  function ResultAnonymous(result: CorrelationResult): CorrelationResult {
    CorrelationResult(AllAnonymous(result.superEvents), result.uncorrelated)
  }

  lemma CorrelationForgets(cfg: Config, uuids: Uuids, blank: Uuids, events: seq<FaultEvent>, result: CorrelationResult)
    requires Blanks(uuids, blank) && Correlates(cfg, uuids, events, result)
    ensures Correlates(cfg, blank, events, ResultAnonymous(result))
  {
    var phases :| Explains(cfg, uuids, events, phases, result);
    PhasesForget(cfg, uuids, blank, events, phases);
    ConsumedAfterForgets(phases);
    FlattenForgets(phases);
    assert Explains(cfg, blank, events, PhasesAnonymous(phases), ResultAnonymous(result));
  }

  /**
   Whatever IDs two evaluations draw, as long as drawing succeeds for the same groups (for all of them, say), they
   form the same groups with the same primary resources and severities, and leave the same events.
   */
  lemma GroupsDeterministic(cfg: Config, events: seq<FaultEvent>, u: Uuids, v: Uuids, a: CorrelationResult, b: CorrelationResult)
    requires forall rule, k :: u(rule, k).Some? <==> v(rule, k).Some?
    requires Correlates(cfg, u, events, a) && Correlates(cfg, v, events, b)
    ensures multiset(AllAnonymous(a.superEvents)) == multiset(AllAnonymous(b.superEvents)) && a.uncorrelated == b.uncorrelated
  {
    var blank: Uuids := (rule, k) => if u(rule, k).Some? then Some("") else None;
    CorrelationForgets(cfg, u, blank, events, a);
    CorrelationForgets(cfg, v, blank, events, b);
    CorrelationDeterministic(cfg, blank, events, ResultAnonymous(a), ResultAnonymous(b));
  }
}
