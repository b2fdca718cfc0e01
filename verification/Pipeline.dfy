/**
 The pipeline from fault event to processed report, as steps of its goroutines before
 shutdown: submission, the single-threaded correlation loop, and the workers of the
 gathering, analysis and sink stages. A stage's workers are the items they hold.
 */
module Pipeline {
  import opened Prelude
  import opened Events
  import opened PriorityQueue
  import Correlator

  /** What an item is about. The source promises that exactly one of the two is set. */
  datatype Subject = Subject(faultEvent: Option<FaultEvent>, superEvent: Option<SuperEvent>)

  datatype GatherItem = GatherItem(subject: Subject)

  datatype DiagnosticBundle = DiagnosticBundle(subject: Subject)

  datatype Report = Report(eventID: string, bundle: DiagnosticBundle, fallback: bool)

  /** Every event an item refers to, through either pointer. */
  function SubjectEvents(subject: Subject): seq<FaultEvent> {
    (if subject.superEvent.Some? then subject.superEvent.value.events else []) +
    (if subject.faultEvent.Some? then [subject.faultEvent.value] else [])
  }

  ghost predicate WellFormed(subject: Subject) {
    subject.faultEvent.Some? <==> subject.superEvent.None?
  }

  /** processGatherItem: the super-event wins, then the fault event; an item with neither is dropped. */
  function Gathered(item: GatherItem): Option<AnalysisItem<DiagnosticBundle>> {
    match item.subject.superEvent
    case Some(se) => Some(AnalysisItem(DiagnosticBundle(Subject(None, Some(se))), se.severity))
    case None =>
      match item.subject.faultEvent
      case Some(fe) => Some(AnalysisItem(DiagnosticBundle(Subject(Some(fe), None)), fe.severity))
      case None => None
  }

  /** processAnalysisItem: a failed analysis still yields a report, with the raw diagnostics. */
  function Analyzed(item: AnalysisItem<DiagnosticBundle>, failed: bool): Report {
    var subject := item.bundle.subject;
    var id := if subject.faultEvent.Some? then subject.faultEvent.value.id
              else if subject.superEvent.Some? then subject.superEvent.value.id else "";
    Report(id, item.bundle, failed)
  }

  /** handleCorrelationResult: super-events first, then the uncorrelated events, one item each. */
  function Handled(result: Correlator.CorrelationResult): seq<GatherItem> {
    GroupItems(result.superEvents) + SingleItems(result.uncorrelated)
  }

  function GroupItems(supers: seq<SuperEvent>): seq<GatherItem> {
    if supers == [] then []
    else GroupItems(supers[..|supers| - 1]) + [GatherItem(Subject(None, Some(supers[|supers| - 1])))]
  }

  function SingleItems(events: seq<FaultEvent>): seq<GatherItem> {
    if events == [] then []
    else SingleItems(events[..|events| - 1]) + [GatherItem(Subject(Some(events[|events| - 1]), None))]
  }

  /** One item for each super-event, in order, and then one for each uncorrelated event, in order. */
  lemma HandledInOrder(result: Correlator.CorrelationResult, i: nat)
    ensures |Handled(result)| == |result.superEvents| + |result.uncorrelated|
    ensures i < |result.superEvents| ==> Handled(result)[i] == GatherItem(Subject(None, Some(result.superEvents[i])))
    ensures |result.superEvents| <= i < |Handled(result)| ==>
      Handled(result)[i] == GatherItem(Subject(Some(result.uncorrelated[i - |result.superEvents|]), None))
  {
    GroupItemsAt(result.superEvents);
    SingleItemsAt(result.uncorrelated);
  }

  lemma {:induction false} GroupItemsAt(supers: seq<SuperEvent>)
    ensures |GroupItems(supers)| == |supers|
    ensures forall i :: 0 <= i < |supers| ==> GroupItems(supers)[i] == GatherItem(Subject(None, Some(supers[i])))
  {
    if supers != [] {
      GroupItemsAt(supers[..|supers| - 1]);
    }
  }

  lemma {:induction false} SingleItemsAt(events: seq<FaultEvent>)
    ensures |SingleItems(events)| == |events|
    ensures forall i :: 0 <= i < |events| ==> SingleItems(events)[i] == GatherItem(Subject(Some(events[i]), None))
  {
    if events != [] {
      SingleItemsAt(events[..|events| - 1]);
    }
  }

  /** The handler's two loops. */
  method HandleCorrelationResult(result: Correlator.CorrelationResult, queue: seq<GatherItem>) returns (queue': seq<GatherItem>)
    ensures queue' == queue + Handled(result)
  {
    queue' := queue;
    for i := 0 to |result.superEvents|
      invariant queue' == queue + GroupItems(result.superEvents[..i])
    {
      assert result.superEvents[..i + 1][..i] == result.superEvents[..i];
      queue' := queue' + [GatherItem(Subject(None, Some(result.superEvents[i])))];
    }
    assert result.superEvents[..|result.superEvents|] == result.superEvents;
    for i := 0 to |result.uncorrelated|
      invariant queue' == queue + GroupItems(result.superEvents) + SingleItems(result.uncorrelated[..i])
    {
      assert result.uncorrelated[..i + 1][..i] == result.uncorrelated[..i];
      queue' := queue' + [GatherItem(Subject(Some(result.uncorrelated[i]), None))];
    }
    assert result.uncorrelated[..|result.uncorrelated|] == result.uncorrelated;
  }

  datatype State = State(
    accepted: seq<FaultEvent>,
    buffer: seq<FaultEvent>,
    window: seq<FaultEvent>,
    emitting: seq<GatherItem>,
    gatherQueue: seq<GatherItem>,
    gathering: seq<GatherItem>,
    analysisQueue: seq<AnalysisItem<DiagnosticBundle>>,
    analyzing: seq<AnalysisItem<DiagnosticBundle>>,
    sinkQueue: seq<Report>,
    sinking: seq<Report>,
    processed: seq<Report>)

  const INIT := State([], [], [], [], [], [], [], [], [], [], [])

  datatype Step =
    | Submit(event: FaultEvent, excluded: bool)       // SubmitFaultEvent, with the filter's verdict
    | Swap                                            // evaluateAndEmit takes the buffer
    | Evaluate(uuids: Correlator.Uuids, result: Correlator.CorrelationResult)
    | Enqueue                                         // the handler adds one item to the gathering queue
    | GatherGet
    | GatherDone(worker: nat)
    | AnalysisGet
    | AnalysisDone(worker: nat, failed: bool)
    | SinkGet
    | SinkDone(worker: nat)

  datatype Settings = Settings(correlate: bool, rules: Correlator.Config)

  /** Fresh events have fresh IDs. The correlation loop handles one window at a time. */
  ghost predicate Enabled(cfg: Settings, s: State, step: Step) {
    match step
    case Submit(e, _) => e.id !in Correlator.Ids(s.accepted)
    case Swap => cfg.correlate && s.window == [] && s.emitting == [] && s.buffer != []
    case Evaluate(uuids, result) => s.window != [] && Correlator.Correlates(cfg.rules, uuids, s.window, result)
    case Enqueue => s.emitting != []
    case GatherGet => s.gatherQueue != []
    case GatherDone(i) => i < |s.gathering|
    case AnalysisGet => s.analysisQueue != []
    case AnalysisDone(i, _) => i < |s.analyzing|
    case SinkGet => s.sinkQueue != []
    case SinkDone(i) => i < |s.sinking|
  }

  ghost function Next(cfg: Settings, s: State, step: Step): State
    requires Enabled(cfg, s, step)
  {
    match step
    case Submit(e, excluded) => if excluded then s else if cfg.correlate then Buffered(s, e) else PassedThrough(s, e)
    case Swap => Swapped(s)
    case Evaluate(_, result) => Emitted(s, Handled(result))
    case Enqueue => Enqueued(s)
    case GatherGet => GatherTaken(s)
    case GatherDone(i) =>
      var item := Gathered(s.gathering[i]);
      if item.Some? then GatherFinished(s, i, item.value) else s.(gathering := WithoutIndex(s.gathering, i))
    case AnalysisGet => AnalysisTaken(s)
    case AnalysisDone(i, failed) => AnalysisFinished(s, i, Analyzed(s.analyzing[i], failed))
    case SinkGet => SinkTaken(s)
    case SinkDone(i) => SinkFinished(s, i)
  }

  function Buffered(s: State, e: FaultEvent): State {
    s.(accepted := s.accepted + [e], buffer := s.buffer + [e])
  }

  function PassedThrough(s: State, e: FaultEvent): State {
    s.(accepted := s.accepted + [e], gatherQueue := s.gatherQueue + [GatherItem(Subject(Some(e), None))])
  }

  function Swapped(s: State): State {
    s.(window := s.buffer, buffer := [])
  }

  function Emitted(s: State, items: seq<GatherItem>): State {
    s.(window := [], emitting := s.emitting + items)
  }

  function Enqueued(s: State): State
    requires s.emitting != []
  {
    s.(emitting := s.emitting[1..], gatherQueue := s.gatherQueue + [s.emitting[0]])
  }

  function GatherTaken(s: State): State
    requires s.gatherQueue != []
  {
    s.(gatherQueue := s.gatherQueue[1..], gathering := s.gathering + [s.gatherQueue[0]])
  }

  function GatherFinished(s: State, i: nat, item: AnalysisItem<DiagnosticBundle>): State
    requires i < |s.gathering|
  {
    s.(gathering := WithoutIndex(s.gathering, i), analysisQueue := s.analysisQueue + [item])
  }

  /** The analysis queue delivers by severity. */
  function AnalysisTaken(s: State): State
    requires s.analysisQueue != []
  {
    s.(analysisQueue := AfterGet(s.analysisQueue),
       analyzing := s.analyzing + [s.analysisQueue[NextIndex(s.analysisQueue)]])
  }

  function AnalysisFinished(s: State, i: nat, report: Report): State
    requires i < |s.analyzing|
  {
    s.(analyzing := WithoutIndex(s.analyzing, i), sinkQueue := s.sinkQueue + [report])
  }

  function SinkTaken(s: State): State
    requires s.sinkQueue != []
  {
    s.(sinkQueue := s.sinkQueue[1..], sinking := s.sinking + [s.sinkQueue[0]])
  }

  function SinkFinished(s: State, i: nat): State
    requires i < |s.sinking|
  {
    s.(sinking := WithoutIndex(s.sinking, i), processed := s.processed + [s.sinking[i]])
  }

  // ----- weighing the stages -----

  /** A measure of lists of events, and of lists of the items that carry them at each stage. */
  datatype Measures = Measures(
    events: seq<FaultEvent> -> nat,
    gathers: seq<GatherItem> -> nat,
    analyses: seq<AnalysisItem<DiagnosticBundle>> -> nat,
    reports: seq<Report> -> nat)

  ghost predicate Measured(m: Measures) {
    Additive(m.events) && Additive(m.gathers) && Additive(m.analyses) && Additive(m.reports)
  }

  /** An item measures the same at every stage. */
  ghost predicate Carried(m: Measures) {
    && (forall e :: m.gathers([GatherItem(Subject(Some(e), None))]) == m.events([e]))
    && (forall item: GatherItem :: WellFormed(item.subject) ==>
          Gathered(item).Some? && m.analyses([Gathered(item).value]) == m.gathers([item]))
    && (forall item, failed :: m.reports([Analyzed(item, failed)]) == m.analyses([item]))
  }

  datatype Place =
    | InBuffer | InWindow | BeingEmitted | InGatherQueue | AtGatherWorker
    | InAnalysisQueue | AtAnalysisWorker | InSinkQueue | AtSinkWorker | InProcessedReport

  ghost function At(s: State, place: Place, m: Measures): nat {
    match place
    case InBuffer => m.events(s.buffer)
    case InWindow => m.events(s.window)
    case BeingEmitted => m.gathers(s.emitting)
    case InGatherQueue => m.gathers(s.gatherQueue)
    case AtGatherWorker => m.gathers(s.gathering)
    case InAnalysisQueue => m.analyses(s.analysisQueue)
    case AtAnalysisWorker => m.analyses(s.analyzing)
    case InSinkQueue => m.reports(s.sinkQueue)
    case AtSinkWorker => m.reports(s.sinking)
    case InProcessedReport => m.reports(s.processed)
  }

  ghost function Everywhere(s: State, m: Measures): nat {
    At(s, InBuffer, m) + At(s, InWindow, m) + At(s, BeingEmitted, m)
    + At(s, InGatherQueue, m) + At(s, AtGatherWorker, m)
    + At(s, InAnalysisQueue, m) + At(s, AtAnalysisWorker, m)
    + At(s, InSinkQueue, m) + At(s, AtSinkWorker, m) + At(s, InProcessedReport, m)
  }

  ghost predicate ItemsWellFormed(s: State) {
    && (forall item :: item in s.emitting ==> WellFormed(item.subject))
    && (forall item :: item in s.gatherQueue ==> WellFormed(item.subject))
    && (forall item :: item in s.gathering ==> WellFormed(item.subject))
  }

  ghost predicate IdsTracked(s: State) {
    && Correlator.DistinctIds(s.accepted) && Correlator.DistinctIds(s.buffer) && Correlator.DistinctIds(s.window)
    && (forall e :: e in s.buffer ==> e in s.accepted)
  }

  /** How much more is in the places than was accepted. */
  ghost function Excess(s: State, m: Measures): int {
    Everywhere(s, m) - m.events(s.accepted)
  }

  // ----- where a step moves things -----

  /** From `s` to `t`, what measures `n` went from one place to another, and nothing else moved. */
  ghost predicate Flows(s: State, t: State, m: Measures, from: Place, to: Place, n: int) {
    && t.accepted == s.accepted
    && forall place ::
         At(t, place, m) == At(s, place, m) - (if place == from then n else 0) + (if place == to then n else 0)
  }

  /** An event of measure `n` came in at a place. */
  ghost predicate Enters(s: State, t: State, m: Measures, e: FaultEvent, to: Place) {
    && t.accepted == s.accepted + [e]
    && forall place :: At(t, place, m) == At(s, place, m) + if place == to then m.events([e]) else 0
  }

  lemma FlowConserves(s: State, t: State, m: Measures, from: Place, to: Place, n: int)
    requires Flows(s, t, m, from, to, n) && from != to
    ensures Excess(t, m) == Excess(s, m)
  {
  }

  lemma EntryConserves(s: State, t: State, m: Measures, e: FaultEvent, to: Place)
    requires Measured(m) && Enters(s, t, m, e, to)
    ensures Excess(t, m) == Excess(s, m)
  {
  }

  lemma BufferedEnters(s: State, e: FaultEvent, m: Measures)
    requires Measured(m)
    ensures Enters(s, Buffered(s, e), m, e, InBuffer)
  {
  }

  lemma PassedThroughEnters(s: State, e: FaultEvent, m: Measures)
    requires Measured(m) && m.gathers([GatherItem(Subject(Some(e), None))]) == m.events([e])
    ensures Enters(s, PassedThrough(s, e), m, e, InGatherQueue)
  {
  }

  lemma SwappedFlows(s: State, m: Measures)
    requires Measured(m) && s.window == []
    ensures Flows(s, Swapped(s), m, InBuffer, InWindow, m.events(s.buffer))
  {
  }

  lemma EmittedFlows(s: State, items: seq<GatherItem>, m: Measures)
    requires Measured(m) && m.gathers(items) == m.events(s.window)
    ensures Flows(s, Emitted(s, items), m, InWindow, BeingEmitted, m.events(s.window))
  {
  }

  lemma EnqueuedFlows(s: State, m: Measures)
    requires Measured(m) && s.emitting != []
    ensures Flows(s, Enqueued(s), m, BeingEmitted, InGatherQueue, m.gathers([s.emitting[0]]))
  {
    AdditiveTail(m.gathers, s.emitting);
  }

  lemma GatherTakenFlows(s: State, m: Measures)
    requires Measured(m) && s.gatherQueue != []
    ensures Flows(s, GatherTaken(s), m, InGatherQueue, AtGatherWorker, m.gathers([s.gatherQueue[0]]))
  {
    AdditiveTail(m.gathers, s.gatherQueue);
  }

  lemma GatherFinishedFlows(s: State, i: nat, item: AnalysisItem<DiagnosticBundle>, m: Measures)
    requires Measured(m) && i < |s.gathering| && m.analyses([item]) == m.gathers([s.gathering[i]])
    ensures Flows(s, GatherFinished(s, i, item), m, AtGatherWorker, InAnalysisQueue, m.gathers([s.gathering[i]]))
  {
    AdditiveWithout(m.gathers, s.gathering, i);
  }

  lemma AnalysisTakenFlows(s: State, m: Measures)
    requires Measured(m) && s.analysisQueue != []
    ensures Flows(s, AnalysisTaken(s), m, InAnalysisQueue, AtAnalysisWorker,
                  m.analyses([s.analysisQueue[NextIndex(s.analysisQueue)]]))
  {
    AdditiveWithout(m.analyses, s.analysisQueue, NextIndex(s.analysisQueue));
  }

  lemma AnalysisFinishedFlows(s: State, i: nat, report: Report, m: Measures)
    requires Measured(m) && i < |s.analyzing| && m.reports([report]) == m.analyses([s.analyzing[i]])
    ensures Flows(s, AnalysisFinished(s, i, report), m, AtAnalysisWorker, InSinkQueue, m.analyses([s.analyzing[i]]))
  {
    AdditiveWithout(m.analyses, s.analyzing, i);
  }

  lemma SinkTakenFlows(s: State, m: Measures)
    requires Measured(m) && s.sinkQueue != []
    ensures Flows(s, SinkTaken(s), m, InSinkQueue, AtSinkWorker, m.reports([s.sinkQueue[0]]))
  {
    AdditiveTail(m.reports, s.sinkQueue);
  }

  lemma SinkFinishedFlows(s: State, i: nat, m: Measures)
    requires Measured(m) && i < |s.sinking|
    ensures Flows(s, SinkFinished(s, i), m, AtSinkWorker, InProcessedReport, m.reports([s.sinking[i]]))
  {
    AdditiveWithout(m.reports, s.sinking, i);
  }

  function From(step: Step): Place
    requires !step.Submit?
  {
    match step
    case Swap => InBuffer
    case Evaluate(_, _) => InWindow
    case Enqueue => BeingEmitted
    case GatherGet => InGatherQueue
    case GatherDone(_) => AtGatherWorker
    case AnalysisGet => InAnalysisQueue
    case AnalysisDone(_, _) => AtAnalysisWorker
    case SinkGet => InSinkQueue
    case SinkDone(_) => AtSinkWorker
  }

  function NextPlace(place: Place): Place
    requires place != InProcessedReport
  {
    match place
    case InBuffer => InWindow
    case InWindow => BeingEmitted
    case BeingEmitted => InGatherQueue
    case InGatherQueue => AtGatherWorker
    case AtGatherWorker => InAnalysisQueue
    case InAnalysisQueue => AtAnalysisWorker
    case AtAnalysisWorker => InSinkQueue
    case InSinkQueue => AtSinkWorker
    case AtSinkWorker => InProcessedReport
  }

  /** What a step picks up: the whole buffer or window, the head of a queue, the foremost analysis item, or a worker's item. */
  ghost function PickedUp(s: State, step: Step, m: Measures): nat
    requires !step.Submit?
    requires match step
      case Enqueue => s.emitting != []
      case GatherGet => s.gatherQueue != []
      case GatherDone(i) => i < |s.gathering|
      case AnalysisGet => s.analysisQueue != []
      case AnalysisDone(i, _) => i < |s.analyzing|
      case SinkGet => s.sinkQueue != []
      case SinkDone(i) => i < |s.sinking|
      case _ => true
  {
    match step
    case Swap => m.events(s.buffer)
    case Evaluate(_, _) => m.events(s.window)
    case Enqueue => m.gathers([s.emitting[0]])
    case GatherGet => m.gathers([s.gatherQueue[0]])
    case GatherDone(i) => m.gathers([s.gathering[i]])
    case AnalysisGet => m.analyses([s.analysisQueue[NextIndex(s.analysisQueue)]])
    case AnalysisDone(i, _) => m.analyses([s.analyzing[i]])
    case SinkGet => m.reports([s.sinkQueue[0]])
    case SinkDone(i) => m.reports([s.sinking[i]])
  }

  lemma FrontStepFlows(cfg: Settings, s: State, step: Step, m: Measures)
    requires Enabled(cfg, s, step) && ItemsWellFormed(s) && Measured(m) && Carried(m)
    requires step.Swap? || step.Evaluate? || step.Enqueue? || step.GatherGet? || step.GatherDone?
    requires step.Evaluate? ==> m.gathers(Handled(step.result)) == m.events(s.window)
    ensures Flows(s, Next(cfg, s, step), m, From(step), NextPlace(From(step)), PickedUp(s, step, m))
  {
    match step {
      case Swap => SwappedFlows(s, m);
      case Evaluate(_, result) => EmittedFlows(s, Handled(result), m);
      case Enqueue => EnqueuedFlows(s, m);
      case GatherGet => GatherTakenFlows(s, m);
      case GatherDone(i) =>
        assert s.gathering[i] in s.gathering;
        GatherFinishedFlows(s, i, Gathered(s.gathering[i]).value, m);
    }
  }

  lemma AnalysisStepFlows(cfg: Settings, s: State, step: Step, m: Measures)
    requires Enabled(cfg, s, step) && Measured(m) && Carried(m) && (step.AnalysisGet? || step.AnalysisDone?)
    ensures Flows(s, Next(cfg, s, step), m, From(step), NextPlace(From(step)), PickedUp(s, step, m))
  {
    match step {
      case AnalysisGet => AnalysisTakenFlows(s, m);
      case AnalysisDone(i, failed) => AnalysisFinishedFlows(s, i, Analyzed(s.analyzing[i], failed), m);
    }
  }

  lemma SinkStepFlows(cfg: Settings, s: State, step: Step, m: Measures)
    requires Enabled(cfg, s, step) && Measured(m) && (step.SinkGet? || step.SinkDone?)
    ensures Flows(s, Next(cfg, s, step), m, From(step), NextPlace(From(step)), PickedUp(s, step, m))
  {
    match step {
      case SinkGet => SinkTakenFlows(s, m);
      case SinkDone(i) => SinkFinishedFlows(s, i, m);
    }
  }

  /** Every step after submission carries what it picks up to the next place on the way, and moves nothing else. */
  lemma StepFlows(cfg: Settings, s: State, step: Step, m: Measures)
    requires Enabled(cfg, s, step) && !step.Submit? && ItemsWellFormed(s) && Measured(m) && Carried(m)
    requires step.Evaluate? ==> m.gathers(Handled(step.result)) == m.events(s.window)
    ensures Flows(s, Next(cfg, s, step), m, From(step), NextPlace(From(step)), PickedUp(s, step, m))
  {
    if step.AnalysisGet? || step.AnalysisDone? {
      AnalysisStepFlows(cfg, s, step, m);
    } else if step.SinkGet? || step.SinkDone? {
      SinkStepFlows(cfg, s, step, m);
    } else {
      FrontStepFlows(cfg, s, step, m);
    }
  }

  /** An admitted event enters the buffer, or the gathering queue when correlation is off; an excluded one leaves no trace. */
  lemma SubmitEnters(cfg: Settings, s: State, e: FaultEvent, excluded: bool, m: Measures)
    requires Enabled(cfg, s, Submit(e, excluded)) && Measured(m) && Carried(m)
    ensures excluded ==> Next(cfg, s, Submit(e, excluded)) == s
    ensures !excluded ==> Enters(s, Next(cfg, s, Submit(e, excluded)), m, e, if cfg.correlate then InBuffer else InGatherQueue)
  {
    BufferedEnters(s, e, m);
    PassedThroughEnters(s, e, m);
  }

  // ----- counting the copies of one event -----

  ghost function CopiesOf(e: FaultEvent, subject: Subject): nat {
    multiset(SubjectEvents(subject))[e]
  }

  /** Counts the copies of `e`. */
  ghost function Counting(e: FaultEvent): Measures {
    Measures(events => Total(CopiesAsEvent(e), events),
             items => Total(CopiesAsGather(e), items),
             items => Total(CopiesAsAnalysis(e), items),
             reports => Total(CopiesAsReport(e), reports))
  }

  ghost function CopiesAsEvent(e: FaultEvent): FaultEvent -> nat {
    x => if x == e then 1 else 0
  }

  ghost function CopiesAsGather(e: FaultEvent): GatherItem -> nat {
    (item: GatherItem) => CopiesOf(e, item.subject)
  }

  ghost function CopiesAsAnalysis(e: FaultEvent): AnalysisItem<DiagnosticBundle> -> nat {
    (item: AnalysisItem<DiagnosticBundle>) => CopiesOf(e, item.bundle.subject)
  }

  ghost function CopiesAsReport(e: FaultEvent): Report -> nat {
    (report: Report) => CopiesOf(e, report.bundle.subject)
  }

  lemma CountingMeasures(e: FaultEvent)
    ensures Measured(Counting(e))
  {
    TotalAdditive(Counting(e).events, CopiesAsEvent(e));
    TotalAdditive(Counting(e).gathers, CopiesAsGather(e));
    TotalAdditive(Counting(e).analyses, CopiesAsAnalysis(e));
    TotalAdditive(Counting(e).reports, CopiesAsReport(e));
  }

  /** On a list of one item, a measure is the item's count. */
  lemma CountingOne(e: FaultEvent)
    ensures forall x :: Counting(e).events([x]) == CopiesAsEvent(e)(x)
    ensures forall item :: Counting(e).gathers([item]) == CopiesAsGather(e)(item)
    ensures forall item :: Counting(e).analyses([item]) == CopiesAsAnalysis(e)(item)
    ensures forall report :: Counting(e).reports([report]) == CopiesAsReport(e)(report)
  {
    forall x ensures Counting(e).events([x]) == CopiesAsEvent(e)(x) {
      TotalOne(CopiesAsEvent(e), x);
    }
    forall item ensures Counting(e).gathers([item]) == CopiesAsGather(e)(item) {
      TotalOne(CopiesAsGather(e), item);
    }
    forall item ensures Counting(e).analyses([item]) == CopiesAsAnalysis(e)(item) {
      TotalOne(CopiesAsAnalysis(e), item);
    }
    forall report ensures Counting(e).reports([report]) == CopiesAsReport(e)(report) {
      TotalOne(CopiesAsReport(e), report);
    }
  }

  lemma CountingCarries(e: FaultEvent)
    ensures Carried(Counting(e))
  {
    CountingOne(e);
    forall x ensures CopiesOf(e, Subject(Some(x), None)) == CopiesAsEvent(e)(x) {
      assert SubjectEvents(Subject(Some(x), None)) == [x];
    }
  }

  lemma {:induction false} CountingEvents(e: FaultEvent, events: seq<FaultEvent>)
    ensures Counting(e).events(events) == multiset(events)[e]
  {
    if events != [] {
      CountingEvents(e, events[..|events| - 1]);
      assert events == events[..|events| - 1] + [events[|events| - 1]];
    }
  }

  lemma {:induction false} GroupItemsCounted(e: FaultEvent, supers: seq<SuperEvent>)
    ensures Counting(e).gathers(GroupItems(supers)) == multiset(Correlator.EventsOf(supers))[e]
  {
    if supers != [] {
      var last := supers[|supers| - 1];
      GroupItemsCounted(e, supers[..|supers| - 1]);
      var item := GatherItem(Subject(None, Some(last)));
      assert SubjectEvents(item.subject) == last.events;
      TotalSnoc(CopiesAsGather(e), GroupItems(supers[..|supers| - 1]), item);
    }
  }

  lemma {:induction false} SingleItemsCounted(m: Measures, events: seq<FaultEvent>)
    requires Measured(m) && Carried(m)
    ensures m.gathers(SingleItems(events)) == m.events(events)
  {
    if events != [] {
      var init, last := events[..|events| - 1], events[|events| - 1];
      SingleItemsCounted(m, init);
      assert events == init + [last];
      assert m.gathers(SingleItems(init) + [GatherItem(Subject(Some(last), None))])
          == m.gathers(SingleItems(init)) + m.events([last]);
    }
  }

  /** The handler's items hold as many copies of `e` as the window did. */
  lemma HandledCounted(cfg: Settings, uuids: Correlator.Uuids, window: seq<FaultEvent>, result: Correlator.CorrelationResult, e: FaultEvent)
    requires Correlator.DistinctIds(window) && Correlator.Correlates(cfg.rules, uuids, window, result)
    ensures Counting(e).gathers(Handled(result)) == Counting(e).events(window)
  {
    Correlator.CorrelationConserves(cfg.rules, uuids, window, result);
    CountingMeasures(e);
    CountingCarries(e);
    GroupItemsCounted(e, result.superEvents);
    SingleItemsCounted(Counting(e), result.uncorrelated);
    CountingEvents(e, result.uncorrelated);
    CountingEvents(e, window);
  }

  /** Every accepted copy of `e` is somewhere, up to an offset that steps do not change. */
  ghost function Surplus(s: State, e: FaultEvent): int {
    Excess(s, Counting(e))
  }

  /** A step moves events between places and creates or loses none. */
  lemma StepConserves(cfg: Settings, s: State, step: Step, e: FaultEvent)
    requires Enabled(cfg, s, step) && ItemsWellFormed(s) && IdsTracked(s)
    ensures Surplus(Next(cfg, s, step), e) == Surplus(s, e)
  {
    CountingMeasures(e);
    CountingCarries(e);
    if step.Evaluate? {
      HandledCounted(cfg, step.uuids, s.window, step.result, e);
    }
    StepConservesWeight(cfg, s, step, Counting(e));
  }

  lemma StepConservesWeight(cfg: Settings, s: State, step: Step, m: Measures)
    requires Enabled(cfg, s, step) && ItemsWellFormed(s) && Measured(m) && Carried(m)
    requires step.Evaluate? ==> m.gathers(Handled(step.result)) == m.events(s.window)
    ensures Excess(Next(cfg, s, step), m) == Excess(s, m)
  {
    var t := Next(cfg, s, step);
    if step.Submit? {
      SubmitEnters(cfg, s, step.event, step.excluded, m);
      if !step.excluded {
        EntryConserves(s, t, m, step.event, if cfg.correlate then InBuffer else InGatherQueue);
      }
    } else {
      StepFlows(cfg, s, step, m);
      FlowConserves(s, t, m, From(step), NextPlace(From(step)), PickedUp(s, step, m));
    }
  }

  lemma {:induction false} GroupItemsForm(supers: seq<SuperEvent>)
    ensures forall item :: item in GroupItems(supers) ==> WellFormed(item.subject)
  {
    if supers != [] {
      GroupItemsForm(supers[..|supers| - 1]);
    }
  }

  lemma {:induction false} SingleItemsForm(events: seq<FaultEvent>)
    ensures forall item :: item in SingleItems(events) ==> WellFormed(item.subject)
  {
    if events != [] {
      SingleItemsForm(events[..|events| - 1]);
    }
  }

  lemma StepKeepsForm(cfg: Settings, s: State, step: Step)
    requires Enabled(cfg, s, step) && ItemsWellFormed(s) && IdsTracked(s)
    ensures ItemsWellFormed(Next(cfg, s, step)) && IdsTracked(Next(cfg, s, step))
  {
    if step.Evaluate? {
      GroupItemsForm(step.result.superEvents);
      SingleItemsForm(step.result.uncorrelated);
    }
    if step.Submit? {
      forall x | x in s.accepted ensures x.id != step.event.id {
        assert x.id in Correlator.Ids(s.accepted);
      }
    }
  }

  ghost predicate Invariant(s: State) {
    ItemsWellFormed(s) && IdsTracked(s) && forall e :: Surplus(s, e) == 0
  }

  lemma StepKeepsInvariant(cfg: Settings, s: State, step: Step)
    requires Invariant(s) && Enabled(cfg, s, step)
    ensures Invariant(Next(cfg, s, step))
  {
    StepKeepsForm(cfg, s, step);
    forall e ensures Surplus(Next(cfg, s, step), e) == 0 {
      assert Surplus(s, e) == 0;
      StepConserves(cfg, s, step, e);
    }
  }

  lemma InitialInvariant()
    ensures Invariant(INIT)
  {
    forall e ensures Surplus(INIT, e) == 0 {
      CountingMeasures(e);
    }
  }

  /** The state after a run, or nothing when a step was not enabled. */
  ghost function Run(cfg: Settings, steps: seq<Step>): Option<State> {
    if steps == [] then Some(INIT)
    else
      var before, step := Run(cfg, steps[..|steps| - 1]), steps[|steps| - 1];
      if before.Some? && Enabled(cfg, before.value, step) then Some(Next(cfg, before.value, step)) else None
  }

  lemma {:induction false} RunKeepsInvariant(cfg: Settings, steps: seq<Step>)
    ensures Run(cfg, steps).Some? ==> Invariant(Run(cfg, steps).value)
  {
    if steps == [] {
      InitialInvariant();
    } else {
      RunKeepsInvariant(cfg, steps[..|steps| - 1]);
      if Run(cfg, steps).Some? {
        StepKeepsInvariant(cfg, Run(cfg, steps[..|steps| - 1]).value, steps[|steps| - 1]);
      }
    }
  }

  ghost predicate OnlyAt(s: State, m: Measures, place: Place) {
    At(s, place, m) == 1 && forall other :: other != place ==> At(s, other, m) == 0
  }

  /** At every moment of every run, an accepted event is in exactly one place, once; no other event is anywhere. */
  lemma ExactlyOnePlace(cfg: Settings, steps: seq<Step>, e: FaultEvent)
    requires Run(cfg, steps).Some?
    ensures var s := Run(cfg, steps).value;
      if e in s.accepted then exists place :: OnlyAt(s, Counting(e), place)
      else forall place :: At(s, place, Counting(e)) == 0
  {
    RunKeepsInvariant(cfg, steps);
    var s := Run(cfg, steps).value;
    assert Surplus(s, e) == 0;
    AcceptedOnce(s.accepted, e);
    OnePlace(s, Counting(e));
  }

  lemma AcceptedOnce(accepted: seq<FaultEvent>, e: FaultEvent)
    requires Correlator.DistinctIds(accepted)
    ensures Counting(e).events(accepted) == if e in accepted then 1 else 0
  {
    CountingEvents(e, accepted);
    assert Distinct(accepted);
    DistinctOnce(accepted);
  }

  lemma OnePlace(s: State, m: Measures)
    requires Everywhere(s, m) <= 1
    ensures Everywhere(s, m) == 1 ==> exists place :: OnlyAt(s, m, place)
    ensures Everywhere(s, m) == 0 ==> forall place :: At(s, place, m) == 0
  {
    forall place, other | place != other ensures At(s, place, m) + At(s, other, m) <= Everywhere(s, m) {
      TwoPlaces(s, m, place, other);
    }
    if Everywhere(s, m) == 1 {
      var place :| At(s, place, m) == 1;
      assert OnlyAt(s, m, place);
    }
  }

  lemma TwoPlaces(s: State, m: Measures, place: Place, other: Place)
    requires place != other
    ensures At(s, place, m) + At(s, other, m) <= Everywhere(s, m)
  {
  }

  /** An event is accepted exactly when some step of the run submits it and the filter lets it pass. */
  lemma {:induction false} AcceptedIff(cfg: Settings, steps: seq<Step>, e: FaultEvent)
    requires Run(cfg, steps).Some?
    ensures e in Run(cfg, steps).value.accepted <==> Submit(e, false) in steps
  {
    if steps != [] {
      var init, step := steps[..|steps| - 1], steps[|steps| - 1];
      AcceptedIff(cfg, init, e);
      AcceptsOnlySubmitted(cfg, Run(cfg, init).value, step, e);
      assert steps == init + [step];
    }
  }

  lemma AcceptsOnlySubmitted(cfg: Settings, s: State, step: Step, e: FaultEvent)
    requires Enabled(cfg, s, step)
    ensures e in Next(cfg, s, step).accepted <==> e in s.accepted || step == Submit(e, false)
  {
    if step.Submit? && !step.excluded {
      assert Next(cfg, s, step).accepted == s.accepted + [step.event];
    }
  }

  /** What the filter excludes every time it is submitted is nowhere in the pipeline. */
  lemma ExcludedIsNowhere(cfg: Settings, steps: seq<Step>, e: FaultEvent, place: Place)
    requires Run(cfg, steps).Some? && Submit(e, false) !in steps
    ensures At(Run(cfg, steps).value, place, Counting(e)) == 0
  {
    AcceptedIff(cfg, steps, e);
    ExactlyOnePlace(cfg, steps, e);
  }

  lemma StepMovesForward(cfg: Settings, s: State, step: Step, m: Measures, place: Place)
    requires Enabled(cfg, s, step) && !step.Submit? && ItemsWellFormed(s) && Measured(m) && Carried(m)
    requires step.Evaluate? ==> m.gathers(Handled(step.result)) == m.events(s.window)
    requires OnlyAt(s, m, place)
    ensures var t := Next(cfg, s, step);
      OnlyAt(t, m, place) || (place == From(step) && OnlyAt(t, m, NextPlace(place)))
  {
    StepFlows(cfg, s, step, m);
    FlowMoves(s, Next(cfg, s, step), m, place, From(step), NextPlace(From(step)), PickedUp(s, step, m));
  }

  lemma SubmitLeavesOthers(cfg: Settings, s: State, e: FaultEvent, excluded: bool, m: Measures, place: Place)
    requires Enabled(cfg, s, Submit(e, excluded)) && Measured(m) && Carried(m) && m.events([e]) == 0 && OnlyAt(s, m, place)
    ensures OnlyAt(Next(cfg, s, Submit(e, excluded)), m, place)
  {
    SubmitEnters(cfg, s, e, excluded, m);
  }

  /** An event stays where it is or goes on to the next place. */
  lemma EventsMoveForward(cfg: Settings, steps: seq<Step>, step: Step, e: FaultEvent, place: Place)
    requires Run(cfg, steps).Some? && Enabled(cfg, Run(cfg, steps).value, step)
    requires OnlyAt(Run(cfg, steps).value, Counting(e), place)
    ensures var t := Next(cfg, Run(cfg, steps).value, step);
      || OnlyAt(t, Counting(e), place)
      || (!step.Submit? && place == From(step) && OnlyAt(t, Counting(e), NextPlace(place)))
  {
    var s := Run(cfg, steps).value;
    CountingMeasures(e);
    CountingCarries(e);
    if step.Submit? {
      SubmittedTwice(cfg, steps, step, e, place);
      SubmitLeavesOthers(cfg, s, step.event, step.excluded, Counting(e), place);
    } else {
      RunFormed(cfg, steps);
      if step.Evaluate? {
        HandledCounted(cfg, step.uuids, s.window, step.result, e);
      }
      StepMovesForward(cfg, s, step, Counting(e), place);
    }
  }

  lemma RunFormed(cfg: Settings, steps: seq<Step>)
    requires Run(cfg, steps).Some?
    ensures ItemsWellFormed(Run(cfg, steps).value) && IdsTracked(Run(cfg, steps).value)
  {
    RunKeepsInvariant(cfg, steps);
  }

  lemma FlowMoves(s: State, t: State, m: Measures, place: Place, from: Place, to: Place, n: nat)
    requires Flows(s, t, m, from, to, n) && from != to && OnlyAt(s, m, place)
    ensures OnlyAt(t, m, place) || (place == from && OnlyAt(t, m, to))
  {
    assert At(t, from, m) == At(s, from, m) - n;
    if n == 0 {
      forall other ensures At(t, other, m) == At(s, other, m) {
      }
    } else {
      assert place == from && n == 1;
    }
  }

  /** Submitting some other event does not touch this one. */
  lemma SubmittedTwice(cfg: Settings, steps: seq<Step>, step: Step, e: FaultEvent, place: Place)
    requires Run(cfg, steps).Some? && step.Submit? && Enabled(cfg, Run(cfg, steps).value, step)
    requires OnlyAt(Run(cfg, steps).value, Counting(e), place)
    ensures step.event != e && Counting(e).events([step.event]) == 0
  {
    ExactlyOnePlace(cfg, steps, e);
    CountingOne(e);
    assert e in Run(cfg, steps).value.accepted;
    assert e.id in Correlator.Ids(Run(cfg, steps).value.accepted);
  }

  /** When nothing is left in the stages, every accepted event is covered by the processed reports, once. */
  lemma DrainedMeansProcessed(cfg: Settings, steps: seq<Step>, e: FaultEvent)
    requires Run(cfg, steps).Some?
    requires var s := Run(cfg, steps).value;
      s.buffer == [] && s.window == [] && s.emitting == [] && s.gatherQueue == [] && s.gathering == [] &&
      s.analysisQueue == [] && s.analyzing == [] && s.sinkQueue == [] && s.sinking == []
    ensures At(Run(cfg, steps).value, InProcessedReport, Counting(e)) == if e in Run(cfg, steps).value.accepted then 1 else 0
  {
    RunKeepsInvariant(cfg, steps);
    var s := Run(cfg, steps).value;
    assert Surplus(s, e) == 0;
    AcceptedOnce(s.accepted, e);
  }

  // ----- labels -----

  function SubjectSeverity(subject: Subject): Severity {
    if subject.superEvent.Some? then subject.superEvent.value.severity
    else if subject.faultEvent.Some? then subject.faultEvent.value.severity
    else Info
  }

  function SubjectId(subject: Subject): string {
    if subject.superEvent.Some? then subject.superEvent.value.id
    else if subject.faultEvent.Some? then subject.faultEvent.value.id
    else ""
  }

  predicate ItemLabelled(item: AnalysisItem<DiagnosticBundle>) {
    item.severity == SubjectSeverity(item.bundle.subject)
    && (item.bundle.subject.superEvent.Some? <==> item.bundle.subject.faultEvent.None?)
  }

  predicate ReportLabelled(report: Report) {
    report.eventID == SubjectId(report.bundle.subject)
  }

  /** Analysis items carry the severity of what they are about, and reports its ID. */
  ghost predicate Labelled(s: State) {
    && (forall item :: item in s.analysisQueue ==> ItemLabelled(item))
    && (forall item :: item in s.analyzing ==> ItemLabelled(item))
    && (forall report :: report in s.sinkQueue ==> ReportLabelled(report))
    && (forall report :: report in s.sinking ==> ReportLabelled(report))
    && (forall report :: report in s.processed ==> ReportLabelled(report))
  }

  lemma StepKeepsLabels(cfg: Settings, s: State, step: Step)
    requires Labelled(s) && Enabled(cfg, s, step)
    ensures Labelled(Next(cfg, s, step))
  {
    match step {
      case AnalysisGet => assert s.analysisQueue[NextIndex(s.analysisQueue)] in s.analysisQueue;
      case AnalysisDone(i, failed) => assert ItemLabelled(s.analyzing[i]);
      case SinkGet => assert s.sinkQueue[0] in s.sinkQueue;
      case SinkDone(i) => assert s.sinking[i] in s.sinking;
      case _ =>
    }
  }

  /** In every run the analysis stage ranks items by their true severity, and every report names its event. */
  lemma {:induction false} RunKeepsLabels(cfg: Settings, steps: seq<Step>)
    ensures Run(cfg, steps).Some? ==> Labelled(Run(cfg, steps).value)
  {
    if steps != [] {
      RunKeepsLabels(cfg, steps[..|steps| - 1]);
      if Run(cfg, steps).Some? {
        StepKeepsLabels(cfg, Run(cfg, steps[..|steps| - 1]).value, steps[|steps| - 1]);
      }
    }
  }

  /** Gathering keeps the subject and takes its severity; analysis keeps the bundle, and only a failed one falls back. */
  lemma StagesKeepSubject(item: GatherItem, failed: bool)
    requires WellFormed(item.subject)
    ensures Gathered(item).Some?
    ensures var analysis := Gathered(item).value;
      && analysis.bundle.subject == item.subject
      && (item.subject.superEvent.Some? ==> analysis.severity == item.subject.superEvent.value.severity)
      && (item.subject.faultEvent.Some? ==> analysis.severity == item.subject.faultEvent.value.severity)
      && Analyzed(analysis, failed).bundle == analysis.bundle && Analyzed(analysis, failed).fallback == failed
  {
  }
}
