/**
 The severity queue of the analysis stage. Its meaning is one sequence of pending items
 in the order they were added; the three per-severity slices are a representation of it.
 */
module PriorityQueue {
  import opened Prelude
  import opened Events

  datatype AnalysisItem<T> = AnalysisItem(bundle: T, severity: Severity)

  function SeverityIndex(s: Severity): (i: nat)
    ensures i < 3
  {
    match s
    case Critical => 0
    case Warning => 1
    case Info => 2
    case Other(_) => 2
  }

  function InClass<T>(i: nat): AnalysisItem<T> -> bool {
    (item: AnalysisItem<T>) => SeverityIndex(item.severity) == i
  }

  /** The items of severity class `i`, in the order they were added. */
  function Class<T>(i: nat, pending: seq<AnalysisItem<T>>): seq<AnalysisItem<T>> {
    Filter(InClass(i), pending)
  }

  /** The three slices that represent a sequence of pending items. */
  datatype Slices<T> = Slices(critical: seq<AnalysisItem<T>>, warning: seq<AnalysisItem<T>>, info: seq<AnalysisItem<T>>)

  function Push<T>(q: Slices<T>, item: AnalysisItem<T>): Slices<T> {
    match SeverityIndex(item.severity)
    case 0 => q.(critical := q.critical + [item])
    case 1 => q.(warning := q.warning + [item])
    case _ => q.(info := q.info + [item])
  }

  function SlicesOf<T>(pending: seq<AnalysisItem<T>>): Slices<T> {
    if pending == [] then Slices([], [], []) else Push(SlicesOf(pending[..|pending| - 1]), pending[|pending| - 1])
  }

  lemma {:induction false} SlicesAreClasses<T>(pending: seq<AnalysisItem<T>>)
    ensures SlicesOf(pending) == Slices(Class(0, pending), Class(1, pending), Class(2, pending))
  {
    if pending != [] {
      SlicesAreClasses(pending[..|pending| - 1]);
    }
  }

  /** Position `p` holds the earliest-added item of the best severity class. */
  ghost predicate IsNext<T>(pending: seq<AnalysisItem<T>>, p: nat) {
    && p < |pending|
    && (forall j :: 0 <= j < |pending| ==> SeverityIndex(pending[p].severity) <= SeverityIndex(pending[j].severity))
    && (forall j :: 0 <= j < p ==> SeverityIndex(pending[p].severity) < SeverityIndex(pending[j].severity))
  }

  lemma NextUnique<T>(pending: seq<AnalysisItem<T>>, p: nat, q: nat)
    requires IsNext(pending, p) && IsNext(pending, q)
    ensures p == q
  {
    var a, b := SeverityIndex(pending[p].severity), SeverityIndex(pending[q].severity);
    assert a <= b && b <= a;
  }

  function NextIndex<T>(pending: seq<AnalysisItem<T>>): (p: nat)
    requires pending != []
    ensures p < |pending|
  {
    if |pending| == 1 then 0
    else
      var p := NextIndex(pending[..|pending| - 1]);
      if SeverityIndex(pending[|pending| - 1].severity) < SeverityIndex(pending[p].severity) then |pending| - 1 else p
  }

  lemma {:induction false} NextIndexIsNext<T>(pending: seq<AnalysisItem<T>>)
    requires pending != []
    ensures IsNext(pending, NextIndex(pending))
  {
    if 1 < |pending| {
      NextIndexIsNext(pending[..|pending| - 1]);
    }
  }

  // ----- the order by name of severity -----

  /** Info and every text that is not a severity share the last class. */
  predicate Plain(s: Severity) {
    s.Info? || s.Other?
  }

  /** Critical before warning before the rest, and the earliest of them. */
  ghost predicate Foremost<T>(pending: seq<AnalysisItem<T>>, p: nat) {
    p < |pending| &&
    match pending[p].severity
    case Critical => forall j :: 0 <= j < p ==> pending[j].severity != Critical
    case Warning =>
      (forall j :: 0 <= j < |pending| ==> pending[j].severity != Critical) &&
      (forall j :: 0 <= j < p ==> pending[j].severity != Warning)
    case _ => p == 0 && forall j :: 0 <= j < |pending| ==> Plain(pending[j].severity)
  }

  lemma ForemostIffNext<T>(pending: seq<AnalysisItem<T>>, p: nat)
    ensures Foremost(pending, p) <==> IsNext(pending, p)
  {
    if IsNext(pending, p) {
      assert p > 0 ==> SeverityIndex(pending[p].severity) < SeverityIndex(pending[0].severity);
    }
  }

  lemma NextIsForemost<T>(pending: seq<AnalysisItem<T>>)
    requires pending != []
    ensures Foremost(pending, NextIndex(pending))
  {
    NextIndexIsNext(pending);
    ForemostIffNext(pending, NextIndex(pending));
  }

  function IsCritical<T>(): AnalysisItem<T> -> bool {
    (item: AnalysisItem<T>) => item.severity == Critical
  }

  function IsWarning<T>(): AnalysisItem<T> -> bool {
    (item: AnalysisItem<T>) => item.severity == Warning
  }

  function IsPlain<T>(): AnalysisItem<T> -> bool {
    (item: AnalysisItem<T>) => Plain(item.severity)
  }

  /** The pending items by name of severity, each kind in order of arrival. */
  function BySeverity<T>(pending: seq<AnalysisItem<T>>): seq<AnalysisItem<T>> {
    Filter(IsCritical(), pending) + Filter(IsWarning(), pending) + Filter(IsPlain(), pending)
  }

  lemma ClassesBySeverity<T>(pending: seq<AnalysisItem<T>>)
    ensures Class(0, pending) == Filter(IsCritical(), pending)
    ensures Class(1, pending) == Filter(IsWarning(), pending)
    ensures Class(2, pending) == Filter(IsPlain(), pending)
  {
    FilterCongruence(InClass(0), IsCritical(), pending);
    FilterCongruence(InClass(1), IsWarning(), pending);
    FilterCongruence(InClass(2), IsPlain(), pending);
  }

  /** Repeated `Get` delivers every critical item, then every warning, then the rest, each in order of arrival. */
  lemma DeliveryBySeverity<T>(pending: seq<AnalysisItem<T>>)
    ensures DeliveryOrder(pending) == BySeverity(pending)
  {
    DeliveryIsByClass(pending);
    SlicesAreClasses(pending);
    ClassesBySeverity(pending);
  }

  /** Which severity stands at position `k` of the delivery. */
  lemma SeverityAt<T>(pending: seq<AnalysisItem<T>>, k: nat)
    requires k < |BySeverity(pending)|
    ensures var a, b := |Filter(IsCritical<T>(), pending)|, |Filter(IsWarning<T>(), pending)|;
      var s := BySeverity(pending)[k].severity;
      (s == Critical <==> k < a) && (s == Warning <==> a <= k < a + b) && (Plain(s) <==> a + b <= k)
  {
    var a, b := |Filter(IsCritical<T>(), pending)|, |Filter(IsWarning<T>(), pending)|;
    if k < a {
      FilterHolds(IsCritical<T>(), pending, k);
    } else if k < a + b {
      FilterHolds(IsWarning<T>(), pending, k - a);
    } else {
      FilterHolds(IsPlain<T>(), pending, k - a - b);
    }
  }

  /** So nothing critical comes after something that is not, and no warning after the rest. */
  lemma DeliveryDescends<T>(pending: seq<AnalysisItem<T>>, i: nat, j: nat)
    requires i < j < |DeliveryOrder(pending)|
    ensures var order := DeliveryOrder(pending);
      && (order[j].severity == Critical ==> order[i].severity == Critical)
      && (order[j].severity == Warning ==> !Plain(order[i].severity))
  {
    DeliveryBySeverity(pending);
    SeverityAt(pending, i);
    SeverityAt(pending, j);
  }

  /** What `Get` leaves behind. */
  function AfterGet<T>(pending: seq<AnalysisItem<T>>): (rest: seq<AnalysisItem<T>>)
    requires pending != []
    ensures |rest| == |pending| - 1
  {
    WithoutIndex(pending, NextIndex(pending))
  }

  lemma GetConserves<T>(pending: seq<AnalysisItem<T>>)
    requires pending != []
    ensures multiset(pending) == multiset(AfterGet(pending)) + multiset{pending[NextIndex(pending)]}
  {
    var p := NextIndex(pending);
    assert pending == pending[..p] + [pending[p]] + pending[p + 1..];
  }

  /** The items that `Get` until empty would deliver, in that order. */
  function DeliveryOrder<T>(pending: seq<AnalysisItem<T>>): seq<AnalysisItem<T>>
    decreases |pending|
  {
    if pending == [] then [] else [pending[NextIndex(pending)]] + DeliveryOrder(AfterGet(pending))
  }

  /** The pending items class by class, each class in the order of arrival. */
  function Joined<T>(queues: Slices<T>): seq<AnalysisItem<T>> {
    queues.critical + queues.warning + queues.info
  }

  lemma SlicesSnoc<T>(s: seq<AnalysisItem<T>>, x: AnalysisItem<T>)
    ensures SlicesOf(s + [x]) == Push(SlicesOf(s), x)
  {
    assert (s + [x])[..|s|] == s;
  }

  /** Taking the next item removes the head of its class and leaves the other classes alone. */
  lemma GetTakesHead<T>(pending: seq<AnalysisItem<T>>, i: nat)
    requires pending != [] && i < 3
    ensures var p := NextIndex(pending);
      var best := SeverityIndex(pending[p].severity);
      && (i < best ==> Class(i, pending) == [])
      && (i == best ==> Class(i, pending) == [pending[p]] + Class(i, AfterGet(pending)))
      && (i != best ==> Class(i, pending) == Class(i, AfterGet(pending)))
  {
    var p := NextIndex(pending);
    NextIndexIsNext(pending);
    assert pending == pending[..p] + [pending[p]] + pending[p + 1..];
    FilterConcat(InClass(i), pending[..p] + [pending[p]], pending[p + 1..]);
    FilterSnoc(InClass(i), pending[..p], pending[p]);
    FilterConcat(InClass(i), pending[..p], pending[p + 1..]);
    var best := SeverityIndex(pending[p].severity);
    if i <= best {
      FilterNone(InClass(i), pending[..p]);
    }
    if i < best {
      FilterNone(InClass(i), pending);
    }
  }

  /** The first non-empty slice, tried in severity order, starts with the next item. */
  lemma GetTakesFirstHead<T>(pending: seq<AnalysisItem<T>>)
    requires pending != []
    ensures var q, q', item := SlicesOf(pending), SlicesOf(AfterGet(pending)), pending[NextIndex(pending)];
      || (q.critical != [] && q == q'.(critical := [item] + q'.critical))
      || (q.critical == [] && q.warning != [] && q == q'.(warning := [item] + q'.warning))
      || (q.critical == [] && q.warning == [] && q == q'.(info := [item] + q'.info))
  {
    SlicesAreClasses(pending);
    SlicesAreClasses(AfterGet(pending));
    GetTakesHead(pending, 0);
    GetTakesHead(pending, 1);
    GetTakesHead(pending, 2);
  }

  /** Repeated `Get` delivers class by class, first come first served within a class. */
  lemma {:induction false} DeliveryIsByClass<T>(pending: seq<AnalysisItem<T>>)
    ensures DeliveryOrder(pending) == Joined(SlicesOf(pending))
    ensures |Joined(SlicesOf(pending))| == |pending|
    decreases |pending|
  {
    if pending != [] {
      DeliveryIsByClass(AfterGet(pending));
      GetTakesFirstHead(pending);
      JoinedHead(SlicesOf(pending), SlicesOf(AfterGet(pending)), pending[NextIndex(pending)]);
    }
  }

  lemma JoinedHead<T>(q: Slices<T>, q': Slices<T>, item: AnalysisItem<T>)
    requires
      || q == q'.(critical := [item] + q'.critical)
      || (q.critical == [] && q == q'.(warning := [item] + q'.warning))
      || (q.critical == [] && q.warning == [] && q == q'.(info := [item] + q'.info))
    ensures Joined(q) == [item] + Joined(q')
  {
  }

  class PriorityQueue<T> {
    var queues: Slices<T>
    var shutdown: bool
    var inflight: nat
    /** Pending items in the order they were added, and the totals over the queue's life. */
    ghost var pending: seq<AnalysisItem<T>>
    ghost var accepted: multiset<AnalysisItem<T>>
    ghost var removed: multiset<AnalysisItem<T>>

    ghost predicate Valid()
      reads this
    {
      queues == SlicesOf(pending) && accepted == removed + multiset(pending)
    }

    constructor ()
      ensures Valid() && pending == [] && !shutdown && inflight == 0 && accepted == multiset{}
    {
      queues, shutdown, inflight := Slices([], [], []), false, 0;
      pending, accepted, removed := [], multiset{}, multiset{};
    }

    /** After shutdown the item is dropped. */
    method Add(item: AnalysisItem<T>)
      requires Valid()
      modifies this`queues, this`pending, this`accepted
      ensures Valid()
      ensures shutdown ==> pending == old(pending)
      ensures !shutdown ==> pending == old(pending) + [item]
      ensures accepted == old(accepted) + if shutdown then multiset{} else multiset{item}
    {
      if shutdown {
        return;
      }
      SlicesSnoc(pending, item);
      var q, idx := queues, SeverityIndex(item.severity);
      if idx == 0 {
        queues := q.(critical := q.critical + [item]);
      } else if idx == 1 {
        queues := q.(warning := q.warning + [item]);
      } else {
        queues := q.(info := q.info + [item]);
      }
      pending, accepted := pending + [item], removed + multiset(pending + [item]);
    }

    function TotalLen(): nat
      reads this
    {
      |queues.critical| + |queues.warning| + |queues.info|
    }

    /** `Get` once its wait is over: the earliest item of the best class, or nothing after shutdown. */
    method Get() returns (item: Option<AnalysisItem<T>>)
      requires Valid() && (pending != [] || shutdown)
      modifies this`queues, this`inflight, this`pending, this`removed
      ensures Valid()
      ensures item == None <==> old(pending) == []
      ensures item == None ==> pending == [] && inflight == old(inflight)
      ensures item.Some? ==>
        && Foremost(old(pending), NextIndex(old(pending)))
        && item.value == old(pending)[NextIndex(old(pending))]
        && pending == AfterGet(old(pending))
        && inflight == old(inflight) + 1
    {
      DeliveryIsByClass(pending);
      if shutdown && TotalLen() == 0 {
        return None;
      }
      GetTakesFirstHead(pending);
      GetConserves(pending);
      NextIsForemost(pending);
      if |queues.critical| > 0 {
        item := Some(queues.critical[0]);
        queues := queues.(critical := queues.critical[1..]);
      } else if |queues.warning| > 0 {
        item := Some(queues.warning[0]);
        queues := queues.(warning := queues.warning[1..]);
      } else {
        item := Some(queues.info[0]);
        queues := queues.(info := queues.info[1..]);
      }
      inflight := inflight + 1;
      removed, pending := removed + multiset{item.value}, AfterGet(pending);
    }

    method Done()
      modifies this`inflight
      ensures inflight == if old(inflight) > 0 then old(inflight) - 1 else 0
    {
      if inflight > 0 {
        inflight := inflight - 1;
      }
    }

    method ShutDown()
      modifies this`shutdown
      ensures shutdown
    {
      shutdown := true;
    }

    /** Hands over at once what `Get` until empty would have delivered. */
    method Drain() returns (items: seq<AnalysisItem<T>>)
      requires Valid()
      modifies this`queues, this`pending, this`removed
      ensures Valid() && pending == []
      ensures items == DeliveryOrder(old(pending)) == BySeverity(old(pending))
    {
      DeliveryIsByClass(pending);
      DeliveryBySeverity(pending);
      items := queues.critical + queues.warning + queues.info;
      queues := Slices([], [], []);
      removed, pending := accepted, [];
    }
  }
}
