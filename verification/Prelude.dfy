/** Sequence vocabulary shared by the component models. */
module Prelude {

  datatype Option<+T> = None | Some(value: T)

  /** The elements of `s` that satisfy `p`, in the order of `s`. */
  function Filter<T>(p: T -> bool, s: seq<T>): seq<T> {
    if s == [] then []
    else
      var rest := Filter(p, s[..|s| - 1]);
      if p(s[|s| - 1]) then rest + [s[|s| - 1]] else rest
  }

  lemma FilterSnoc<T>(p: T -> bool, s: seq<T>, x: T)
    ensures Filter(p, s + [x]) == if p(x) then Filter(p, s) + [x] else Filter(p, s)
  {
    assert (s + [x])[..|s|] == s;
  }

  /** One more element of `s` scanned by a loop. */
  lemma FilterStep<T>(p: T -> bool, s: seq<T>, i: nat)
    requires i < |s|
    ensures Filter(p, s[..i + 1]) == if p(s[i]) then Filter(p, s[..i]) + [s[i]] else Filter(p, s[..i])
  {
    assert s[..i + 1] == s[..i] + [s[i]];
    FilterSnoc(p, s[..i], s[i]);
  }

  lemma {:induction false} FilterMember<T>(p: T -> bool, s: seq<T>, x: T)
    ensures x in Filter(p, s) <==> x in s && p(x)
  {
    if s != [] {
      FilterMember(p, s[..|s| - 1], x);
      assert s == s[..|s| - 1] + [s[|s| - 1]];
    }
  }

  lemma FilterMembers<T>(p: T -> bool, s: seq<T>)
    ensures forall x :: x in Filter(p, s) <==> x in s && p(x)
  {
    forall x ensures x in Filter(p, s) <==> x in s && p(x) {
      FilterMember(p, s, x);
    }
  }

  lemma {:induction false} FilterLength<T>(p: T -> bool, s: seq<T>)
    ensures |Filter(p, s)| <= |s|
  {
    if s != [] {
      FilterLength(p, s[..|s| - 1]);
    }
  }

  lemma {:induction false} FilterConcat<T>(p: T -> bool, a: seq<T>, b: seq<T>)
    ensures Filter(p, a + b) == Filter(p, a) + Filter(p, b)
  {
    if b == [] {
      assert a + b == a;
    } else {
      var init := b[..|b| - 1];
      FilterConcat(p, a, init);
      FilterSnoc(p, a + init, b[|b| - 1]);
      assert a + b == a + init + [b[|b| - 1]];
    }
  }

  lemma FilterHolds<T>(p: T -> bool, s: seq<T>, k: nat)
    requires k < |Filter(p, s)|
    ensures p(Filter(p, s)[k])
  {
    FilterMember(p, s, Filter(p, s)[k]);
  }

  lemma {:induction false} FilterCongruence<T>(p: T -> bool, q: T -> bool, s: seq<T>)
    requires forall x :: x in s ==> p(x) == q(x)
    ensures Filter(p, s) == Filter(q, s)
  {
    if s != [] {
      FilterCongruence(p, q, s[..|s| - 1]);
    }
  }

  lemma {:induction false} FilterNone<T>(p: T -> bool, s: seq<T>)
    requires forall x :: x in s ==> !p(x)
    ensures Filter(p, s) == []
  {
    if s != [] {
      FilterNone(p, s[..|s| - 1]);
    }
  }

  lemma {:induction false} FilterAll<T>(p: T -> bool, s: seq<T>)
    requires forall x :: x in s ==> p(x)
    ensures Filter(p, s) == s
  {
    if s != [] {
      FilterAll(p, s[..|s| - 1]);
      assert s == s[..|s| - 1] + [s[|s| - 1]];
    }
  }

  lemma {:induction false} FilterTwice<T>(p: T -> bool, q: T -> bool, both: T -> bool, s: seq<T>)
    requires forall x :: x in s ==> both(x) == (p(x) && q(x))
    ensures Filter(q, Filter(p, s)) == Filter(both, s)
  {
    if s != [] {
      var init, last := s[..|s| - 1], s[|s| - 1];
      FilterTwice(p, q, both, init);
      if p(last) {
        FilterSnoc(q, Filter(p, init), last);
      }
    }
  }

  lemma {:induction false} FilterSplit<T>(p: T -> bool, q: T -> bool, s: seq<T>)
    requires forall x :: x in s ==> p(x) == !q(x)
    ensures multiset(s) == multiset(Filter(p, s)) + multiset(Filter(q, s))
  {
    if s != [] {
      FilterSplit(p, q, s[..|s| - 1]);
      assert s == s[..|s| - 1] + [s[|s| - 1]];
    }
  }

  function Elements<T(==)>(s: seq<T>): set<T> {
    set x | x in s
  }

  lemma ElementsStep<T>(s: seq<T>, i: nat)
    requires i < |s|
    ensures Elements(s[..i + 1]) == Elements(s[..i]) + {s[i]}
    ensures s[..|s|] == s
  {
    assert s[..i + 1] == s[..i] + [s[i]];
  }

  /** `positions` picks `part` out of `whole` from left to right. */
  ghost predicate Embeds<T>(part: seq<T>, whole: seq<T>, positions: seq<nat>) {
    && |positions| == |part|
    && (forall i :: 0 <= i < |part| ==> positions[i] < |whole| && part[i] == whole[positions[i]])
    && (forall i, j :: 0 <= i < j < |part| ==> positions[i] < positions[j])
  }

  ghost predicate IsSubsequence<T>(part: seq<T>, whole: seq<T>) {
    exists positions :: Embeds(part, whole, positions)
  }

  lemma EmbedsGrows<T>(part: seq<T>, whole: seq<T>, positions: seq<nat>, x: T)
    requires Embeds(part, whole, positions)
    ensures Embeds(part, whole + [x], positions)
    ensures Embeds(part + [x], whole + [x], positions + [|whole|])
  {
  }

  lemma {:induction false} FilterIsSubsequence<T>(p: T -> bool, s: seq<T>)
    ensures IsSubsequence(Filter(p, s), s)
  {
    if s == [] {
      assert Embeds(Filter(p, s), s, []);
    } else {
      var init := s[..|s| - 1];
      FilterIsSubsequence(p, init);
      var positions: seq<nat> :| Embeds(Filter(p, init), init, positions);
      EmbedsGrows(Filter(p, init), init, positions, s[|s| - 1]);
      assert s == init + [s[|s| - 1]];
    }
  }

  ghost predicate Distinct<T>(s: seq<T>) {
    forall i, j :: 0 <= i < j < |s| ==> s[i] != s[j]
  }

  lemma {:induction false} FilterDistinct<T>(p: T -> bool, s: seq<T>)
    requires Distinct(s)
    ensures Distinct(Filter(p, s))
  {
    if s != [] {
      var init := s[..|s| - 1];
      FilterDistinct(p, init);
      FilterMembers(p, init);
      assert forall x :: x in init ==> x != s[|s| - 1];
    }
  }

  /** A sequence without repetitions holds each of its elements once. */
  lemma {:induction false} DistinctOnce<T>(s: seq<T>)
    requires Distinct(s)
    ensures multiset(s) == multiset(set x | x in s)
  {
    if s != [] {
      var init, last := s[..|s| - 1], s[|s| - 1];
      DistinctOnce(init);
      assert s == init + [last];
      assert (set x | x in s) == (set x | x in init) + {last};
      assert last !in init;
    }
  }

  /** Two sequences without repetitions and with the same elements are permutations. */
  lemma DistinctSameMembers<T>(a: seq<T>, b: seq<T>)
    requires Distinct(a) && Distinct(b)
    requires forall x :: x in a <==> x in b
    ensures multiset(a) == multiset(b)
  {
    DistinctOnce(a);
    DistinctOnce(b);
    assert (set x | x in a) == (set x | x in b);
  }

  lemma RepeatedTwice<T>(s: seq<T>, i: nat, j: nat)
    requires i < j < |s| && s[i] == s[j]
    ensures 2 <= multiset(s)[s[i]]
  {
    assert s == s[..i] + [s[i]] + s[i + 1..j] + [s[j]] + s[j + 1..];
  }

  lemma PermutationDistinct<T>(a: seq<T>, b: seq<T>)
    requires Distinct(a) && multiset(a) == multiset(b)
    ensures Distinct(b)
    ensures forall x :: x in a <==> x in b
  {
    DistinctOnce(a);
    forall x ensures x in a <==> x in b {
      assert x in a <==> x in multiset(a);
      assert x in b <==> x in multiset(b);
    }
    forall i, j | 0 <= i < j < |b| ensures b[i] != b[j] {
      if b[i] == b[j] {
        RepeatedTwice(b, i, j);
      }
    }
  }

  /** What holds at one position and is handed on by every later one holds from there on. */
  lemma {:induction false} KeptAlong<T>(holds: T -> bool, s: seq<T>, i: nat, k: nat)
    requires i <= k < |s| && holds(s[i])
    requires forall j :: i <= j < k ==> holds(s[j]) ==> holds(s[j + 1])
    ensures holds(s[k])
  {
    if i < k {
      KeptAlong(holds, s, i, k - 1);
      assert holds(s[k - 1]) ==> holds(s[k - 1 + 1]);
    }
  }

  // ----- weighted totals -----

  ghost function Total<T>(weight: T -> nat, items: seq<T>): nat {
    if items == [] then 0 else Total(weight, items[..|items| - 1]) + weight(items[|items| - 1])
  }

  lemma TotalSnoc<T>(weight: T -> nat, items: seq<T>, x: T)
    ensures Total(weight, items + [x]) == Total(weight, items) + weight(x)
  {
    assert (items + [x])[..|items|] == items;
  }

  lemma TotalOne<T>(weight: T -> nat, x: T)
    ensures Total(weight, [x]) == weight(x)
  {
    TotalSnoc(weight, [], x);
    assert [] + [x] == [x];
  }

  lemma {:induction false} TotalConcat<T>(weight: T -> nat, a: seq<T>, b: seq<T>)
    ensures Total(weight, a + b) == Total(weight, a) + Total(weight, b)
  {
    if b == [] {
      assert a + b == a;
    } else {
      var init, last := b[..|b| - 1], b[|b| - 1];
      TotalConcat(weight, a, init);
      TotalSnoc(weight, a + init, last);
      assert a + b == a + init + [last];
    }
  }

  /** A measure of sequences that adds up over concatenation. */
  ghost predicate Additive<T(!new)>(measure: seq<T> -> nat) {
    measure([]) == 0 && forall a, b :: measure(a + b) == measure(a) + measure(b)
  }

  lemma TotalAdditive<T(!new)>(measure: seq<T> -> nat, weight: T -> nat)
    requires forall items :: measure(items) == Total(weight, items)
    ensures Additive(measure)
  {
    forall a, b ensures measure(a + b) == measure(a) + measure(b) {
      TotalConcat(weight, a, b);
    }
  }

  lemma AdditiveTail<T(!new)>(measure: seq<T> -> nat, items: seq<T>)
    requires Additive(measure) && items != []
    ensures measure(items) == measure([items[0]]) + measure(items[1..])
  {
    assert items == [items[0]] + items[1..];
  }

  function WithoutIndex<T>(s: seq<T>, p: nat): seq<T>
    requires p < |s|
  {
    s[..p] + s[p + 1..]
  }

  lemma AdditiveWithout<T(!new)>(measure: seq<T> -> nat, items: seq<T>, i: nat)
    requires Additive(measure) && i < |items|
    ensures measure(items) == measure(WithoutIndex(items, i)) + measure([items[i]])
  {
    assert items == items[..i] + [items[i]] + items[i + 1..];
  }
}
