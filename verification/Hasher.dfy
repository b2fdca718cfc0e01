/**
 Jump consistent hashing (Lamping and Veach, 2014) and the split of namespaces
 over replicas. The two floating-point operations of the jump step go through an
 arbitrary rounding function that is monotone and exact on the numbers float64
 represents exactly; every result below holds for each such rounding.
 */
module Hasher {
  import opened Prelude

  const TWO_31 := 0x8000_0000
  const TWO_33 := 0x2_0000_0000
  const TWO_53 := 0x20_0000_0000_0000
  const TWO_63 := 0x8000_0000_0000_0000
  const TWO_64 := 0x1_0000_0000_0000_0000
  const MULTIPLIER := 2862933555777941757

  /** Below this many buckets the conversion of every jump to int64 is defined. */
  const MAX_BUCKETS := 0xffff_ffff

  type Uint64 = k: int | 0 <= k < 0x1_0000_0000_0000_0000

  /** Values that float64 holds exactly: integers up to 2^53, and those times 2^31. */
  predicate Exact(x: real) {
    && 0.0 <= x
    && x == x.Floor as real
    && (x <= TWO_53 as real || (x.Floor % TWO_31 == 0 && x.Floor / TWO_31 <= TWO_53))
  }

  /** What float64 rounding to nearest guarantees about the values used here. */
  ghost predicate IsRounding(rnd: real -> real) {
    && (forall x, y :: x <= y ==> rnd(x) <= rnd(y))
    && (forall x :: Exact(x) ==> rnd(x) == x)
  }

  type Rounding = rnd: real -> real | IsRounding(rnd) ghost witness (x: real) => x

  /** The linear congruential step on the key, with uint64 wrap-around. */
  function NextKey(key: Uint64): Uint64 {
    (key * MULTIPLIER + 1) % TWO_64
  }

  /**
   How far a key jumps from bucket `b`, given the stepped key. All the hashing
   results need is that a jump moves forward and fits in an int64.
   */
  ghost predicate IsJumpStep(jump: (nat, Uint64) -> nat) {
    forall b: nat, key: Uint64 :: b < MAX_BUCKETS ==> b < jump(b, key) < TWO_63
  }

  type JumpStep = jump: (nat, Uint64) -> nat | IsJumpStep(jump) ghost witness (b: nat, key: Uint64) => b + 1

  /** The expression of the source: two rounded operations, then truncation. */
  function NextJump(rnd: Rounding, b: nat, key: Uint64): nat {
    Scaled(rnd, b + 1, Ratio(rnd, key / TWO_33 + 1))
  }

  function Ratio(rnd: Rounding, d: int): (ratio: real)
    requires 1 <= d <= TWO_31
    ensures 1.0 <= ratio <= TWO_31 as real
  {
    RatioBounds(d);
    RoundingBetween(rnd, 1, TWO_31 as real / d as real, 1);
    rnd(TWO_31 as real / d as real)
  }

  function Scaled(rnd: Rounding, n: nat, ratio: real): (j: nat)
    requires 1.0 <= ratio <= TWO_31 as real
    ensures n <= TWO_53 ==> n <= j <= n * TWO_31
  {
    var product := n as real * ratio;
    ScaledBounds(n, ratio);
    assert n as real <= product <= (n * TWO_31) as real;
    assert 0 as real <= product;
    RoundingBetween(rnd, 0, product, 0);
    assert n <= TWO_53 ==> n as real <= rnd(product) <= (n * TWO_31) as real by {
      if n <= TWO_53 {
        RoundingBetween(rnd, n, product, n);
      }
    }
    rnd(product).Floor
  }

  lemma RoundingBetween(rnd: Rounding, lo: nat, x: real, scaled: nat)
    requires lo <= TWO_53 && scaled <= TWO_53
    ensures lo as real <= x ==> lo as real <= rnd(x)
    ensures x <= (scaled * TWO_31) as real ==> rnd(x) <= (scaled * TWO_31) as real
  {
    var hi := (scaled * TWO_31) as real;
    assert Exact(lo as real) && Exact(hi);
    assert lo as real <= x ==> rnd(lo as real) <= rnd(x);
    assert x <= hi ==> rnd(x) <= rnd(hi);
  }

  lemma RatioBounds(d: int)
    requires 1 <= d <= TWO_31
    ensures 1.0 <= TWO_31 as real / d as real <= TWO_31 as real
  {
    var q := TWO_31 as real / d as real;
    assert q * d as real == TWO_31 as real;
    if q < 1.0 {
      ScaleStrictly(q, 1.0, d as real);
    }
    if q > TWO_31 as real {
      ScaleStrictly(TWO_31 as real, q, d as real);
    }
  }

  lemma ScaleStrictly(x: real, y: real, c: real)
    requires x < y && 0.0 < c
    ensures x * c < y * c
  {
  }

  lemma ScaleMonotone(x: real, y: real, c: real)
    requires x <= y && 0.0 <= c
    ensures c * x <= c * y
  {
  }

  lemma ScaledBounds(n: nat, ratio: real)
    requires 1.0 <= ratio <= TWO_31 as real
    ensures n as real <= n as real * ratio <= (n * TWO_31) as real
  {
    ScaleMonotone(1.0, ratio, n as real);
    ScaleMonotone(ratio, TWO_31 as real, n as real);
  }

  /** A float64 jump always moves forward, and its value fits in an int64. */
  lemma NextJumpBounds(rnd: Rounding, b: nat, key: Uint64)
    requires b < MAX_BUCKETS
    ensures b < NextJump(rnd, b, key) < TWO_63
  {
    var j := Scaled(rnd, b + 1, Ratio(rnd, key / TWO_33 + 1));
  }

  /** The jump of the source, for one rounding. */
  function FloatJump(rnd: Rounding): JumpStep {
    assert forall b: nat, key: Uint64 :: b < MAX_BUCKETS ==> b < NextJump(rnd, b, key) < TWO_63 by {
      forall b: nat, key: Uint64 | b < MAX_BUCKETS ensures b < NextJump(rnd, b, key) < TWO_63 {
        NextJumpBounds(rnd, b, key);
      }
    }
    (b: nat, key: Uint64) => NextJump(rnd, b, key)
  }

  /** The key after `i` steps, and the `i`-th jump. Neither depends on a bucket count. */
  function KeyAt(key: Uint64, i: nat): Uint64 {
    if i == 0 then key else NextKey(KeyAt(key, i - 1))
  }

  function JumpAt(jump: JumpStep, key: Uint64, i: nat): nat {
    if i == 0 then 0 else jump(JumpAt(jump, key, i - 1), KeyAt(key, i))
  }

  /** `i` is the index of the last jump before the sequence reaches `n`. */
  ghost predicate LastBelow(jump: JumpStep, key: Uint64, n: int, i: nat) {
    && (forall k :: 0 <= k <= i ==> JumpAt(jump, key, k) < n)
    && n <= JumpAt(jump, key, i + 1)
  }

  predicate ValidBucketCount(n: int) {
    1 <= n <= MAX_BUCKETS
  }

  /** The bucket of `key` among `n`: a search along the jump sequence. */
  function BucketFrom(jump: JumpStep, key: Uint64, i: nat, n: int): int
    requires ValidBucketCount(n)
    requires JumpAt(jump, key, i) < n
    decreases n - JumpAt(jump, key, i)
  {
    if n <= JumpAt(jump, key, i + 1) then JumpAt(jump, key, i) else BucketFrom(jump, key, i + 1, n)
  }

  function Bucket(jump: JumpStep, key: Uint64, n: int): int
    requires ValidBucketCount(n)
  {
    BucketFrom(jump, key, 0, n)
  }

  lemma {:induction false} BucketFromIsLast(jump: JumpStep, key: Uint64, i: nat, n: int) returns (last: nat)
    requires ValidBucketCount(n)
    requires forall k :: 0 <= k <= i ==> JumpAt(jump, key, k) < n
    ensures LastBelow(jump, key, n, last) && BucketFrom(jump, key, i, n) == JumpAt(jump, key, last)
    decreases n - JumpAt(jump, key, i)
  {
    if n <= JumpAt(jump, key, i + 1) {
      last := i;
    } else {
      last := BucketFromIsLast(jump, key, i + 1, n);
    }
  }

  lemma LastBelowUnique(jump: JumpStep, key: Uint64, n: int, i: nat, j: nat)
    requires LastBelow(jump, key, n, i) && LastBelow(jump, key, n, j)
    ensures i == j
  {
    if i < j {
      assert false;
    } else if j < i {
      assert false;
    }
  }

  /** The bucket is in range and is the last jump of the count-free sequence below `n`. */
  lemma BucketIsLastJump(jump: JumpStep, key: Uint64, n: int, b: int)
    requires ValidBucketCount(n)
    ensures 0 <= Bucket(jump, key, n) < n
    ensures b == Bucket(jump, key, n) <==> exists i :: LastBelow(jump, key, n, i) && b == JumpAt(jump, key, i)
  {
    var last := BucketFromIsLast(jump, key, 0, n);
    forall i | LastBelow(jump, key, n, i) ensures i == last {
      LastBelowUnique(jump, key, n, i, last);
    }
  }

  /** Consistency: a bucket that still exists among fewer replicas keeps the key. */
  lemma BucketConsistent(jump: JumpStep, key: Uint64, m: int, n: int)
    requires ValidBucketCount(n) && 1 <= m <= n
    ensures Bucket(jump, key, n) < m ==> Bucket(jump, key, m) == Bucket(jump, key, n)
    ensures Bucket(jump, key, n) == Bucket(jump, key, m) || m <= Bucket(jump, key, n)
    ensures Bucket(jump, key, m) <= Bucket(jump, key, n)
  {
    var last := BucketFromIsLast(jump, key, 0, n);
    BucketIsLastJump(jump, key, m, JumpAt(jump, key, last));
    if JumpAt(jump, key, last) < m {
      forall k | 0 <= k <= last ensures JumpAt(jump, key, k) < m {
        JumpsIncrease(jump, key, n, last, k);
      }
      assert LastBelow(jump, key, m, last);
    }
  }

  lemma {:induction false} JumpsIncrease(jump: JumpStep, key: Uint64, n: int, i: nat, k: nat)
    requires n <= MAX_BUCKETS && k <= i
    requires forall l :: 0 <= l <= i ==> JumpAt(jump, key, l) < n
    ensures JumpAt(jump, key, k) <= JumpAt(jump, key, i)
  {
    if k < i {
      JumpsIncrease(jump, key, n, i - 1, k);
    }
  }

  /** The loop as written: it keeps only the current bucket, the next jump and the key. */
  method JumpHash(jump: JumpStep, key: Uint64, numBuckets: int) returns (bucket: int)
    requires ValidBucketCount(numBuckets)
    ensures 0 <= bucket < numBuckets
    ensures bucket == Bucket(jump, key, numBuckets)
  {
    var k: Uint64 := key;
    var b, j := -1, 0;
    ghost var i: nat := 0;
    while j < numBuckets
      invariant 0 <= j && k == KeyAt(key, i) && j == JumpAt(jump, key, i)
      invariant -1 <= b < numBuckets && b < j && (b == -1 ==> j == 0)
      invariant j < numBuckets ==> BucketFrom(jump, key, i, numBuckets) == Bucket(jump, key, numBuckets)
      invariant numBuckets <= j ==> b == Bucket(jump, key, numBuckets)
      decreases numBuckets - j
    {
      b := j;
      k := NextKey(k);
      j := jump(b, k);
      i := i + 1;
    }
    bucket := b;
    assert 0 <= bucket;
  }

  /** Namespace hashing is a parameter: any function into uint64 will do. */
  type NamespaceHash = string -> Uint64

  /** The namespaces among `namespaces` that hash to bucket `b` of `n`, in input order. */
  function InBucket(jump: JumpStep, hash: NamespaceHash, n: int, b: int): string -> bool
    requires ValidBucketCount(n)
  {
    ns => Bucket(jump, hash(ns), n) == b
  }

  function Assigned(jump: JumpStep, hash: NamespaceHash, namespaces: seq<string>, n: int, b: int): seq<string>
    requires ValidBucketCount(n)
  {
    Filter(InBucket(jump, hash, n, b), namespaces)
  }

  /** A non-positive count is only accepted when there is nothing to place. */
  method AssignNamespaces(jump: JumpStep, hash: NamespaceHash, namespaces: seq<string>, numReplicas: int)
    returns (result: map<int, seq<string>>)
    requires numReplicas <= MAX_BUCKETS
    requires namespaces != [] ==> 1 <= numReplicas
    ensures forall b :: b in result <==> 0 <= b < numReplicas
    ensures forall b :: b in result ==> result[b] == Assigned(jump, hash, namespaces, numReplicas, b)
  {
    result := map[];
    var i := 0;
    while i < numReplicas
      invariant 0 <= i && (i == 0 || i <= numReplicas)
      invariant forall b :: b in result <==> 0 <= b < i
      invariant forall b :: b in result ==> result[b] == []
    {
      result := result[i := []];
      i := i + 1;
    }
    for k := 0 to |namespaces|
      invariant forall b :: b in result <==> 0 <= b < numReplicas
      invariant forall b :: b in result ==> result[b] == Assigned(jump, hash, namespaces[..k], numReplicas, b)
    {
      var ns := namespaces[k];
      var bucket := JumpHash(jump, hash(ns), numReplicas);
      forall b | 0 <= b < numReplicas
        ensures Assigned(jump, hash, namespaces[..k + 1], numReplicas, b) ==
                Assigned(jump, hash, namespaces[..k], numReplicas, b) + if b == bucket then [ns] else []
      {
        FilterStep(InBucket(jump, hash, numReplicas, b), namespaces, k);
      }
      result := result[bucket := result[bucket] + [ns]];
    }
    assert namespaces[..|namespaces|] == namespaces;
  }

  /** The multiset union of buckets `0..count`. */
  ghost function Placed(jump: JumpStep, hash: NamespaceHash, namespaces: seq<string>, n: int, count: nat): multiset<string>
    requires ValidBucketCount(n)
  {
    if count == 0 then multiset{}
    else Placed(jump, hash, namespaces, n, count - 1) + multiset(Assigned(jump, hash, namespaces, n, count - 1))
  }

  function BelowBucket(jump: JumpStep, hash: NamespaceHash, n: int, count: int): string -> bool
    requires ValidBucketCount(n)
  {
    ns => Bucket(jump, hash(ns), n) < count
  }

  /** The first `count` buckets hold exactly the namespaces that hash below `count`. */
  lemma {:induction false} PlacedBelow(jump: JumpStep, hash: NamespaceHash, namespaces: seq<string>, n: int, count: nat)
    requires ValidBucketCount(n)
    ensures Placed(jump, hash, namespaces, n, count) == multiset(Filter(BelowBucket(jump, hash, n, count), namespaces))
  {
    if count == 0 {
      NoneBelowZero(jump, hash, namespaces, n);
    } else {
      PlacedBelow(jump, hash, namespaces, n, count - 1);
      OneMoreBucket(jump, hash, namespaces, n, count);
    }
  }

  lemma NoneBelowZero(jump: JumpStep, hash: NamespaceHash, namespaces: seq<string>, n: int)
    requires ValidBucketCount(n)
    ensures Filter(BelowBucket(jump, hash, n, 0), namespaces) == []
  {
    forall ns | ns in namespaces ensures !BelowBucket(jump, hash, n, 0)(ns) {
      BucketIsLastJump(jump, hash(ns), n, 0);
    }
    FilterNone(BelowBucket(jump, hash, n, 0), namespaces);
  }

  lemma OneMoreBucket(jump: JumpStep, hash: NamespaceHash, namespaces: seq<string>, n: int, count: nat)
    requires ValidBucketCount(n) && 0 < count
    ensures multiset(Filter(BelowBucket(jump, hash, n, count), namespaces)) ==
            multiset(Filter(BelowBucket(jump, hash, n, count - 1), namespaces)) +
            multiset(Assigned(jump, hash, namespaces, n, count - 1))
  {
    var below, earlier := BelowBucket(jump, hash, n, count), BelowBucket(jump, hash, n, count - 1);
    var part := InBucket(jump, hash, n, count - 1);
    FilterMembers(below, namespaces);
    FilterSplit(earlier, part, Filter(below, namespaces));
    FilterTwice(below, earlier, earlier, namespaces);
    FilterTwice(below, part, part, namespaces);
  }

  /** Nothing is lost or duplicated: all buckets together are the input. */
  lemma AssignmentPartitions(jump: JumpStep, hash: NamespaceHash, namespaces: seq<string>, n: int)
    requires ValidBucketCount(n)
    ensures Placed(jump, hash, namespaces, n, n) == multiset(namespaces)
    ensures forall b, c, ns :: b != c && ns in Assigned(jump, hash, namespaces, n, b)
                               ==> ns !in Assigned(jump, hash, namespaces, n, c)
  {
    PlacedBelow(jump, hash, namespaces, n, n);
    var below := BelowBucket(jump, hash, n, n);
    forall ns: string ensures below(ns) {
      BucketIsLastJump(jump, hash(ns), n, 0);
    }
    FilterAll(below, namespaces);
    forall b, c, ns | b != c && ns in Assigned(jump, hash, namespaces, n, b)
      ensures ns !in Assigned(jump, hash, namespaces, n, c)
    {
      FilterMember(InBucket(jump, hash, n, b), namespaces, ns);
      FilterMember(InBucket(jump, hash, n, c), namespaces, ns);
    }
  }

  /**
   Growing from `m` to `n` replicas only takes namespaces away from an old bucket,
   in order; whatever leaves it goes to a bucket that did not exist before.
   */
  lemma GrowthKeepsOrder(jump: JumpStep, hash: NamespaceHash, namespaces: seq<string>, m: int, n: int, b: int)
    requires ValidBucketCount(n) && 1 <= m <= n && 0 <= b < m
    ensures IsSubsequence(Assigned(jump, hash, namespaces, n, b), Assigned(jump, hash, namespaces, m, b))
    ensures forall ns :: ns in Assigned(jump, hash, namespaces, m, b) && ns !in Assigned(jump, hash, namespaces, n, b)
                         ==> m <= Bucket(jump, hash(ns), n)
  {
    var before, after := InBucket(jump, hash, m, b), InBucket(jump, hash, n, b);
    forall ns: string ensures after(ns) ==> before(ns) {
      BucketConsistent(jump, hash(ns), m, n);
    }
    FilterTwice(before, after, after, namespaces);
    FilterIsSubsequence(after, Filter(before, namespaces));
    FilterMembers(before, namespaces);
    FilterMembers(after, namespaces);
    forall ns | ns in Assigned(jump, hash, namespaces, m, b) && ns !in Assigned(jump, hash, namespaces, n, b)
      ensures m <= Bucket(jump, hash(ns), n)
    {
      BucketConsistent(jump, hash(ns), m, n);
    }
  }

  // ----- the float64 jump -----

  /** What consistency means for the expression of the source, under every rounding. */
  lemma FloatJumpConsistent(rnd: Rounding, hash: NamespaceHash, namespaces: seq<string>, m: int, n: int, b: int)
    requires ValidBucketCount(n) && 1 <= m <= n && 0 <= b < m
    ensures forall key: Uint64 :: Bucket(FloatJump(rnd), key, n) < m ==>
      Bucket(FloatJump(rnd), key, m) == Bucket(FloatJump(rnd), key, n)
    ensures IsSubsequence(Assigned(FloatJump(rnd), hash, namespaces, n, b), Assigned(FloatJump(rnd), hash, namespaces, m, b))
  {
    forall key: Uint64 ensures Bucket(FloatJump(rnd), key, n) < m ==>
      Bucket(FloatJump(rnd), key, m) == Bucket(FloatJump(rnd), key, n)
    {
      BucketConsistent(FloatJump(rnd), key, m, n);
    }
    GrowthKeepsOrder(FloatJump(rnd), hash, namespaces, m, n, b);
  }

  /** Exact arithmetic is one of the roundings. */
  function ExactRounding(): Rounding {
    (x: real) => x
  }

  lemma DivideOut(n: nat, d: int)
    requires 0 < d
    ensures n as real * (TWO_31 as real / d as real) * d as real == (n * TWO_31) as real
  {
    var q := TWO_31 as real / d as real;
    assert q * d as real == TWO_31 as real;
    assert n as real * q * d as real == n as real * (q * d as real);
  }

  lemma FloorTimes(x: real, d: int, total: int)
    requires 0 < d && x * d as real == total as real
    ensures x.Floor * d <= total < (x.Floor + 1) * d
  {
    var j := x.Floor;
    ScaleMonotone(j as real, x, d as real);
    ScaleStrictly(x, (j + 1) as real, d as real);
    assert (j * d) as real <= total as real;
    assert total as real < ((j + 1) * d) as real;
  }

  /** Without rounding, a jump is the integer quotient of (b + 1) * 2^31 by the top 31 bits of the key plus one. */
  lemma JumpIsQuotient(b: nat, key: Uint64)
    ensures var d, j := key / 0x2_0000_0000 + 1, NextJump(ExactRounding(), b, key);
      j * d <= (b + 1) * 0x8000_0000 < (j + 1) * d
  {
    var d := key / 0x2_0000_0000 + 1;
    var x := (b + 1) as real * (TWO_31 as real / d as real);
    DivideOut(b + 1, d);
    FloorTimes(x, d, (b + 1) * TWO_31);
  }

  lemma RatioAntitone(d: int, d': int)
    requires 0 < d <= d'
    ensures TWO_31 as real / d' as real <= TWO_31 as real / d as real
  {
    var q, q' := TWO_31 as real / d as real, TWO_31 as real / d' as real;
    assert q * d as real == TWO_31 as real && q' * d' as real == TWO_31 as real;
    if q < q' {
      ScaleStrictly(q, q', d as real);
      ScaleMonotone(d as real, d' as real, q');
    }
  }

  lemma RatioMonotone(rnd: Rounding, d: int, d': int)
    requires 1 <= d <= d' <= TWO_31
    ensures Ratio(rnd, d') <= Ratio(rnd, d)
  {
    RatioAntitone(d, d');
  }

  lemma ScaledMonotone(rnd: Rounding, n': nat, n: nat, r': real, r: real)
    requires n' <= n && 1.0 <= r' <= r <= TWO_31 as real
    ensures Scaled(rnd, n', r') <= Scaled(rnd, n, r)
  {
    var x, y := n' as real * r', n as real * r;
    assert x <= y by {
      ScaleMonotone(r', r, n' as real);
      ScaleMonotone(n' as real, n as real, r);
    }
    assert rnd(x) <= rnd(y);
  }

  /** Under every rounding, only the top 31 bits of the key matter, larger ones never jump further, and a larger bucket never jumps less far. */
  lemma JumpByTopBits(rnd: Rounding, b: nat, b': nat, key: Uint64, key': Uint64)
    requires key / 0x2_0000_0000 <= key' / 0x2_0000_0000 && b' <= b
    ensures NextJump(rnd, b', key') <= NextJump(rnd, b, key)
  {
    var d, d' := key / TWO_33 + 1, key' / TWO_33 + 1;
    RatioMonotone(rnd, d, d');
    ScaledMonotone(rnd, b' + 1, b + 1, Ratio(rnd, d'), Ratio(rnd, d));
  }

  lemma SameTopBitsJumpAlike(rnd: Rounding, b: nat, key: Uint64, key': Uint64)
    requires key / 0x2_0000_0000 == key' / 0x2_0000_0000
    ensures NextJump(rnd, b, key) == NextJump(rnd, b, key')
  {
    JumpByTopBits(rnd, b, b, key, key');
    JumpByTopBits(rnd, b, b, key', key);
  }

  /** The generator: it starts from one at key zero, and its steps are the multiplier apart. */
  lemma GeneratorSteps(key: Uint64, i: nat)
    ensures KeyAt(0, 1) == 1
    ensures key + 1 < TWO_64 ==> (KeyAt(key + 1, 1) - KeyAt(key, 1) - 2862933555777941757) % 0x1_0000_0000_0000_0000 == 0
    ensures KeyAt(key, i + 1) == KeyAt(KeyAt(key, i), 1)
  {
    var one := KeyAt(KeyAt(key, i), 0);
    assert KeyAt(key, 1) == NextKey(KeyAt(key, 0));
    if key + 1 < TWO_64 {
      assert KeyAt(key + 1, 1) == NextKey(KeyAt(key + 1, 0));
      ModDifference((key + 1) * MULTIPLIER + 1, key * MULTIPLIER + 1);
    }
    assert KeyAt(0, 1) == NextKey(KeyAt(0, 0));
  }

  lemma ModDifference(a: int, b: int)
    ensures (a % TWO_64 - b % TWO_64 - (a - b)) % TWO_64 == 0
  {
  }

  /** Among two buckets, in literal terms: bucket 1 exactly when the stepped key has its top bit set. */
  lemma TwoBuckets(key: Uint64)
    ensures var stepped := (key * 2862933555777941757 + 1) % 0x1_0000_0000_0000_0000;
      Bucket(FloatJump(ExactRounding()), key, 2) == if 0x8000_0000_0000_0000 <= stepped then 1 else 0
  {
    var jump, stepped := FloatJump(ExactRounding()), NextKey(key);
    var j := jump(0, stepped);
    JumpIsQuotient(0, stepped);
    FirstJumpDecides(jump, key);
    QuotientBelowTwo(j, stepped / TWO_33 + 1);
  }

  lemma QuotientBelowTwo(j: nat, d: int)
    requires 0 < d && j * d <= TWO_31 < (j + 1) * d
    ensures j < 2 <==> 0x4000_0000 < d
  {
    if 2 <= j {
      assert 2 * d <= j * d;
    } else {
      assert (j + 1) * d <= 2 * d;
    }
  }

  lemma FirstJumpDecides(jump: JumpStep, key: Uint64)
    ensures Bucket(jump, key, 2) == if jump(0, NextKey(key)) < 2 then 1 else 0
  {
    assert KeyAt(key, 1) == NextKey(KeyAt(key, 0));
    assert JumpAt(jump, key, 1) == jump(0, NextKey(key));
    if jump(0, NextKey(key)) < 2 {
      FirstJumpToOne(jump, key);
    } else {
      assert LastBelow(jump, key, 2, 0);
      BucketIsLastJump(jump, key, 2, 0);
    }
  }

  /** A key whose first step sets all 64 bits. */
  const SHORT_JUMP_KEY: Uint64 := 4626093953513826134

  lemma ShortJumpKeySteps()
    ensures NextKey(SHORT_JUMP_KEY) == TWO_64 - 1
  {
  }

  /** A key whose first jump leads to bucket 1 stays there among two. */
  lemma FirstJumpToOne(jump: JumpStep, key: Uint64)
    requires jump(0, NextKey(key)) == 1
    ensures Bucket(jump, key, 2) == 1
  {
    assert KeyAt(key, 1) == NextKey(KeyAt(key, 0));
    assert JumpAt(jump, key, 1) == 1;
    assert JumpAt(jump, key, 2) == jump(1, KeyAt(key, 2));
    assert LastBelow(jump, key, 2, 1);
    BucketIsLastJump(jump, key, 2, 1);
  }

  /** Under every rounding the first jump of that key is one bucket long, so it goes to bucket 1 of 2. */
  lemma ShortJumpLands(rnd: Rounding)
    ensures Bucket(FloatJump(rnd), SHORT_JUMP_KEY, 2) == 1
  {
    ShortJumpKeySteps();
    ShortestJump(rnd);
    FirstJumpToOne(FloatJump(rnd), SHORT_JUMP_KEY);
  }

  lemma ShortestJump(rnd: Rounding)
    ensures NextJump(rnd, 0, TWO_64 - 1) == 1
  {
    assert (TWO_64 - 1) / TWO_33 + 1 == TWO_31;
    assert TWO_31 as real / TWO_31 as real == 1.0;
    assert Exact(1.0);
    assert Ratio(rnd, TWO_31) == 1.0;
    assert 1 as real * 1.0 == 1.0;
  }
}
