/**
 Snapshot.Quantile: a walk over the buckets that agrees with sorting all the samples, up to the
 width of one bucket.
 */
module Quantiles {
  import opened Bits
  import opened Buckets

  /** Latencies in microseconds, as 64-bit words. */
  predicate Words(xs: seq<nat>) {
    forall i | 0 <= i < |xs| :: xs[i] < WORD
  }

  /** Samples in bucket i. */
  function InBucket(xs: seq<nat>, i: nat): nat {
    if xs == [] then 0 else InBucket(xs[1..], i) + (if BucketIndex(xs[0]) == i then 1 else 0)
  }

  /** Samples in buckets 0..i. */
  function UpTo(xs: seq<nat>, i: nat): nat {
    if xs == [] then 0 else UpTo(xs[1..], i) + (if BucketIndex(xs[0]) <= i then 1 else 0)
  }

  function Histogram(xs: seq<nat>): (h: seq<nat>)
    ensures |h| == NUM_BUCKETS
  {
    seq(NUM_BUCKETS, i requires 0 <= i < NUM_BUCKETS => InBucket(xs, i))
  }

  /** buckets[0] + ... + buckets[n-1] */
  function Cum(buckets: seq<nat>, n: nat): nat
    requires n <= |buckets|
  {
    if n == 0 then 0 else Cum(buckets, n - 1) + buckets[n - 1]
  }

  /** Running count after bucket i. */
  function Through(buckets: seq<nat>, i: nat): nat
    requires i < |buckets|
  {
    Cum(buckets, i + 1)
  }

  lemma {:induction false} CumGrows(buckets: seq<nat>, a: nat, b: nat)
    requires a <= b <= |buckets|
    ensures Cum(buckets, a) <= Cum(buckets, b)
    decreases b
  {
    if a < b {
      CumGrows(buckets, a, b - 1);
    }
  }

  /** The first bucket at which the running count reaches t, or the last one if none does. */
  ghost predicate StopsAt(buckets: seq<nat>, t: int, i: nat)
    requires |buckets| == NUM_BUCKETS
  {
    && i < NUM_BUCKETS
    && (forall k: nat | k < i :: Through(buckets, k) < t)
    && (Through(buckets, i) >= t || i == NUM_BUCKETS - 1)
  }

  /** The same for the running count the code keeps, which wraps at 2^64. */
  ghost predicate WrappedStopsAt(buckets: seq<nat>, t: int, i: nat)
    requires |buckets| == NUM_BUCKETS
  {
    && i < NUM_BUCKETS
    && (forall k: nat | k < i :: Through(buckets, k) % WORD < t)
    && (Through(buckets, i) % WORD >= t || i == NUM_BUCKETS - 1)
  }

  /** A histogram of fewer than 2^64 samples never wraps. */
  lemma NoWrap(buckets: seq<nat>, t: int, i: nat)
    requires |buckets| == NUM_BUCKETS && Cum(buckets, NUM_BUCKETS) < WORD
    ensures WrappedStopsAt(buckets, t, i) <==> StopsAt(buckets, t, i)
  {
    forall k: nat | k < NUM_BUCKETS ensures Through(buckets, k) % WORD == Through(buckets, k) {
      CumGrows(buckets, k + 1, NUM_BUCKETS);
    }
  }

  /** The summing loop. */
  method SumBuckets(buckets: seq<nat>) returns (total: nat)
    requires |buckets| == NUM_BUCKETS
    ensures total == Cum(buckets, NUM_BUCKETS) % WORD
  {
    total := 0;
    for n := 0 to |buckets|
      invariant total == Cum(buckets, n) % WORD
    {
      total := (total + buckets[n]) % WORD;
    }
  }

  lemma WordSum(a: nat, b: nat)
    ensures (a % WORD + b) % WORD == (a + b) % WORD
  {
  }

  /** The code's running count after bucket i, from the one before. */
  lemma RunningCount(buckets: seq<nat>, i: nat)
    requires i < |buckets| == NUM_BUCKETS
    ensures (Cum(buckets, i) % WORD + buckets[i]) % WORD == Through(buckets, i) % WORD
  {
    WordSum(Cum(buckets, i), buckets[i]);
  }

  /** The searching loop. */
  method FindBucket(buckets: seq<nat>, target: int) returns (at: nat)
    requires |buckets| == NUM_BUCKETS
    ensures WrappedStopsAt(buckets, target, at)
    ensures Cum(buckets, NUM_BUCKETS) < WORD ==> StopsAt(buckets, target, at)
  {
    at := NUM_BUCKETS - 1;
    var cum: nat := 0;
    for i := 0 to |buckets|
      invariant cum == Cum(buckets, i) % WORD
      invariant at == NUM_BUCKETS - 1
      invariant forall k: nat | k < i :: Through(buckets, k) % WORD < target
    {
      RunningCount(buckets, i);
      cum := (cum + buckets[i]) % WORD;
      if cum >= target {
        at := i;
        break;
      }
    }
    if Cum(buckets, NUM_BUCKETS) < WORD {
      NoWrap(buckets, target, at);
    }
  }

  lemma SmallTotal(total: nat)
    ensures total < WORD ==> total % WORD == total
  {
  }

  /** q, n times: the product, as `ScaledIsProduct` says. */
  function Scaled(q: real, n: nat): real {
    if n == 0 then 0.0 else Scaled(q, n - 1) + q
  }

  lemma {:induction false} ScaledIsProduct(q: real, n: nat)
    ensures Scaled(q, n) == q * n as real
  {
    if n > 0 {
      ScaledIsProduct(q, n - 1);
      assert q * n as real == q * (n - 1) as real + q;
    }
  }

  /** t is the rank of quantile q among n samples: the integer part of the product. */
  predicate IsRank(q: real, n: nat, t: int) {
    t as real <= Scaled(q, n) < t as real + 1.0
  }

  lemma RankIff(q: real, n: nat, t: int)
    ensures IsRank(q, n, t) <==> t as real <= q * n as real < t as real + 1.0
  {
    ScaledIsProduct(q, n);
  }

  method TargetRank(q: real, total: nat) returns (target: int)
    ensures IsRank(q, total, target)
  {
    target := (q * total as real).Floor;
    RankIff(q, total, target);
  }

  /**
   Snapshot.Quantile in milliseconds: the bound of the first bucket at which the running count
   reaches t, the integer part of q times the total; past the end (only possible for q > 1, or if
   counts wrap) that of the last.
   */
  method Quantile(buckets: seq<nat>, q: real) returns (ms: real, ghost t: int, ghost at: nat)
    requires |buckets| == NUM_BUCKETS && q >= 0.0
    ensures IsRank(q, Cum(buckets, NUM_BUCKETS) % WORD, t)
    ensures Cum(buckets, NUM_BUCKETS) % WORD == 0 ==> ms == 0.0
    ensures Cum(buckets, NUM_BUCKETS) % WORD > 0 ==>
      WrappedStopsAt(buckets, t, at) && ms == BucketValue(at) as real / 1000.0
    ensures 0 < Cum(buckets, NUM_BUCKETS) < WORD ==> StopsAt(buckets, t, at)
  {
    var total := SumBuckets(buckets);
    SmallTotal(Cum(buckets, NUM_BUCKETS));
    var target := TargetRank(q, total);
    if total == 0 {
      return 0.0, target, 0;
    }
    var i := FindBucket(buckets, target);
    return BucketValue(i) as real / 1000.0, target, i;
  }

  // ---- counting samples ----

  lemma {:induction false} UpToSplit(a: seq<nat>, b: seq<nat>, i: nat)
    ensures UpTo(a + b, i) == UpTo(a, i) + UpTo(b, i)
  {
    if a == [] {
      assert a + b == b;
    } else {
      UpToSplit(a[1..], b, i);
      assert (a + b)[1..] == a[1..] + b;
    }
  }

  lemma {:induction false} AllUpTo(xs: seq<nat>, i: nat)
    requires forall k | 0 <= k < |xs| :: BucketIndex(xs[k]) <= i
    ensures UpTo(xs, i) == |xs|
  {
    if xs != [] {
      AllUpTo(xs[1..], i);
    }
  }

  lemma {:induction false} NoneUpTo(xs: seq<nat>, i: nat)
    requires forall k | 0 <= k < |xs| :: BucketIndex(xs[k]) > i
    ensures UpTo(xs, i) == 0
  {
    if xs != [] {
      NoneUpTo(xs[1..], i);
    }
  }

  lemma {:induction false} UpToNext(xs: seq<nat>, i: nat)
    ensures UpTo(xs, i + 1) == UpTo(xs, i) + InBucket(xs, i + 1)
    ensures UpTo(xs, 0) == InBucket(xs, 0)
  {
    if xs != [] {
      UpToNext(xs[1..], i);
    }
  }

  lemma {:induction false} CumIsUpTo(xs: seq<nat>, n: nat)
    requires n < NUM_BUCKETS
    ensures Through(Histogram(xs), n) == UpTo(xs, n)
  {
    if n == 0 {
      UpToNext(xs, 0);
      assert Cum(Histogram(xs), 1) == Cum(Histogram(xs), 0) + Histogram(xs)[0];
    } else {
      CumIsUpTo(xs, n - 1);
      UpToNext(xs, n - 1);
    }
  }

  lemma RemoveOne(ys: seq<nat>, j: nat, i: nat)
    requires j < |ys|
    ensures var rest := ys[..j] + ys[j + 1..];
      && multiset(rest) == multiset(ys) - multiset{ys[j]}
      && UpTo(ys, i) == UpTo(rest, i) + (if BucketIndex(ys[j]) <= i then 1 else 0)
  {
    assert ys == ys[..j] + ([ys[j]] + ys[j + 1..]);
    UpToSplit(ys[..j], [ys[j]] + ys[j + 1..], i);
    UpToSplit(ys[..j], ys[j + 1..], i);
  }

  lemma HeadOff(xs: seq<nat>)
    requires xs != []
    ensures multiset(xs[1..]) == multiset(xs) - multiset{xs[0]} && xs[0] in multiset(xs)
  {
    assert xs == [xs[0]] + xs[1..];
  }

  lemma IndexOf(ys: seq<nat>, x: nat) returns (j: nat)
    requires x in multiset(ys)
    ensures j < |ys| && ys[j] == x
  {
    assert x in ys;
    j :| 0 <= j < |ys| && ys[j] == x;
  }

  lemma {:induction false} SameCounts(xs: seq<nat>, ys: seq<nat>, i: nat)
    requires multiset(xs) == multiset(ys)
    ensures UpTo(xs, i) == UpTo(ys, i) && |xs| == |ys|
    decreases |xs|
  {
    assert |multiset(xs)| == |xs| && |multiset(ys)| == |ys|;
    if xs != [] {
      HeadOff(xs);
      var j := IndexOf(ys, xs[0]);
      RemoveOne(ys, j, i);
      SameCounts(xs[1..], ys[..j] + ys[j + 1..], i);
    }
  }

  // ---- agreement with sorting ----

  predicate Sorted(xs: seq<nat>) {
    forall i, j | 0 <= i < j < |xs| :: xs[i] <= xs[j]
  }

  lemma IndexMonotone(x: nat, y: nat)
    requires x <= y < WORD
    ensures BucketIndex(x) <= BucketIndex(y)
  {
    Pow2Values();
    CodeAdjoint(x, 0);
    CodeAdjoint(x, BucketIndex(x));
    CodeAdjoint(y, BucketIndex(x));
  }

  lemma RankReached(sorted: seq<nat>, t: nat, i: nat)
    requires Words(sorted) && Sorted(sorted) && 1 <= t <= |sorted| && i >= BucketIndex(sorted[t - 1])
    ensures UpTo(sorted, i) >= t
  {
    forall k | 0 <= k < t ensures BucketIndex(sorted[k]) <= i {
      IndexMonotone(sorted[k], sorted[t - 1]);
    }
    assert sorted == sorted[..t] + sorted[t..];
    UpToSplit(sorted[..t], sorted[t..], i);
    AllUpTo(sorted[..t], i);
  }

  lemma RankNotReached(sorted: seq<nat>, t: nat, i: nat)
    requires Words(sorted) && Sorted(sorted) && 1 <= t <= |sorted| && i < BucketIndex(sorted[t - 1])
    ensures UpTo(sorted, i) < t
  {
    var high := sorted[t - 1..];
    forall k | 0 <= k < |high| ensures BucketIndex(high[k]) > i {
      IndexMonotone(sorted[t - 1], high[k]);
    }
    assert sorted == sorted[..t - 1] + high;
    UpToSplit(sorted[..t - 1], high, i);
    NoneUpTo(high, i);
    UpToBounded(sorted[..t - 1], i);
  }

  /** The running count reaches t exactly from the bucket of the t-th smallest sample on. */
  lemma RankBucket(xs: seq<nat>, sorted: seq<nat>, t: nat, i: nat)
    requires Words(sorted) && Sorted(sorted) && multiset(xs) == multiset(sorted)
    requires 1 <= t <= |sorted| && i < NUM_BUCKETS
    ensures Through(Histogram(xs), i) >= t <==> i >= BucketIndex(sorted[t - 1])
  {
    SameCounts(xs, sorted, i);
    CumIsUpTo(xs, i);
    if i >= BucketIndex(sorted[t - 1]) {
      RankReached(sorted, t, i);
    } else {
      RankNotReached(sorted, t, i);
    }
  }

  lemma {:induction false} UpToBounded(xs: seq<nat>, i: nat)
    ensures UpTo(xs, i) <= |xs|
  {
    if xs != [] {
      UpToBounded(xs[1..], i);
    }
  }

  lemma RankBounds(q: real, total: nat, t: int)
    requires 0.0 <= q <= 1.0 && IsRank(q, total, t)
    ensures 0 <= t <= total
  {
    RankIff(q, total, t);
    assert 0.0 <= q * total as real <= total as real;
  }

  /** All samples are in some bucket. */
  lemma TotalIsCount(xs: seq<nat>)
    ensures Cum(Histogram(xs), NUM_BUCKETS) == |xs|
  {
    CumIsUpTo(xs, NUM_BUCKETS - 1);
    AllUpTo(xs, NUM_BUCKETS - 1);
  }

  lemma StopsUniquely(buckets: seq<nat>, t: int, at: nat, b: nat)
    requires |buckets| == NUM_BUCKETS && StopsAt(buckets, t, at) && b < NUM_BUCKETS
    requires forall i: nat | i < NUM_BUCKETS :: Through(buckets, i) >= t <==> i >= b
    ensures at == b
  {
    assert Through(buckets, b) >= t;
  }

  lemma RankIsBucket(xs: seq<nat>, sorted: seq<nat>, t: nat, at: nat)
    requires Words(sorted) && Sorted(sorted) && multiset(xs) == multiset(sorted)
    requires 1 <= t <= |sorted| && StopsAt(Histogram(xs), t, at)
    ensures at == BucketIndex(sorted[t - 1])
  {
    var x := sorted[t - 1];
    forall i: nat | i < NUM_BUCKETS ensures Through(Histogram(xs), i) >= t <==> i >= BucketIndex(x) {
      RankBucket(xs, sorted, t, i);
    }
    StopsUniquely(Histogram(xs), t, at, BucketIndex(x));
  }

  /**
   Bucket `at` is that of the t-th smallest sample x: its bound lo is at most x, and within x/8 of
   it exactly when x is at most ERROR_LIMIT (so for every x below 2^34).
   */
  predicate NearRank(sorted: seq<nat>, t: int, at: nat)
    requires 1 <= t <= |sorted|
  {
    var x, lo := sorted[t - 1], BucketValue(at);
    at == BucketIndex(x) && lo <= x && (8 * (x - lo) <= lo <==> x <= ERROR_LIMIT)
  }

  lemma RankIsNear(xs: seq<nat>, sorted: seq<nat>, t: nat, at: nat)
    requires Words(sorted) && Sorted(sorted) && multiset(xs) == multiset(sorted)
    requires 1 <= t <= |sorted| && StopsAt(Histogram(xs), t, at)
    ensures NearRank(sorted, t, at)
  {
    RankIsBucket(xs, sorted, t, at);
    Pow2Values();
    ErrorBoundIff(sorted[t - 1]);
  }

  lemma RankAmong(xs: seq<nat>, sorted: seq<nat>, t: int, at: nat)
    requires Words(sorted) && Sorted(sorted) && multiset(xs) == multiset(sorted)
    requires 1 <= t <= |xs| && StopsAt(Histogram(xs), t, at)
    ensures t <= |sorted| && NearRank(sorted, t, at)
  {
    SameCounts(xs, sorted, 0);
    RankIsNear(xs, sorted, t, at);
  }

  /** For q in [0, 1] and rank at least 1, Quantile stops at the bucket of the sorted sample of that rank. */
  lemma QuantileIsSortedRank(xs: seq<nat>, sorted: seq<nat>, q: real, t: int, at: nat)
    requires Words(sorted) && Sorted(sorted) && multiset(xs) == multiset(sorted)
    requires 0.0 <= q <= 1.0 && t as real <= q * |xs| as real < t as real + 1.0
    requires t >= 1 && StopsAt(Histogram(xs), t, at)
    ensures t <= |sorted| && NearRank(sorted, t, at)
  {
    RankIff(q, |xs|, t);
    RankBounds(q, |xs|, t);
    RankAmong(xs, sorted, t, at);
  }

  lemma SampleBound(xs: seq<nat>, sorted: seq<nat>, t: int, at: nat)
    requires Words(sorted) && Sorted(sorted) && multiset(xs) == multiset(sorted)
    requires 0 <= t <= |xs| && StopsAt(Histogram(xs), t, at)
    ensures t == 0 ==> BucketValue(at) == 0
    ensures t > 0 ==> t <= |sorted| && at == BucketIndex(sorted[t - 1]) && NearRank(sorted, t, at)
  {
    if t == 0 {
      RankZero(Histogram(xs), at);
    } else {
      RankAmong(xs, sorted, t, at);
    }
  }

  lemma HistogramTotal(xs: seq<nat>)
    requires |xs| < WORD
    ensures Cum(Histogram(xs), NUM_BUCKETS) == |xs| && Cum(Histogram(xs), NUM_BUCKETS) % WORD == |xs|
  {
    TotalIsCount(xs);
    SmallTotal(|xs|);
  }

  /**
   The percentile of fewer than 2^64 latencies: with t the integer part of q times their number, the bound,
   in milliseconds, of the bucket of the t-th smallest; within an eighth of that latency up to the limit.
   */
  method QuantileOfSamples(xs: seq<nat>, ghost sorted: seq<nat>, q: real, ghost t: int) returns (ms: real)
    requires |xs| < WORD && Words(sorted) && Sorted(sorted) && multiset(xs) == multiset(sorted)
    requires 0.0 <= q <= 1.0 && IsRank(q, |xs|, t)
    ensures t == 0 ==> ms == 0.0
    ensures t != 0 ==>
      && 0 < t <= |sorted| && ms == BucketValue(BucketIndex(sorted[t - 1])) as real / 1000.0
      && NearRank(sorted, t, BucketIndex(sorted[t - 1]))
  {
    ghost var u, at;
    HistogramTotal(xs);
    ms, u, at := Quantile(Histogram(xs), q);
    assert t == u;
    RankBounds(q, |xs|, t);
    if |xs| > 0 {
      SampleBound(xs, sorted, t, at);
    }
  }

  /** Rank 0 always answers 0, whatever the samples. */
  lemma RankZero(buckets: seq<nat>, at: nat)
    requires |buckets| == NUM_BUCKETS && StopsAt(buckets, 0, at)
    ensures at == 0 && BucketValue(at) == 0
  {
    StopsUniquely(buckets, 0, at, 0);
  }

  /** The loop's fall-through return is taken exactly when the rank exceeds the total, so never for q <= 1. */
  lemma FallThroughIff(buckets: seq<nat>, q: real, t: int)
    requires |buckets| == NUM_BUCKETS && q >= 0.0
    requires IsRank(q, Cum(buckets, NUM_BUCKETS), t)
    ensures (forall k: nat | k < NUM_BUCKETS :: Through(buckets, k) < t) <==> t > Cum(buckets, NUM_BUCKETS)
    ensures q <= 1.0 ==> t <= Cum(buckets, NUM_BUCKETS)
  {
    var total := Cum(buckets, NUM_BUCKETS);
    if q <= 1.0 {
      RankBounds(q, total, t);
    }
    forall k: nat | k < NUM_BUCKETS ensures Through(buckets, k) <= total {
      CumGrows(buckets, k + 1, NUM_BUCKETS);
    }
    assert Through(buckets, NUM_BUCKETS - 1) == total;
  }

  lemma BoundsMonotone(i: nat, k: nat)
    requires i <= k < NUM_BUCKETS
    ensures BucketValue(i) <= BucketValue(k)
  {
    BucketValueIsLower(i);
    BucketValueIsLower(k);
    if i < k {
      LowerIncreases(SUB_BITS, i, k);
    }
  }

  lemma {:induction false} ScaledMonotone(q1: real, q2: real, n: nat)
    requires q1 <= q2
    ensures Scaled(q1, n) <= Scaled(q2, n)
  {
    if n > 0 {
      ScaledMonotone(q1, q2, n - 1);
    }
  }

  lemma RankMonotone(q1: real, q2: real, total: nat, t1: int, t2: int)
    requires q1 <= q2 && IsRank(q1, total, t1) && IsRank(q2, total, t2)
    ensures t1 <= t2
  {
    ScaledMonotone(q1, q2, total);
  }

  /** The quantile is monotone in q. */
  lemma QuantileMonotone(buckets: seq<nat>, q1: real, q2: real, t1: int, t2: int, at1: nat, at2: nat)
    requires |buckets| == NUM_BUCKETS && 0.0 <= q1 <= q2
    requires IsRank(q1, Cum(buckets, NUM_BUCKETS), t1) && IsRank(q2, Cum(buckets, NUM_BUCKETS), t2)
    requires StopsAt(buckets, t1, at1) && StopsAt(buckets, t2, at2)
    ensures BucketValue(at1) <= BucketValue(at2)
  {
    RankMonotone(q1, q2, Cum(buckets, NUM_BUCKETS), t1, t2);
    BoundsMonotone(at1, at2);
  }
}
