/**
 The log-linear bucket scheme of cmd/agent/metrics.go: linear below 2^sub, then 2^sub buckets an
 octave. The arithmetic is proved for every resolution; `BucketIndex` and `BucketValue` are
 the code's own bit operations at sub = 3 with 256 buckets.
 */
module Buckets {
  import opened Bits

  const SUB_BITS: nat := 3
  const SUB_COUNT: nat := 8
  const NUM_BUCKETS: nat := 256

  // ---- any resolution ----

  lemma LongerThanSub(sub: nat, v: nat)
    requires v >= Pow2(sub)
    ensures Len(v) > sub
  {
    LenBounds(v);
    if Len(v) <= sub {
      Pow2Mono(Len(v), sub);
    }
  }

  lemma NatProduct(a: nat, b: nat)
    ensures a * b >= 0
  {
  }

  /** Bucket of v before the clamp. */
  function Raw(sub: nat, v: nat): nat {
    if v < Pow2(sub) then v
    else
      LongerThanSub(sub, v);
      var o := Len(v) - 1 - sub;
      NatProduct(o + 1, Pow2(sub));
      (o + 1) * Pow2(sub) + v / Pow2(o) % Pow2(sub)
  }

  function Index(sub: nat, buckets: nat, v: nat): nat
    requires buckets > 0
  {
    if Raw(sub, v) >= buckets then buckets - 1 else Raw(sub, v)
  }

  /** Octaves start at bucket 2^sub. */
  lemma OctaveNumber(sub: nat, i: nat)
    requires i >= Pow2(sub)
    ensures i / Pow2(sub) >= 1
  {
    MulMono(i + 1, 1, Pow2(sub));
    DivBounds(i, Pow2(sub), 1, i + 1);
  }

  /** Lower bound of bucket i. */
  function Lower(sub: nat, i: nat): nat {
    if i < Pow2(sub) then i
    else OctaveNumber(sub, i); (Pow2(sub) + i % Pow2(sub)) * Pow2(i / Pow2(sub) - 1)
  }

  /** Width of bucket i. */
  function Width(sub: nat, i: nat): nat {
    if i < Pow2(sub) then 1 else OctaveNumber(sub, i); Pow2(i / Pow2(sub) - 1)
  }

  /** Leading digit: if p * m <= v < 2p * m then v / m lies in [p, 2p) and its remainder by p drops p. */
  lemma LeadingDigit(v: nat, m: nat, p: nat)
    requires m > 0 && p > 0 && p * m <= v < 2 * p * m
    ensures p <= v / m < 2 * p && v / m % p == v / m - p
  {
    DivBounds(v, m, p, 2 * p);
    ModUnique(v / m, p, 1, v / m - p);
  }

  lemma RawInOctave(sub: nat, v: nat, o: nat)
    requires v >= Pow2(sub) && Len(v) == o + 1 + sub
    requires v / Pow2(o) % Pow2(sub) == v / Pow2(o) - Pow2(sub)
    ensures Raw(sub, v) == o * Pow2(sub) + v / Pow2(o)
  {
    assert (o + 1) * Pow2(sub) == o * Pow2(sub) + Pow2(sub);
  }

  lemma OctaveBounds(sub: nat, v: nat) returns (o: nat)
    requires v >= Pow2(sub)
    ensures Len(v) == o + 1 + sub
    ensures Pow2(sub) * Pow2(o) <= v < 2 * Pow2(sub) * Pow2(o)
  {
    LongerThanSub(sub, v);
    LenBounds(v);
    o := Len(v) - 1 - sub;
    Pow2Add(sub, o);
    Pow2Add(sub + 1, o);
  }

  /** v at octave o: v = q * 2^o + rest with q in [2^sub, 2^(sub+1)), and Raw is o * 2^sub + q. */
  lemma Octave(sub: nat, v: nat) returns (o: nat, q: nat)
    requires v >= Pow2(sub)
    ensures Pow2(sub) <= q < 2 * Pow2(sub)
    ensures q * Pow2(o) <= v < (q + 1) * Pow2(o)
    ensures Raw(sub, v) == o * Pow2(sub) + q
  {
    o := OctaveBounds(sub, v);
    q := v / Pow2(o);
    LeadingDigit(v, Pow2(o), Pow2(sub));
    RawInOctave(sub, v, o);
    DivExact(v, Pow2(o));
  }

  lemma QuotientOf(p: nat, i: nat, o: nat, q: nat)
    requires p > 0 && p <= q < 2 * p && i == o * p + q
    ensures i >= p && i / p == o + 1 && i % p == q - p
  {
    assert o * p >= 0;
    assert p * (o + 1) == o * p + p;
    ModUnique(i, p, o + 1, q - p);
  }

  /** Bucket i = o * 2^sub + q has lower bound q * 2^o. */
  lemma SplitUnique(sub: nat, i: nat, o: nat, q: nat)
    requires Pow2(sub) <= q < 2 * Pow2(sub) && i == o * Pow2(sub) + q
    ensures i >= Pow2(sub) && Lower(sub, i) == q * Pow2(o) && Width(sub, i) == Pow2(o)
  {
    QuotientOf(Pow2(sub), i, o, q);
  }

  lemma Split(sub: nat, i: nat) returns (o: nat, q: nat)
    requires i >= Pow2(sub)
    ensures Pow2(sub) <= q < 2 * Pow2(sub) && i == o * Pow2(sub) + q
    ensures Lower(sub, i) == q * Pow2(o) && Width(sub, i) == Pow2(o)
  {
    var p := Pow2(sub);
    OctaveNumber(sub, i);
    o, q := i / p - 1, p + i % p;
    assert i == p * (i / p) + i % p;
    assert p * (i / p) == o * p + p;
    SplitUnique(sub, i, o, q);
  }

  /** Comparing o * p + q with another pair is lexicographic. */
  lemma Lexicographic(p: nat, o1: nat, q1: nat, o2: nat, q2: nat)
    requires p <= q1 < 2 * p && p <= q2 < 2 * p
    ensures o1 * p + q1 >= o2 * p + q2 <==> o1 > o2 || (o1 == o2 && q1 >= q2)
  {
    if o1 > o2 {
      MulMono(p, o2 + 1, o1);
    } else if o1 < o2 {
      MulMono(p, o1 + 1, o2);
    }
  }

  /** So is comparing values by octave. */
  lemma ValueOrder(p: nat, v: nat, o1: nat, q1: nat, o2: nat, q2: nat)
    requires p <= q1 < 2 * p && p <= q2 < 2 * p
    requires q1 * Pow2(o1) <= v < (q1 + 1) * Pow2(o1)
    ensures v >= q2 * Pow2(o2) <==> o1 > o2 || (o1 == o2 && q1 >= q2)
  {
    if o1 == o2 {
      if q1 >= q2 {
        MulMono(Pow2(o1), q2, q1);
      } else {
        MulMono(Pow2(o1), q1 + 1, q2);
      }
    } else if o1 > o2 {
      OctaveGap(p, q2, o2, q1, o1);
    } else {
      OctaveGap(p, q1, o1, q2, o2);
    }
  }

  lemma DoubleShift(p: nat, o: nat)
    ensures 2 * p * Pow2(o) == p * Pow2(o + 1)
  {
    assert p * (2 * Pow2(o)) == 2 * p * Pow2(o);
  }

  /** Everything in a lower octave lies below everything in a higher one. */
  lemma OctaveGap(p: nat, q1: nat, o1: nat, q2: nat, o2: nat)
    requires o1 < o2 && q1 < 2 * p && p <= q2
    ensures (q1 + 1) * Pow2(o1) <= q2 * Pow2(o2)
  {
    MulMono(Pow2(o1), q1 + 1, 2 * p);
    DoubleShift(p, o1);
    Pow2Mono(o1 + 1, o2);
    MulMono(p, Pow2(o1 + 1), Pow2(o2));
    MulMono(Pow2(o2), p, q2);
  }

  /** The two maps are adjoint: v reaches bucket i exactly when it reaches i's lower bound. */
  lemma Adjoint(sub: nat, v: nat, i: nat)
    ensures Raw(sub, v) >= i <==> v >= Lower(sub, i)
  {
    var p := Pow2(sub);
    if v < p && i < p {
    } else if v < p {
      var o, q := Split(sub, i);
      MulMono(q, 1, Pow2(o));
    } else if i < p {
      var o, q := Octave(sub, v);
    } else {
      var o1, q1 := Octave(sub, v);
      var o2, q2 := Split(sub, i);
      Lexicographic(p, o1, q1, o2, q2);
      ValueOrder(p, v, o1, q1, o2, q2);
    }
  }

  lemma AddOne(q: nat, m: nat)
    ensures (q + 1) * m == q * m + m
  {
  }

  lemma NextInOctave(sub: nat, o: nat, q: nat)
    requires Pow2(sub) <= q && q + 1 < 2 * Pow2(sub)
    ensures Lower(sub, o * Pow2(sub) + q + 1) == q * Pow2(o) + Pow2(o)
  {
    SplitUnique(sub, o * Pow2(sub) + q + 1, o, q + 1);
    AddOne(q, Pow2(o));
  }

  lemma LastOfOctave(p: nat, q: nat, m: nat)
    requires q + 1 == 2 * p
    ensures 2 * p * m == q * m + m
  {
    AddOne(q, m);
  }

  lemma FirstOfOctave(sub: nat, o: nat)
    ensures Lower(sub, (o + 2) * Pow2(sub)) == 2 * Pow2(sub) * Pow2(o)
  {
    AddOne(o + 1, Pow2(sub));
    SplitUnique(sub, (o + 2) * Pow2(sub), o + 1, Pow2(sub));
    DoubleShift(Pow2(sub), o);
  }

  lemma NextOctave(sub: nat, o: nat, q: nat)
    requires q + 1 == 2 * Pow2(sub)
    ensures Lower(sub, o * Pow2(sub) + q + 1) == q * Pow2(o) + Pow2(o)
  {
    AddOne(o, Pow2(sub));
    AddOne(o + 1, Pow2(sub));
    FirstOfOctave(sub, o);
    LastOfOctave(Pow2(sub), q, Pow2(o));
  }

  /** Adjacent bounds are one width apart. */
  lemma NextBound(sub: nat, i: nat)
    ensures Lower(sub, i + 1) == Lower(sub, i) + Width(sub, i)
  {
    if i + 1 == Pow2(sub) {
      SplitUnique(sub, i + 1, 0, Pow2(sub));
    } else if i >= Pow2(sub) {
      var o, q := Split(sub, i);
      if q + 1 < 2 * Pow2(sub) {
        NextInOctave(sub, o, q);
      } else {
        NextOctave(sub, o, q);
      }
    }
  }

  /** Above the linear region a bucket is at most 2^-sub of its lower bound wide. */
  lemma WidthRatio(sub: nat, i: nat)
    requires i >= Pow2(sub)
    ensures Width(sub, i) * Pow2(sub) <= Lower(sub, i)
  {
    var o, q := Split(sub, i);
    MulMono(Pow2(o), Pow2(sub), q);
  }

  /** Bounds increase strictly. */
  lemma LowerIncreases(sub: nat, i: nat, k: nat)
    requires i < k
    ensures Lower(sub, i) < Lower(sub, k)
    decreases k
  {
    NextBound(sub, k - 1);
    if i < k - 1 {
      LowerIncreases(sub, i, k - 1);
    }
  }

  /** A bucket's own lower bound lands back in it. */
  lemma RoundTrip(sub: nat, i: nat)
    ensures Raw(sub, Lower(sub, i)) == i
  {
    Adjoint(sub, Lower(sub, i), i);
    Adjoint(sub, Lower(sub, i), i + 1);
    LowerIncreases(sub, i, i + 1);
  }

  /** The clamped index: adjointness for every i below the bucket count, and the bucket's interval. */
  lemma IndexInterval(sub: nat, buckets: nat, v: nat)
    requires buckets > 0
    ensures forall i: nat | i < buckets :: Index(sub, buckets, v) >= i <==> v >= Lower(sub, i)
    ensures var i := Index(sub, buckets, v);
      Lower(sub, i) <= v && (i < buckets - 1 ==> v < Lower(sub, i + 1))
  {
    forall i: nat | i < buckets ensures Index(sub, buckets, v) >= i <==> v >= Lower(sub, i) {
      Adjoint(sub, v, i);
    }
  }

  lemma BelowWidth(p: nat, d: nat, w: nat, lo: nat)
    requires p > 0 && d < w && w * p <= lo
    ensures p * d < lo
  {
    MulMono(p, d + 1, w);
    assert p * (d + 1) == p * d + p;
  }

  /** Anything in bucket i is within 2^-sub of its bound. */
  lemma ErrorInBucket(sub: nat, i: nat, v: nat)
    requires Lower(sub, i) <= v < Lower(sub, i) + Width(sub, i)
    ensures v == Lower(sub, i) || Pow2(sub) * (v - Lower(sub, i)) < Lower(sub, i)
  {
    if i >= Pow2(sub) {
      WidthRatio(sub, i);
      BelowWidth(Pow2(sub), v - Lower(sub, i), Width(sub, i), Lower(sub, i));
    }
  }

  /** Every value lies in its own bucket, before clamping. */
  lemma OwnBucket(sub: nat, v: nat)
    ensures var i := Raw(sub, v);
      Lower(sub, i) <= v < Lower(sub, i) + Width(sub, i)
  {
    var i := Raw(sub, v);
    Adjoint(sub, v, i);
    Adjoint(sub, v, i + 1);
    NextBound(sub, i);
  }

  /** Below the clamp the lower bound is within a factor 1 + 2^-sub of the value. */
  lemma RelativeError(sub: nat, v: nat)
    ensures var lo := Lower(sub, Raw(sub, v));
      lo <= v && (v == lo || Pow2(sub) * (v - lo) < lo)
  {
    OwnBucket(sub, v);
    ErrorInBucket(sub, Raw(sub, v), v);
  }

  // ---- the code at sub = 3, 256 buckets, 64-bit words ----

  function BucketIndex(v: nat): (i: nat)
    ensures i < NUM_BUCKETS
  {
    if v < SUB_COUNT then v
    else
      SubPow();
      LongerThanSub(SUB_BITS, v);
      var e := Len(v) - 1;
      var m := And(Shr(v, e - SUB_BITS), SUB_COUNT - 1);
      var idx := Or(Shl64(e - SUB_BITS + 1, SUB_BITS), m);
      if idx >= NUM_BUCKETS then NUM_BUCKETS - 1 else idx
  }

  function BucketValue(i: nat): nat {
    if i < SUB_COUNT then i
    else
      SubPow();
      OctaveNumber(SUB_BITS, i);
      var e := Shr(i, SUB_BITS) + SUB_BITS - 1;
      var m := And(i, SUB_COUNT - 1);
      Shl64(Or(SUB_COUNT, m), e - SUB_BITS)
  }

  lemma SubPow()
    ensures Pow2(SUB_BITS) == SUB_COUNT
  {
    assert Pow2(3) == 2 * Pow2(2) && Pow2(2) == 2 * Pow2(1) && Pow2(1) == 2 * Pow2(0);
  }

  lemma Pow2At24()
    ensures Pow2(24) == 16_777_216
  {
    Pow2Add(6, 6);
    Pow2Add(12, 12);
  }

  lemma Pow2At30()
    ensures Pow2(30) == 1_073_741_824
  {
    Pow2At24();
    Pow2Add(24, 6);
  }

  lemma Pow2Values()
    ensures Pow2(30) == 1_073_741_824 && Pow2(34) == 17_179_869_184
    ensures Pow2(64) == WORD
  {
    Pow2At30();
    Pow2Add(30, 2);
    Pow2Add(32, 2);
    Pow2Add(32, 32);
  }

  lemma WordLength(v: nat)
    requires 0 < v < Pow2(64)
    ensures 1 <= Len(v) <= 64
  {
    LenBounds(v);
    if Len(v) > 64 {
      Pow2Mono(64, Len(v) - 1);
    }
  }

  lemma ShiftFits(o: nat)
    requires o < 64
    ensures Shl64(o + 1, SUB_BITS) == (o + 1) * SUB_COUNT
  {
    SubPow();
  }

  /** An octave's first bucket and a position in the octave, put together with or. */
  lemma IndexBits(o: nat, low: nat)
    requires o < 64 && low < SUB_COUNT
    ensures Or(Shl64(o + 1, SUB_BITS), low) == (o + 1) * SUB_COUNT + low
  {
    SubPow();
    ShiftFits(o);
    OrDisjoint(o + 1, SUB_BITS, low);
  }

  lemma MaskBits(v: nat)
    ensures And(v, SUB_COUNT - 1) == v % SUB_COUNT
  {
    SubPow();
    AndMask(v, SUB_BITS);
  }

  /** The bit operations compute the clamped bucket of every 64-bit value. */
  lemma BucketIndexIsIndex(v: nat)
    requires v < Pow2(64)
    ensures BucketIndex(v) == Index(SUB_BITS, NUM_BUCKETS, v)
  {
    SubPow();
    if v >= SUB_COUNT {
      LongerThanSub(SUB_BITS, v);
      WordLength(v);
      var o := Len(v) - 1 - SUB_BITS;
      MaskBits(Shr(v, o));
      IndexBits(o, v / Pow2(o) % SUB_COUNT);
    }
  }

  lemma MantissaBits(i: nat)
    ensures Or(SUB_COUNT, And(i, SUB_COUNT - 1)) == SUB_COUNT + i % SUB_COUNT
  {
    SubPow();
    MaskBits(i);
    OrDisjoint(1, SUB_BITS, i % SUB_COUNT);
  }

  lemma ProductBelow(q: nat, p: nat)
    requires q < 16 && p <= 1_073_741_824
    ensures q * p < 17_179_869_184
  {
    MulMono(p, q, 15);
  }

  lemma OctaveAtMost30(o: nat)
    requires o <= 30
    ensures Pow2(o) <= 1_073_741_824
  {
    Pow2At30();
    Pow2Mono(o, 30);
  }

  /** Shifting a four-bit mantissa by at most 30 stays below 2^34. */
  lemma ShiftBelow34(q: nat, o: nat)
    requires q < 16 && o <= 30
    ensures q * Pow2(o) < 17_179_869_184 && Shl64(q, o) == q * Pow2(o)
  {
    OctaveAtMost30(o);
    ProductBelow(q, Pow2(o));
    NothingTruncated(q * Pow2(o));
  }

  /** So do those of bucketValue for every bucket: no 64-bit word overflows. */
  lemma BucketValueIsLower(i: nat)
    requires i < NUM_BUCKETS
    ensures BucketValue(i) == Lower(SUB_BITS, i) && BucketValue(i) < Pow2(34)
  {
    SubPow();
    if i >= SUB_COUNT {
      MantissaBits(i);
      OctaveNumber(SUB_BITS, i);
      assert Shr(i, SUB_BITS) == i / SUB_COUNT;
      ShiftBelow34(SUB_COUNT + i % SUB_COUNT, i / SUB_COUNT - 1);
    }
    Pow2Values();
  }

  /**
   bucketIndex and bucketValue are adjoint over all 64-bit values, hence each value lies in its
   bucket's interval and each bound returns to its bucket.
   */
  lemma CodeAdjoint(v: nat, i: nat)
    requires v < Pow2(64) && i < NUM_BUCKETS
    ensures BucketIndex(v) >= i <==> v >= BucketValue(i)
    ensures BucketIndex(BucketValue(i)) == i
  {
    BucketIndexIsIndex(v);
    BucketValueIsLower(i);
    IndexInterval(SUB_BITS, NUM_BUCKETS, v);
    Pow2Values();
    BucketIndexIsIndex(BucketValue(i));
    RoundTrip(SUB_BITS, i);
  }

  /** The last bucket's lower bound, and the value up to which it still meets the error bound. */
  const LAST_BOUND: nat := 16_106_127_360
  const ERROR_LIMIT: nat := 18_119_393_280

  lemma LastBucket()
    ensures Lower(SUB_BITS, NUM_BUCKETS - 1) == LAST_BOUND && Lower(SUB_BITS, NUM_BUCKETS) == Pow2(34)
  {
    SubPow();
    Pow2Values();
    SplitUnique(SUB_BITS, NUM_BUCKETS - 1, 30, 15);
    SplitUnique(SUB_BITS, NUM_BUCKETS, 31, 8);
    Pow2Add(3, 31);
  }

  /** The bucket bound is within 1/8 of a 64-bit value exactly up to ERROR_LIMIT, which 2^34 stays below. */
  lemma ErrorBoundIff(v: nat)
    requires v < Pow2(64)
    ensures var lo := BucketValue(BucketIndex(v));
      lo <= v && (8 * (v - lo) <= lo <==> v <= ERROR_LIMIT)
    ensures Pow2(34) <= ERROR_LIMIT
  {
    SubPow();
    Pow2Values();
    CodeAdjoint(v, 0);
    BucketIndexIsIndex(v);
    BucketValueIsLower(BucketIndex(v));
    IndexInterval(SUB_BITS, NUM_BUCKETS, v);
    LastBucket();
    Adjoint(SUB_BITS, v, NUM_BUCKETS);
    Adjoint(SUB_BITS, v, NUM_BUCKETS - 1);
    RelativeError(SUB_BITS, v);
  }
}
