/** Bucket and key names (internal/r2/naming.go) and why they never collide. */
module Naming {
  import opened Text

  // ---- decimal formatting ----

  function Digit(d: nat): char
    requires d < 10
  {
    '0' + d as char
  }

  predicate IsDigit(c: char) {
    '0' <= c <= '9'
  }

  /** %d of a natural number. */
  function Decimal(n: nat): (s: string)
    ensures s != [] && forall i | 0 <= i < |s| :: IsDigit(s[i])
  {
    if n < 10 then [Digit(n)] else Decimal(n / 10) + [Digit(n % 10)]
  }

  function Zeros(n: nat): (s: string)
    ensures |s| == n && forall i | 0 <= i < n :: s[i] == '0'
  {
    seq(n, _ => '0')
  }

  /** %0wd of a natural number: padded to at least w digits, never cut. */
  function Padded(n: nat, w: nat): (s: string)
    ensures |s| >= w && forall i | 0 <= i < |s| :: IsDigit(s[i])
  {
    var d := Decimal(n);
    if |d| >= w then d else Zeros(w - |d|) + d
  }

  /** Value of a string of digits. */
  function Value(s: string): nat
    requires forall i | 0 <= i < |s| :: IsDigit(s[i])
  {
    if s == [] then 0
    else
      assert IsDigit(s[|s| - 1]);
      10 * Value(s[..|s| - 1]) + (s[|s| - 1] - '0') as nat
  }

  lemma {:induction false} ValueOfDecimal(n: nat)
    ensures Value(Decimal(n)) == n
  {
    var d := Decimal(n);
    if n >= 10 {
      ValueOfDecimal(n / 10);
      assert d[..|d| - 1] == Decimal(n / 10);
    } else {
      assert d[..|d| - 1] == [];
    }
  }

  lemma {:induction false} LeadingZeros(k: nat, s: string)
    requires forall i | 0 <= i < |s| :: IsDigit(s[i])
    ensures Value(Zeros(k) + s) == Value(s)
  {
    var z := Zeros(k) + s;
    if s != [] {
      assert z[..|z| - 1] == Zeros(k) + s[..|s| - 1];
      LeadingZeros(k, s[..|s| - 1]);
    } else if k > 0 {
      assert z[..|z| - 1] == Zeros(k - 1) + [];
      LeadingZeros(k - 1, []);
    } else {
      assert z == [];
    }
  }

  /** Padding loses nothing: the digits still spell the number. */
  lemma ValueOfPadded(n: nat, w: nat)
    ensures Value(Padded(n, w)) == n
  {
    var d := Decimal(n);
    ValueOfDecimal(n);
    if |d| < w {
      LeadingZeros(w - |d|, d);
    }
  }

  // ---- the naming scheme ----

  datatype Layout = Layout(bucketPrefix: string, keyPrefix: string, keyspace: nat) {
    function BucketName(i: nat): string {
      bucketPrefix + Padded(i, 2)
    }

    function ObjectKey(i: nat): string {
      keyPrefix + Padded(i, 8)
    }

    function SentinelKey(): string {
      keyPrefix + "_seed_complete"
    }

    function SentinelBody(objectSize: nat): string {
      "keyspace=" + Line(Decimal(keyspace),
        "object_size=" + Line(Decimal(objectSize),
          "key_prefix=" + keyPrefix + "\n"))
    }
  }

  // ---- keys in order ----

  predicate Digits(s: string) {
    forall i | 0 <= i < |s| :: IsDigit(s[i])
  }

  /** a comes before b: they agree up to a place where a has the smaller character. */
  ghost predicate Before(a: string, b: string) {
    exists m :: DiffersAt(a, b, m) && a[m] < b[m]
  }

  predicate DiffersAt(a: string, b: string, m: int) {
    0 <= m < |a| && m < |b| && a[..m] == b[..m]
  }

  lemma LastDigit(s: string)
    requires Digits(s) && s != []
    ensures Digits(s[..|s| - 1]) && IsDigit(s[|s| - 1])
    ensures Value(s) == 10 * Value(s[..|s| - 1]) + (s[|s| - 1] - '0') as nat
  {
  }

  lemma {:induction false} SameValue(a: string, b: string)
    requires Digits(a) && Digits(b) && |a| == |b| && Value(a) == Value(b)
    ensures a == b
    decreases |a|
  {
    if a != [] {
      LastDigit(a);
      LastDigit(b);
      SameValue(a[..|a| - 1], b[..|b| - 1]);
      assert a == a[..|a| - 1] + [a[|a| - 1]] && b == b[..|b| - 1] + [b[|b| - 1]];
    }
  }

  /** Digit strings of one length are ordered as their numbers. */
  lemma {:induction false} ValueBefore(a: string, b: string)
    requires Digits(a) && Digits(b) && |a| == |b| && Value(a) < Value(b)
    ensures Before(a, b)
    decreases |a|
  {
    var n := |a| - 1;
    LastDigit(a);
    LastDigit(b);
    var x, y := a[..n], b[..n];
    if Value(x) < Value(y) {
      ValueBefore(x, y);
      var m :| DiffersAt(x, y, m) && x[m] < y[m];
      assert a[..m] == x[..m] && b[..m] == y[..m];
      assert DiffersAt(a, b, m) && a[m] < b[m];
    } else {
      SameValue(x, y);
      assert DiffersAt(a, b, n);
    }
  }

  function Pow10(w: nat): nat {
    if w == 0 then 1 else 10 * Pow10(w - 1)
  }

  lemma {:induction false} DecimalLength(n: nat, w: nat)
    requires w > 0 && n < Pow10(w)
    ensures |Decimal(n)| <= w
    decreases w
  {
    if n >= 10 {
      DecimalLength(n / 10, w - 1);
    }
  }

  lemma PaddedBefore(i: nat, k: nat, w: nat)
    requires w > 0 && i < k < Pow10(w)
    ensures |Padded(i, w)| == |Padded(k, w)| == w && Before(Padded(i, w), Padded(k, w))
  {
    DecimalLength(i, w);
    DecimalLength(k, w);
    ValueOfPadded(i, w);
    ValueOfPadded(k, w);
    ValueBefore(Padded(i, w), Padded(k, w));
  }

  lemma PrefixedBefore(p: string, a: string, b: string)
    requires Before(a, b)
    ensures Before(p + a, p + b)
  {
    var m :| DiffersAt(a, b, m) && a[m] < b[m];
    assert (p + a)[..|p| + m] == p + a[..m] && (p + b)[..|p| + m] == p + b[..m];
    assert DiffersAt(p + a, p + b, |p| + m);
  }

  lemma Powers()
    ensures Pow10(8) == 100_000_000 && Pow10(2) == 100
  {
    assert Pow10(4) == 10_000;
  }

  /** Up to eight digits (two for buckets), names have one length and sort as their indices. */
  lemma NamesInOrder(n: Layout, i: nat, k: nat)
    requires i < k
    ensures k < 100_000_000 ==>
      |n.ObjectKey(i)| == |n.ObjectKey(k)| == |n.keyPrefix| + 8 && Before(n.ObjectKey(i), n.ObjectKey(k))
    ensures k < 100 ==>
      |n.BucketName(i)| == |n.BucketName(k)| == |n.bucketPrefix| + 2 && Before(n.BucketName(i), n.BucketName(k))
  {
    Powers();
    if k < 100_000_000 {
      PaddedBefore(i, k, 8);
      PrefixedBefore(n.keyPrefix, Padded(i, 8), Padded(k, 8));
    }
    if k < 100 {
      PaddedBefore(i, k, 2);
      PrefixedBefore(n.bucketPrefix, Padded(i, 2), Padded(k, 2));
    }
  }

  // ---- no two names collide ----

  lemma ObjectKeyInjective(n: Layout, i: nat, k: nat)
    requires n.ObjectKey(i) == n.ObjectKey(k)
    ensures i == k
  {
    PrefixCancels(n.keyPrefix, Padded(i, 8), Padded(k, 8));
    ValueOfPadded(i, 8);
    ValueOfPadded(k, 8);
  }

  lemma BucketNameInjective(n: Layout, i: nat, k: nat)
    requires n.BucketName(i) == n.BucketName(k)
    ensures i == k
  {
    PrefixCancels(n.bucketPrefix, Padded(i, 2), Padded(k, 2));
    ValueOfPadded(i, 2);
    ValueOfPadded(k, 2);
  }

  /** No object key of any layout is the sentinel of any layout: it ends in a digit. */
  lemma SentinelIsNoObject(n: Layout, m: Layout, i: nat)
    ensures n.ObjectKey(i) != m.SentinelKey()
  {
    var o, s := n.ObjectKey(i), m.SentinelKey();
    var p := Padded(i, 8);
    assert o[|o| - 1] == p[|p| - 1];
    assert IsDigit(p[|p| - 1]);
    assert s[|s| - 1] == 'e';
  }

  lemma SentinelKeyInjective(n: Layout, m: Layout)
    requires n.SentinelKey() == m.SentinelKey()
    ensures n.keyPrefix == m.keyPrefix
  {
    var s, t := n.SentinelKey(), m.SentinelKey();
    assert |n.keyPrefix| == |m.keyPrefix|;
    assert s[..|n.keyPrefix|] == n.keyPrefix && t[..|m.keyPrefix|] == m.keyPrefix;
  }

  lemma DecimalInjective(a: nat, b: nat)
    requires Decimal(a) == Decimal(b)
    ensures a == b
  {
    ValueOfDecimal(a);
    ValueOfDecimal(b);
  }

  lemma SuffixCancels(a: string, b: string, z: string)
    requires a + z == b + z
    ensures a == b
  {
    assert |a| == |b|;
    assert (a + z)[..|a|] == a && (b + z)[..|b|] == b;
  }

  /** One labelled number line. */
  lemma NumberLine(tag: string, a: nat, x: string, b: nat, y: string)
    requires tag + Line(Decimal(a), x) == tag + Line(Decimal(b), y)
    ensures a == b && x == y
  {
    LabelledInjective(tag, Decimal(a), x, Decimal(b), y);
    DecimalInjective(a, b);
  }

  /** A sentinel body tells keyspace, object size and key prefix apart. */
  lemma SentinelBodyInjective(n: Layout, size1: nat, m: Layout, size2: nat)
    requires n.SentinelBody(size1) == m.SentinelBody(size2)
    ensures n.keyspace == m.keyspace && size1 == size2 && n.keyPrefix == m.keyPrefix
  {
    var x1, x2 := "key_prefix=" + n.keyPrefix + "\n", "key_prefix=" + m.keyPrefix + "\n";
    var y1, y2 := "object_size=" + Line(Decimal(size1), x1), "object_size=" + Line(Decimal(size2), x2);
    NumberLine("keyspace=", n.keyspace, y1, m.keyspace, y2);
    NumberLine("object_size=", size1, x1, size2, x2);
    SuffixCancels("key_prefix=" + n.keyPrefix, "key_prefix=" + m.keyPrefix, "\n");
    PrefixCancels("key_prefix=", n.keyPrefix, m.keyPrefix);
  }
}
