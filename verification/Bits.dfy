/** The unsigned machine operations the histogram uses, on naturals. */
module Bits {

  function Pow2(k: nat): (p: nat)
    ensures p >= 1
  {
    if k == 0 then 1 else 2 * Pow2(k - 1)
  }

  /** 2^64, the modulus of uint64. */
  const WORD: nat := 18_446_744_073_709_551_616

  type Word = x: nat | x < WORD

  /** bits.Len64: the number of bits needed for v. */
  function Len(v: nat): nat {
    if v == 0 then 0 else 1 + Len(v / 2)
  }

  function Quotient(v: nat, m: nat): nat
    requires m > 0
  {
    v / m
  }

  function Shr(v: nat, k: nat): nat {
    Quotient(v, Pow2(k))
  }

  /** What is left of a number in a 64-bit word. */
  function Truncated(v: nat): nat {
    v % WORD
  }

  lemma NothingTruncated(v: nat)
    requires v < WORD
    ensures Truncated(v) == v
  {
  }

  /** Shift left in a 64-bit word. */
  function Shl64(v: nat, k: nat): nat {
    Truncated(v * Pow2(k))
  }

  function And(a: nat, b: nat): nat {
    if a == 0 || b == 0 then 0
    else 2 * And(a / 2, b / 2) + (if a % 2 == 1 && b % 2 == 1 then 1 else 0)
  }

  function Or(a: nat, b: nat): nat {
    if a == 0 then b else if b == 0 then a
    else 2 * Or(a / 2, b / 2) + (if a % 2 == 1 || b % 2 == 1 then 1 else 0)
  }

  /** v has its top bit at position Len(v) - 1. */
  lemma {:induction false} LenBounds(v: nat)
    requires v > 0
    ensures Len(v) >= 1 && Pow2(Len(v) - 1) <= v < Pow2(Len(v))
  {
    if v > 1 {
      LenBounds(v / 2);
    } else {
      assert Len(1) == 1 + Len(0);
      assert Pow2(1) == 2 * Pow2(0);
    }
  }

  lemma {:induction false} Pow2Add(a: nat, b: nat)
    ensures Pow2(a + b) == Pow2(a) * Pow2(b)
  {
    if a > 0 {
      Pow2Add(a - 1, b);
      assert 2 * (Pow2(a - 1) * Pow2(b)) == (2 * Pow2(a - 1)) * Pow2(b);
    }
  }

  lemma {:induction false} Pow2Mono(a: nat, b: nat)
    requires a <= b
    ensures Pow2(a) <= Pow2(b)
  {
    if a < b {
      Pow2Mono(a, b - 1);
    }
  }

  lemma DivExact(v: nat, m: nat)
    requires m > 0
    ensures (v / m) * m <= v < (v / m + 1) * m
  {
    assert (v / m + 1) * m == (v / m) * m + m;
  }

  lemma DivBounds(v: nat, m: nat, lo: nat, hi: nat)
    requires m > 0 && lo * m <= v < hi * m
    ensures lo <= v / m < hi
  {
    DivExact(v, m);
    if v / m < lo {
      MulMono(m, v / m + 1, lo);
    }
    if v / m >= hi {
      MulMono(m, hi, v / m);
    }
  }

  lemma ModUnique(v: nat, m: nat, q: nat, r: nat)
    requires m > 0 && r < m && v == m * q + r
    ensures v % m == r && v / m == q
  {
    assert v / m == q by {
      assert (q + 1) * m == m * q + m;
      DivBounds(v, m, q, q + 1);
    }
    assert v == m * (v / m) + v % m;
  }

  lemma MulMono(m: nat, a: nat, b: nat)
    requires a <= b
    ensures m * a <= m * b && a * m <= b * m
  {
    assert m * b - m * a == m * (b - a);
  }

  lemma AndOdd(a: nat, b: nat, h: nat, r: nat, mask: nat)
    requires a == 2 * h + r && b == 2 * mask + 1
    ensures And(a, b) == 2 * And(h + r / 2, mask) + r % 2
  {
    assert a / 2 == h + r / 2 && a % 2 == r % 2;
    assert b / 2 == mask && b % 2 == 1;
  }

  lemma Pow2Double(x: nat, k: nat)
    requires k > 0
    ensures Pow2(k) == 2 * Pow2(k - 1) && x * Pow2(k) == 2 * (x * Pow2(k - 1))
  {
  }

  lemma {:induction false} AndLow(q: nat, k: nat, r: nat)
    requires r < Pow2(k)
    ensures And(q * Pow2(k) + r, Pow2(k) - 1) == r
  {
    if k > 0 {
      var half := q * Pow2(k - 1);
      Pow2Double(q, k);
      AndOdd(q * Pow2(k) + r, Pow2(k) - 1, half, r, Pow2(k - 1) - 1);
      AndLow(q, k - 1, r / 2);
    }
  }

  lemma QuotientRemainder(v: nat, m: nat) returns (q: nat, r: nat)
    requires m > 0
    ensures v == q * m + r && r < m && r == v % m
  {
    q, r := v / m, v % m;
  }

  /** Masking with 2^k - 1 is the remainder. */
  lemma AndMask(v: nat, k: nat)
    ensures And(v, Pow2(k) - 1) == v % Pow2(k)
  {
    var q, r := QuotientRemainder(v, Pow2(k));
    AndLow(q, k, r);
  }

  /** Or with bits below the shift is addition. */
  lemma {:induction false} OrDisjoint(x: nat, k: nat, m: nat)
    requires m < Pow2(k)
    ensures Or(x * Pow2(k), m) == x * Pow2(k) + m
  {
    if k > 0 {
      var half := x * Pow2(k - 1);
      Pow2Double(x, k);
      OrDisjoint(x, k - 1, m / 2);
    }
  }
}
