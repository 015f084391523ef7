/** Sums over slots and over sequences, shared by the share, pacer and counter proofs. */
module Sums {

  predicate Distinct<T(==)>(s: seq<T>) {
    forall i, j :: 0 <= i < j < |s| ==> s[i] != s[j]
  }

  /** f(0) + ... + f(n-1) */
  function SumFirst(f: nat -> nat, n: nat): nat {
    if n == 0 then 0 else SumFirst(f, n - 1) + f(n - 1)
  }

  function SumOver(f: nat -> nat, s: seq<nat>): nat {
    if s == [] then 0 else f(s[0]) + SumOver(f, s[1..])
  }

  lemma {:induction false} SumOverSplit(f: nat -> nat, a: seq<nat>, b: seq<nat>)
    ensures SumOver(f, a + b) == SumOver(f, a) + SumOver(f, b)
  {
    if a == [] {
      assert a + b == b;
    } else {
      SumOverSplit(f, a[1..], b);
      assert (a + b)[1..] == a[1..] + b;
    }
  }

  /** s lists exactly the numbers below n. */
  ghost predicate Lists(s: seq<nat>, n: nat) {
    && Distinct(s)
    && (forall k :: k in s ==> k < n)
    && (forall k: nat :: k < n ==> k in s)
  }

  function Cut<T>(s: seq<T>, i: nat): seq<T>
    requires i < |s|
  {
    s[..i] + s[i + 1..]
  }

  lemma CutLists(s: seq<nat>, i: nat, n: nat)
    requires i < |s| && s[i] == n && Lists(s, n + 1)
    ensures Lists(Cut(s, i), n)
  {
    var rest := Cut(s, i);
    forall k | k in rest ensures k < n {
      var j :| 0 <= j < |rest| && rest[j] == k;
      assert s[if j < i then j else j + 1] == k;
      assert k in s;
    }
    forall k: nat | k < n ensures k in rest {
      assert k in s;
      var j :| 0 <= j < |s| && s[j] == k;
      assert rest[if j < i then j else j - 1] == k;
    }
  }

  lemma SplitAt<T>(s: seq<T>, i: nat)
    requires i < |s|
    ensures s == s[..i] + ([s[i]] + s[i + 1..])
  {
  }

  lemma CutSum(f: nat -> nat, s: seq<nat>, i: nat)
    requires i < |s|
    ensures SumOver(f, s) == f(s[i]) + SumOver(f, Cut(s, i))
  {
    SplitAt(s, i);
    SumOverSplit(f, s[..i], [s[i]] + s[i + 1..]);
    SumOverSplit(f, s[..i], s[i + 1..]);
  }

  lemma HeadIn(s: seq<nat>)
    ensures s == [] || s[0] in s
  {
  }

  /** A list of exactly the numbers below n, in any order, has the sum of the first n. */
  lemma {:induction false} SumInAnyOrder(f: nat -> nat, s: seq<nat>, n: nat)
    requires Lists(s, n)
    ensures SumOver(f, s) == SumFirst(f, n)
    ensures |s| == n
    decreases n
  {
    if n == 0 {
      HeadIn(s);
    } else {
      assert n - 1 in s;
      var i :| 0 <= i < |s| && s[i] == n - 1;
      CutLists(s, i, n - 1);
      SumInAnyOrder(f, Cut(s, i), n - 1);
      CutSum(f, s, i);
    }
  }
}
