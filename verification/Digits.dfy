/** Numbers as little-endian digits in any base. */
module Digits {
  import opened Common

  function Pow(b: nat, n: nat): nat {
    if n == 0 then 1 else b * Pow(b, n - 1)
  }

  function Val(s: seq<nat>, b: nat): nat {
    if s == [] then 0 else Val(s[..|s| - 1], b) + s[|s| - 1] * Pow(b, |s| - 1)
  }

  predicate AreDigits(s: seq<nat>, b: nat) {
    forall i :: 0 <= i < |s| ==> s[i] < b
  }

  lemma ValSnoc(s: seq<nat>, x: nat, b: nat)
    ensures Val(s + [x], b) == Val(s, b) + x * Pow(b, |s|)
  {
    assert (s + [x])[..|s|] == s;
  }

  lemma {:induction false} PowPositive(b: nat, n: nat)
    requires b > 0
    ensures Pow(b, n) > 0
  {
    if n > 0 {
      PowPositive(b, n - 1);
      assert b * Pow(b, n - 1) >= 1 by { MulLe(1, b, Pow(b, n - 1)); }
    }
  }

  lemma {:induction false} PowSum(b: nat, m: nat, n: nat)
    ensures Pow(b, m + n) == Pow(b, m) * Pow(b, n)
  {
    if n > 0 {
      PowSum(b, m, n - 1);
      Swap(Pow(b, m), b, Pow(b, n - 1));
    } else {
      assert Pow(b, m) * 1 == Pow(b, m);
    }
  }

  lemma {:induction false} PowPow(b: nat, m: nat, n: nat)
    ensures Pow(Pow(b, m), n) == Pow(b, m * n)
  {
    if n > 0 {
      PowPow(b, m, n - 1);
      PowSum(b, m, m * (n - 1));
      assert m + m * (n - 1) == m * n;
    }
  }

  lemma {:induction false} ValBelow(s: seq<nat>, b: nat)
    requires AreDigits(s, b)
    ensures Val(s, b) < Pow(b, |s|)
  {
    if s != [] {
      var rest, last := s[..|s| - 1], s[|s| - 1];
      ValBelow(rest, b);
      DigitBelow(Val(rest, b), last, b, Pow(b, |rest|));
    }
  }

  lemma DigitBelow(low: nat, x: nat, b: nat, p: nat)
    requires low < p && x < b
    ensures low + x * p < b * p
  {
    MulLe(x + 1, b, p);
  }

  /** A more significant digit outweighs all below it. */
  lemma TopDecides(low: nat, low': nat, x: nat, y: nat, p: nat)
    requires low < p && low' < p && x < y
    ensures low + x * p < low' + y * p
  {
    MulLe(x + 1, y, p);
  }

  /** The digits below a base are the number's only ones. */
  lemma {:induction false} ValIsUnique(s: seq<nat>, t: seq<nat>, b: nat)
    requires |s| == |t| && Val(s, b) == Val(t, b)
    requires AreDigits(s, b) && AreDigits(t, b)
    ensures s == t
  {
    if s != [] {
      var n := |s| - 1;
      ValBelow(s[..n], b);
      ValBelow(t[..n], b);
      if s[n] < t[n] {
        TopDecides(Val(s[..n], b), Val(t[..n], b), s[n], t[n], Pow(b, n));
      } else if t[n] < s[n] {
        TopDecides(Val(t[..n], b), Val(s[..n], b), t[n], s[n], Pow(b, n));
      }
      ValIsUnique(s[..n], t[..n], b);
      assert s == s[..n] + [s[n]] && t == t[..n] + [t[n]];
    }
  }

  lemma {:induction false} ValConcat(s: seq<nat>, t: seq<nat>, b: nat)
    ensures Val(s + t, b) == Val(s, b) + Pow(b, |s|) * Val(t, b)
  {
    if t == [] {
      assert s + t == s;
      assert Pow(b, |s|) * 0 == 0;
    } else {
      var rest, x := t[..|t| - 1], t[|t| - 1];
      ValConcat(s, rest, b);
      assert s + t == (s + rest) + [x];
      ValSnoc(s + rest, x, b);
      PowSum(b, |s|, |rest|);
      Distribute(Pow(b, |s|), Val(rest, b), x, Pow(b, |rest|));
    }
  }

  lemma Distribute(p: int, v: int, x: int, r: int)
    ensures p * v + x * (p * r) == p * (v + x * r)
  {
    assert p * (v + x * r) == p * v + p * (x * r);
    Swap(x, p, r);
  }

  /** The digit of a number some places up. */
  function DigitOf(w: nat, j: nat, b: nat): (d: nat)
    requires b > 0
    ensures d < b
  {
    PowPositive(b, j);
    w / Pow(b, j) % b
  }

  lemma {:induction false} DigitsOf(w: nat, s: seq<nat>, b: nat)
    requires b > 0 && forall j :: 0 <= j < |s| ==> s[j] == DigitOf(w, j, b)
    ensures Pow(b, |s|) > 0 && Val(s, b) == w % Pow(b, |s|)
  {
    PowPositive(b, |s|);
    if s != [] {
      var n := |s| - 1;
      DigitsOf(w, s[..n], b);
      DigitOn(w, Pow(b, n), b);
    }
  }

  lemma DigitOn(w: nat, p: nat, b: nat)
    requires p > 0 && b > 0 && b * p > 0
    ensures w % (b * p) == w % p + (w / p % b) * p
  {
    var k, low := w / p, w % p;
    var j, d := k / b, k % b;
    assert w == k * p + low && k == j * b + d;
    assert (j * b + d) * p == j * (b * p) + d * p by { MulAssoc(j, b, p); }
    DigitBelow(low, d, b, p);
    QuotientIs(w, b * p, j, low + d * p);
  }
}
