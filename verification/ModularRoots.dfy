/** Powers, inverses and square roots modulo any number, as the field's loops compute them. */
module ModularRoots {
  import opened Common
  import opened Modular
  import opened PrimeField

  function MulMod(a: int, b: int, p: nat): (r: nat)
    requires p > 0
    ensures r < p
  {
    a * b % p
  }

  lemma SameFactor(a: int, v: int, w: int, n: nat)
    requires n > 0 && v % n == w % n
    ensures a * v % n == a * w % n
  {
    ModFactors(a, v, n);
    ModFactors(a, w, n);
  }

  // ---------------------------------------------------------------------------------------------
  // Powers

  lemma NoBitsLeft(r: nat, b: int, p: nat)
    requires r < p
    ensures MulMod(r, Power(b, 0), p) == r
  {
    QuotientIs(r, p, 0, r);
  }

  /** One bit of the exponent. */
  lemma BitStep(r: nat, b: nat, e: nat, p: nat)
    requires e > 0 && p > 0
    ensures MulMod(if e % 2 == 1 then MulMod(r, b, p) else r, Power(MulMod(b, b, p), e / 2), p) == MulMod(r, Power(b, e), p)
  {
    var h := e / 2;
    var w, v := Power(b * b, h), Power(b * b % p, h);
    PowerMod(b * b, h, p);
    assert Power(b, 2) == b * b by { assert Power(b, 1) == b * Power(b, 0); }
    PowerPower(b, 2, h);
    if e % 2 == 1 {
      assert e == 1 + 2 * h;
      PowerSum(b, 1, 2 * h);
      assert Power(b, 1) == b * Power(b, 0);
      MulAssoc(r, b, w);
      ModFactor(r * b, v, p);
      SameFactor(r * b, v, w, p);
    } else {
      assert e == 2 * h;
      SameFactor(r, v, w, p);
    }
  }

  // ---------------------------------------------------------------------------------------------
  // Inverses

  lemma StartsEuclid(a: int, low: int, p: nat)
    requires p > 0 && low == a % p
    ensures low % p == MulMod(a, 1, p) && p % p == MulMod(a, 0, p)
  {
    SameResidue(a, p);
    QuotientIs(p, p, 1, 0);
    QuotientIs(0, p, 0, 0);
  }

  lemma CoprimeTo(low: nat, p: nat) returns (x: int, y: int)
    requires Prime(p) && 0 < low < p
    ensures low * x + p * y == 1
  {
    var g;
    x, y, g := Bezout(low, p);
    DivisorBelow(low, g);
    OnlyDivisor(p, g);
  }

  lemma Remainder(high: int, low: int, q: int)
    requires low > 0 && q == high / low
    ensures 0 <= high - low * q < low
  {
    assert high == q * low + high % low;
    assert q * low == low * q;
  }

  lemma EuclidStep(a: int, low: int, high: int, lm: int, hm: int, q: int, p: nat)
    requires p > 0 && low % p == MulMod(a, lm, p) && high % p == MulMod(a, hm, p)
    ensures (high - low * q) % p == MulMod(a, hm - lm * q, p)
  {
    ModEqual(low, a * lm, p);
    ModEqual(high, a * hm, p);
    var i, j := (low - a * lm) / p, (high - a * hm) / p;
    Differences(a, low, high, lm, hm, q, i, j, p);
    Multiple(high - low * q - a * (hm - lm * q), j - i * q, p);
    ModEqual(high - low * q, a * (hm - lm * q), p);
  }

  lemma Differences(a: int, low: int, high: int, lm: int, hm: int, q: int, i: int, j: int, n: int)
    requires low == a * lm + i * n && high == a * hm + j * n
    ensures high - low * q - a * (hm - lm * q) == (j - i * q) * n
  {
    assert low * q == a * lm * q + i * n * q;
    assert a * (hm - lm * q) == a * hm - a * (lm * q);
    MulAssoc(a, lm, q);
    assert i * n * q == i * q * n by { MulAssoc(i, n, q); MulAssoc(i, q, n); assert n * q == q * n; }
  }

  lemma CombinationStep(low: int, high: int, x: int, y: int, q: int)
    ensures (high - low * q) * y + low * (x + q * y) == low * x + high * y
  {
    assert (high - low * q) * y == high * y - low * q * y;
    MulAssoc(low, q, y);
    assert low * (x + q * y) == low * x + low * (q * y);
  }

  lemma EndsAtOne(low: int, high: int, x: int, y: int)
    requires 0 <= low <= 1 && high > 1 && low * x + high * y == 1
    ensures low == 1
  {
    if low == 0 {
      assert high * y == 1;
      if y >= 1 { MulLe(1, y, high); }
      if y <= 0 { MulLe(y, 0, high); }
    }
  }

  /** The multiplier of one is an inverse, reduced or not. */
  lemma EuclidEnds(a: int, low: int, lm: int, p: nat)
    requires p > 1 && low % p == MulMod(a, lm, p)
    ensures low == 1 ==> MulMod(a, lm % p, p) == 1
  {
    QuotientIs(1, p, 0, 1);
    ModFactor(lm, a, p);
    assert lm * a == a * lm && (lm % p) * a == a * (lm % p);
  }

  // ---------------------------------------------------------------------------------------------
  // Square roots

  /** Whether the modulus is an odd prime, and `a` is no square modulo it. */
  ghost predicate IsFieldOf(p: nat, a: nat) {
    p > 2 && Prime(p) && a < p && !IsSquare(a, p)
  }

  /** A value squared some number of times. */
  function SquaredMod(x: nat, times: nat, p: nat): nat
    requires p > 0
  {
    if times == 0 then x
    else
      var y := SquaredMod(x, times - 1, p);
      MulMod(y, y, p)
  }

  lemma SquaredOnce(x: nat, times: nat, p: nat)
    requires p > 0
    ensures SquaredMod(x, 0, p) == x
    ensures SquaredMod(x, times + 1, p) == MulMod(SquaredMod(x, times, p), SquaredMod(x, times, p), p)
  {
  }

  lemma {:induction false} SquaredIsPower(x: int, times: nat, p: nat)
    requires p > 0
    ensures SquaredMod(x % p, times, p) == Power(x, Pow2(times)) % p
  {
    if times == 0 {
      assert Power(x, 1) == x * Power(x, 0);
    } else {
      SquaredIsPower(x, times - 1, p);
      var half := Pow2(times - 1);
      ModFactors(Power(x, half), Power(x, half), p);
      PowerSum(x, half, half);
    }
  }

  lemma {:induction false} SquaredAgain(x: nat, m: nat, n: nat, p: nat)
    requires p > 0
    ensures SquaredMod(SquaredMod(x, m, p), n, p) == SquaredMod(x, m + n, p)
  {
    if n > 0 {
      SquaredAgain(x, m, n - 1, p);
    }
  }

  lemma {:induction false} SquaredProduct(x: nat, y: nat, times: nat, p: nat)
    requires p > 0 && x < p && y < p
    ensures SquaredMod(MulMod(x, y, p), times, p) == MulMod(SquaredMod(x, times, p), SquaredMod(y, times, p), p)
  {
    if times > 0 {
      SquaredProduct(x, y, times - 1, p);
      var a, b := SquaredMod(x, times - 1, p), SquaredMod(y, times - 1, p);
      ModFactors(a * b, a * b, p);
      ModFactors(a * a, b * b, p);
      assert (a * b) * (a * b) == (a * a) * (b * b) by { MulAssoc(a, b, a * b); Swap(a, b, b); MulAssoc(a, a, b * b); }
    }
  }

  lemma SquaredBelow(x: nat, times: nat, p: nat)
    requires x < p
    ensures SquaredMod(x, times, p) < p
  {
  }

  /** The state of the search for a root: what `c` and `t` still have to be squared to, when the modulus is a
      prime with the non-square `a` and, for `t`, when the number is a square. */
  ghost predicate Searching(n: int, c: nat, t: nat, m: nat, a: nat, p: nat)
    requires p > 0
  {
    && 1 <= m && c < p && t < p
    && (IsFieldOf(p, a) ==> SquaredMod(c, m - 1, p) == p - 1)
    && (IsFieldOf(p, a) && IsSquare(n, p) ==> SquaredMod(t, m - 1, p) == 1)
  }

  lemma SearchStarts(n: nat, c: nat, t: nat, a: nat, odd: nat, twos: nat, p: nat)
    requires p > 2 && twos > 0 && odd * Pow2(twos - 1) == (p - 1) / 2
    requires 0 < n < p && c == Power(a, odd) % p && t == Power(n, odd) % p
    ensures Searching(n, c, t, twos, a, p)
  {
    OddSquared(a, odd, twos, p);
    OddSquared(n, odd, twos, p);
    hide Power, SquaredMod;
    if IsFieldOf(p, a) {
      NonSquareIsNoZero(a, p);
      QuotientIs(n, p, 0, n);
      Euler(a, p);
      if IsSquare(n, p) {
        var s: nat :| s * s % p == n % p;
        EulerOfSquare(s, n, p);
      }
    }
  }

  lemma NonSquareIsNoZero(a: nat, p: nat)
    requires p > 1 && a < p && !IsSquare(a, p)
    ensures a % p != 0
  {
    QuotientIs(a, p, 0, a);
    assert (0 as nat) * 0 % p == 0 by { QuotientIs(0, p, 0, 0); }
  }

  /** Squared all but once of the twos, the odd power of a number is its power in Euler's criterion. */
  lemma OddSquared(a: int, odd: nat, twos: nat, p: nat)
    requires p > 2 && twos > 0 && odd * Pow2(twos - 1) == (p - 1) / 2
    ensures SquaredMod(Power(a, odd) % p, twos - 1, p) == Power(a, (p - 1) / 2) % p
  {
    SquaredIsPower(Power(a, odd), twos - 1, p);
    PowerPower(a, odd, Pow2(twos - 1));
  }

  lemma SearchIsInRange(n: int, c: nat, t: nat, m: nat, a: nat, p: nat)
    requires p > 0 && Searching(n, c, t, m, a, p)
    ensures 1 <= m && c < p && t < p
  {
  }

  /** No number that is a square makes the search fail. */
  lemma SearchFails(n: int, c: nat, t: nat, m: nat, a: nat, p: nat)
    requires p > 0 && Searching(n, c, t, m, a, p) && forall k :: 0 <= k < m ==> SquaredMod(t, k, p) != 1
    ensures IsFieldOf(p, a) ==> !IsSquare(n, p)
  {
    assert SquaredMod(t, m - 1, p) != 1;
  }

  /** Multiplying by the right power of `c` brings `t` at least one squaring nearer to one. */
  lemma SearchAdvances(n: int, c: nat, t: nat, m: nat, i: nat, b: nat, a: nat, p: nat)
    requires p > 0 && Searching(n, c, t, m, a, p)
    requires 1 <= i < m && SquaredMod(t, i, p) == 1 && SquaredMod(t, i - 1, p) != 1 && b == SquaredMod(c, m - i - 1, p)
    ensures Searching(n, MulMod(b, b, p), MulMod(t, MulMod(b, b, p), p), i, a, p)
  {
    var d := MulMod(b, b, p);
    SquaredAgain(c, m - i, i - 1, p);
    SquaredProduct(t, d, i - 1, p);
    if IsFieldOf(p, a) {
      SquaredBelow(t, i - 1, p);
      MinusOne(SquaredMod(t, i - 1, p), p);
    }
  }

  /** A square root of one other than one is minus one. */
  lemma MinusOne(u: nat, p: nat)
    requires p > 2 && Prime(p) && u < p && MulMod(u, u, p) == 1 && u != 1
    ensures u == p - 1 && MulMod(u, p - 1, p) == 1
  {
    QuotientIs(1, p, 0, 1);
    RootsDifferInSign(u, 1, p);
    QuotientIs(u, p, 0, u);
    if u < p - 1 {
      QuotientIs(u + 1, p, 0, u + 1);
    }
  }

  lemma RootStarts(n: nat, r: nat, t: nat, odd: nat, p: nat)
    requires p > 0 && odd % 2 == 1 && r == Power(n, (odd + 1) / 2) % p && t == Power(n, odd) % p
    ensures MulMod(r, r, p) == MulMod(n, t, p)
  {
    var h := (odd + 1) / 2;
    ModFactors(Power(n, h), Power(n, h), p);
    PowerSum(n, h, h);
    assert Power(n, odd + 1) == n * Power(n, odd);
    SameResidue(Power(n, odd), p);
    SameFactor(n, Power(n, odd), t, p);
  }

  lemma RootAdvances(n: nat, r: nat, t: nat, b: nat, p: nat)
    requires p > 0 && MulMod(r, r, p) == MulMod(n, t, p)
    ensures MulMod(MulMod(r, b, p), MulMod(r, b, p), p) == MulMod(n, MulMod(t, MulMod(b, b, p), p), p)
  {
    var bb := b * b;
    ModFactors(r * b, r * b, p);
    assert (r * b) * (r * b) == (r * r) * bb by { MulAssoc(r, b, r * b); Swap(r, b, b); MulAssoc(r, r, bb); }
    SameFactor(bb, r * r, n * t, p);
    assert bb * (r * r) == (r * r) * bb && bb * (n * t) == n * (t * bb) by { Swap(n, bb, t); assert bb * t == t * bb; }
    SameResidue(bb, p);
    SameFactor(t, bb, bb % p, p);
    SameResidue(t * bb, p);
    SameFactor(n, t * bb, t * (bb % p) % p, p);
  }

  lemma Reduced(a: nat, b: nat, p: nat)
    requires p > 0
    ensures MulMod(a, b, p) < p
  {
  }

  lemma SquareOfResidue(x: int, p: nat)
    requires p > 0
    ensures IsSquare(x % p, p) <==> IsSquare(x, p)
    ensures x % p == 0 ==> MulMod(0, 0, p) == x % p && IsSquare(x, p)
  {
    SameResidue(x, p);
    QuotientIs(0, p, 0, 0);
    assert x % p == 0 ==> (0 as nat) * 0 % p == x % p;
  }

  lemma RootFound(x: int, n: nat, r: nat, p: nat)
    requires p > 0 && n == x % p && MulMod(r, r, p) == MulMod(n, 1, p)
    ensures MulMod(r, r, p) == x % p && IsSquare(x, p)
  {
    SameResidue(x, p);
  }
}
