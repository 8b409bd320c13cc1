/** The curve a x^2 + y^2 = 1 + d x^2 y^2 modulo any number: its equation solved for x, and which x goes
    with a y and a sign. */
module Curve {
  import opened Common
  import opened Modular
  import opened PrimeField
  import opened ModularRoots

  /** The modulus and the coefficients of a curve. */
  datatype Params = Params(p: nat, a: nat, d: nat)
  {
    predicate Valid() {
      p > 2 && a < p && d < p && a != d
    }
  }

  predicate On(c: Params, x: nat, y: nat)
    requires c.Valid()
  {
    && x < c.p && y < c.p
    && var x2, y2 := MulMod(x, x, c.p), MulMod(y, y, c.p);
       (MulMod(c.a, x2, c.p) + y2) % c.p == (1 + MulMod(MulMod(c.d, x2, c.p), y2, c.p)) % c.p
  }

  /** What multiplies x squared in the equation. */
  function Denominator(c: Params, y: nat): (r: nat)
    requires c.Valid()
    ensures r < c.p
  {
    (c.a - MulMod(c.d, MulMod(y, y, c.p), c.p)) % c.p
  }

  function Numerator(c: Params, y: nat): (r: nat)
    requires c.Valid()
    ensures r < c.p
  {
    (1 - MulMod(y, y, c.p)) % c.p
  }

  /** The equation, solved for x squared. */
  lemma SolvedForX(c: Params, x: nat, y: nat)
    requires c.Valid() && x < c.p && y < c.p
    ensures On(c, x, y) <==> MulMod(MulMod(x, x, c.p), Denominator(c, y), c.p) == Numerator(c, y)
  {
    Solved(c.a, c.d, MulMod(x, x, c.p), MulMod(y, y, c.p), c.p);
  }

  lemma Solved(a: nat, d: nat, x2: nat, y2: nat, p: nat)
    requires p > 1 && x2 < p && y2 < p
    ensures (a * x2 % p + y2) % p == (1 + (d * x2 % p) * y2 % p) % p <==> x2 * ((a - d * y2 % p) % p) % p == (1 - y2) % p
  {
    var ax, dxy := a * x2, d * x2 * y2;
    ModSum(ax, y2, p);
    QuotientIs(y2, p, 0, y2);
    QuotientIs(1, p, 0, 1);
    ModFactor(d * x2, y2, p);
    ModSum(1, dxy, p);
    ScaledDifference(a, d, x2, y2, p);
    assert (ax + y2) - (1 + dxy) == (ax - dxy) - (1 - y2);
    ModEqual(ax + y2, 1 + dxy, p);
    ModEqual(ax - dxy, 1 - y2, p);
  }

  lemma ScaledDifference(a: nat, d: nat, x2: nat, y2: nat, p: nat)
    requires p > 1
    ensures x2 * ((a - d * y2 % p) % p) % p == (a * x2 - d * x2 * y2) % p
  {
    var dy := d * y2;
    SameResidue(dy, p);
    ModEqual(dy % p, dy, p);
    Negated(dy % p - dy, p);
    assert (a - dy % p) - (a - dy) == -(dy % p - dy);
    ModEqual(a - dy % p, a - dy, p);
    ModFactors(x2, a - dy, p);
    ModFactors(x2, a - dy % p, p);
    SameResidue(a - dy % p, p);
    ModFactors(x2, (a - dy % p) % p, p);
    assert x2 * (a - dy) == a * x2 - d * x2 * y2 by { Spread(x2, a, d, y2); }
  }

  lemma Spread(x: int, a: int, d: int, y: int)
    ensures x * (a - d * y) == a * x - d * x * y
  {
    assert x * (a - d * y) == x * a - x * (d * y);
    MulAssoc(d, x, y);
    Swap(d, x, y);
  }

  /** On the curve the denominator is never zero. */
  lemma HasDenominator(c: Params, x: nat, y: nat)
    requires c.Valid() && On(c, x, y)
    ensures Denominator(c, y) != 0
  {
    SolvedForX(c, x, y);
    if Denominator(c, y) == 0 {
      ZeroTimes(MulMod(x, x, c.p), c.p);
      OnlyOne(MulMod(y, y, c.p), c.p);
      QuotientIs(c.d, c.p, 0, c.d);
      DifferenceIsNotZero(c.a, c.d, c.p);
    }
  }

  lemma ZeroTimes(x: nat, p: nat)
    requires p > 0
    ensures MulMod(x, 0, p) == 0
  {
    QuotientIs(0, p, 0, 0);
  }

  lemma OnlyOne(y2: nat, p: nat)
    requires p > 1 && y2 < p
    ensures (1 - y2) % p == 0 <==> y2 == 1
  {
    if y2 > 1 {
      QuotientIs(1 - y2, p, -1, 1 - y2 + p);
    } else {
      QuotientIs(1 - y2, p, 0, 1 - y2);
    }
  }

  lemma DifferenceIsNotZero(a: nat, d: nat, p: nat)
    requires a < p && d < p && a != d
    ensures (a - d) % p != 0
  {
    if a > d {
      QuotientIs(a - d, p, 0, a - d);
    } else {
      QuotientIs(a - d, p, -1, a - d + p);
    }
  }

  // ---------------------------------------------------------------------------------------------
  // Roots

  /** Dividing by the denominator is multiplying by its inverse: points with this y are those whose x
      squares to the quotient. */
  lemma OnIsQuotient(c: Params, x: nat, y: nat, i: nat)
    requires c.Valid() && x < c.p && y < c.p && MulMod(Denominator(c, y), i, c.p) == 1
    ensures On(c, x, y) <==> MulMod(x, x, c.p) == MulMod(Numerator(c, y), i, c.p)
  {
    SolvedForX(c, x, y);
    DivisionIs(MulMod(x, x, c.p), Denominator(c, y), i, Numerator(c, y), c.p);
  }

  lemma DivisionIs(x: nat, den: nat, i: nat, u: nat, p: nat)
    requires x < p && u < p && MulMod(den, i, p) == 1
    ensures MulMod(x, den, p) == u <==> x == MulMod(u, i, p)
  {
    QuotientIs(x, p, 0, x);
    QuotientIs(u, p, 0, u);
    Undo(x, den, i, p);
    assert i * den == den * i;
    Undo(u, i, den, p);
  }

  lemma Undo(v: nat, den: nat, i: nat, p: nat)
    requires p > 0 && MulMod(den, i, p) == 1
    ensures MulMod(MulMod(v, den, p), i, p) == v % p
  {
    ModFactor(v * den, i, p);
    MulAssoc(v, den, i);
    OneIsOwnResidue(den * i, p);
    SameFactor(v, den * i, 1, p);
  }

  lemma OneIsOwnResidue(x: int, p: nat)
    requires p > 0 && x % p == 1
    ensures 1 % p == 1
  {
    QuotientIs(1, p, 0, 1);
  }

  function NegOf(r: nat, p: nat): nat
    requires r < p
  {
    if r == 0 then 0 else p - r
  }

  lemma NegatedSquare(r: nat, p: nat)
    requires r < p
    ensures MulMod(NegOf(r, p), NegOf(r, p), p) == MulMod(r, r, p)
  {
    var n := NegOf(r, p);
    if r > 0 {
      assert n * n - r * r == (n + r) * (n - r);
      assert (n + r) * (n - r) == (n - r) * p;
      Multiple(n * n - r * r, n - r, p);
      ModEqual(n * n, r * r, p);
    }
  }

  lemma OneOfTwo(x: nat, r: nat, p: nat)
    requires Prime(p) && x < p && r < p && MulMod(x, x, p) == MulMod(r, r, p)
    ensures x == r || x == NegOf(r, p)
  {
    RootsDifferInSign(x, r, p);
    QuotientIs(x, p, 0, x);
    QuotientIs(r, p, 0, r);
    if x != r {
      if x + r < p {
        QuotientIs(x + r, p, 0, x + r);
      } else {
        QuotientIs(x + r, p, 1, x + r - p);
      }
    }
  }

  // ---------------------------------------------------------------------------------------------
  // Signs

  /** A point with this y whose x is above half the modulus, or not, as the sign says. */
  predicate Signed(c: Params, x: nat, y: nat, sign: bool)
    requires c.Valid()
  {
    On(c, x, y) && (x > (c.p - 1) / 2 <==> sign)
  }

  ghost predicate NoneSigned(c: Params, y: nat, sign: bool)
    requires c.Valid()
  {
    forall x: nat :: !Signed(c, x, y, sign)
  }

  /** Of two points with the same y and the same sign, both are the same. */
  lemma OneSigned(c: Params, x: nat, z: nat, y: nat, sign: bool)
    requires c.Valid() && Prime(c.p) && Signed(c, x, y, sign) && Signed(c, z, y, sign)
    ensures x == z
  {
    SameSquare(c, x, z, y);
    OneOfTwo(x, z, c.p);
    OddPrime(c.p);
  }

  /** Points with the same y have the same x squared. */
  lemma SameSquare(c: Params, x: nat, z: nat, y: nat)
    requires c.Valid() && Prime(c.p) && On(c, x, y) && On(c, z, y)
    ensures MulMod(x, x, c.p) == MulMod(z, z, c.p)
  {
    SolvedForX(c, x, y);
    SolvedForX(c, z, y);
    HasDenominator(c, x, y);
    Quotient(MulMod(x, x, c.p), MulMod(z, z, c.p), Denominator(c, y), c.p);
  }

  lemma Quotient(x2: nat, z2: nat, den: nat, p: nat)
    requires Prime(p) && x2 < p && z2 < p && 0 < den < p && MulMod(x2, den, p) == MulMod(z2, den, p)
    ensures x2 == z2
  {
    QuotientIs(den, p, 0, den);
    assert x2 * den == den * x2 && z2 * den == den * z2;
    Cancel(den, x2, z2, p);
    QuotientIs(x2, p, 0, x2);
    QuotientIs(z2, p, 0, z2);
  }

  /** A y without a denominator has no point. */
  lemma NoDenominator(c: Params, y: nat, sign: bool)
    requires c.Valid() && y < c.p && Denominator(c, y) == 0
    ensures NoneSigned(c, y, sign)
  {
    forall x: nat
      ensures !Signed(c, x, y, sign)
    {
      if Signed(c, x, y, sign) {
        HasDenominator(c, x, y);
      }
    }
  }

  /** A y whose quotient has no root, or only zero where the sign asks for a high one, has no point. */
  lemma NoRoot(c: Params, y: nat, sign: bool, i: nat)
    requires c.Valid() && Prime(c.p) && y < c.p && MulMod(Denominator(c, y), i, c.p) == 1
    requires !IsSquare(MulMod(Numerator(c, y), i, c.p), c.p) || (sign && MulMod(Numerator(c, y), i, c.p) == 0)
    ensures NoneSigned(c, y, sign)
  {
    forall x: nat
      ensures !Signed(c, x, y, sign)
    {
      if Signed(c, x, y, sign) {
        OnIsQuotient(c, x, y, i);
        IsRoot(x, MulMod(Numerator(c, y), i, c.p), c.p);
      }
    }
  }

  /** A root makes a square, and only zero is a root of zero. */
  lemma IsRoot(x: nat, w: nat, p: nat)
    requires Prime(p) && x < p && w == MulMod(x, x, p)
    ensures IsSquare(w, p) && (w == 0 ==> x == 0)
  {
    SameResidue(x * x, p);
    QuotientIs(x, p, 0, x);
    if w == 0 {
      PrimeDivides(x, x, p);
    }
  }

  /** Of a root and its negation, the one with the right sign is the x of the only point. */
  lemma RootDecodes(c: Params, y: nat, sign: bool, i: nat, r: nat, chosen: nat)
    requires c.Valid() && Prime(c.p) && y < c.p && r < c.p && MulMod(Denominator(c, y), i, c.p) == 1
    requires MulMod(r, r, c.p) == MulMod(Numerator(c, y), i, c.p) && !(r == 0 && sign)
    requires chosen == if (r > (c.p - 1) / 2) == sign then r else NegOf(r, c.p)
    ensures Signed(c, chosen, y, sign)
  {
    NegatedSquare(r, c.p);
    OnIsQuotient(c, chosen, y, i);
    OddPrime(c.p);
  }
}
