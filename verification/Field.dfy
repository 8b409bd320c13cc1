/** The scalar field over unbounded integers: canonical operations, inverses and square roots. */
module Field {
  import opened Common
  import opened Modular
  import opened PrimeField
  import opened ModularRoots

  const P: nat := 21888242871839275222246405745257275088548364400416034343698204186575808495617
  const HALF: nat := (P - 1) / 2

  /** The remainder with the sign of the dividend, as the language has it. */
  function Rem(x: int, n: nat): int
    requires n > 0
  {
    if x >= 0 then x % n else -((-x) % n)
  }

  function Mod(x: int): (r: nat)
    ensures r == x % P
  {
    var r := Rem(x, P);
    RemIsMod(x, P);
    if r < 0 then r + P else r
  }

  lemma RemIsMod(x: int, n: nat)
    requires n > 0
    ensures x % n == if Rem(x, n) < 0 then Rem(x, n) + n else Rem(x, n)
  {
    if x < 0 {
      var k, r := (-x) / n, (-x) % n;
      assert -x == k * n + r;
      if r > 0 {
        assert x == (-k - 1) * n + (n - r);
        QuotientIs(x, n, -k - 1, n - r);
      } else {
        assert x == (-k) * n;
        QuotientIs(x, n, -k, 0);
      }
    }
  }

  predicate IsCanonical(x: int) {
    0 <= x < P
  }

  function Add(a: nat, b: nat): (s: nat)
    requires a < P && b < P
    ensures s == (a + b) % P
  {
    var s := a + b;
    QuotientIs(s, P, if s >= P then 1 else 0, if s >= P then s - P else s);
    if s >= P then s - P else s
  }

  function Sub(a: nat, b: nat): (d: nat)
    requires a < P && b < P
    ensures d == (a - b) % P
  {
    var d := a - b;
    QuotientIs(d, P, if d < 0 then -1 else 0, if d < 0 then d + P else d);
    if d < 0 then d + P else d
  }

  function Neg(a: nat): (n: nat)
    requires a < P
    ensures n < P && Add(a, n) == 0
  {
    if a == 0 then 0 else P - a
  }

  function Mul(a: nat, b: nat): nat {
    MulMod(a, b, P)
  }

  function Square(a: nat): nat {
    MulMod(a, a, P)
  }

  /** Whether the field is one, and 5 is no square of it. */
  ghost predicate IsField() {
    IsFieldOf(P, 5)
  }

  // ---------------------------------------------------------------------------------------------
  // Powers

  /** The power of the base; a negative exponent gives one. */
  method Pow(base: int, exponent: int) returns (result: nat)
    ensures result == Power(base, if exponent < 0 then 0 else exponent) % P
  {
    result := 1;
    var b: nat := Mod(base);
    var e := exponent;
    NoBitsLeft(1, base, P);
    if exponent >= 0 {
      PowerMod(base, exponent, P);
    }
    hide Power, MulMod;
    while e > 0
      invariant exponent < 0 ==> e == exponent && result == 1
      invariant exponent >= 0 ==> e >= 0 && MulMod(result, Power(b, e), P) == Power(base, exponent) % P
      invariant 0 <= result < P
      decreases e
    {
      BitStep(result, b, e, P);
      if e % 2 == 1 {
        result := Mul(result, b);
      }
      b := Square(b);
      e := e / 2;
    }
    NoBitsLeft(result, b, P);
  }

  // ---------------------------------------------------------------------------------------------
  // Inverses

  datatype RangeError = RangeError

  /** The canonical inverse; only zero has none. */
  method Inv(a: int) returns (r: Result<nat, RangeError>)
    ensures r.Err? <==> a % P == 0
    ensures r.Ok? ==> r.value < P && (Prime(P) ==> MulMod(a, r.value, P) == 1)
  {
    var low: int := Mod(a);
    if low == 0 {
      return Err(RangeError);
    }
    var high: int := P;
    var lm: int, hm: int := 1, 0;
    ghost var x: int, y: int := 0, 0;
    if Prime(P) {
      x, y := CoprimeTo(low, P);
    }
    StartsEuclid(a, low, P);
    hide MulMod;
    while low > 1
      invariant 0 <= low < high && 1 < high
      invariant low % P == MulMod(a, lm, P) && high % P == MulMod(a, hm, P)
      invariant Prime(P) ==> low * x + high * y == 1
      decreases low
    {
      var q := high / low;
      Remainder(high, low, q);
      EuclidStep(a, low, high, lm, hm, q, P);
      CombinationStep(low, high, x, y, q);
      lm, hm := hm - lm * q, lm;
      low, high := high - low * q, low;
      x, y := y, x + q * y;
    }
    if Prime(P) {
      EndsAtOne(low, high, x, y);
    }
    EuclidEnds(a, low, lm, P);
    r := Ok(Mod(lm));
  }

  // ---------------------------------------------------------------------------------------------
  // Square roots

  const TWO_ADICITY: nat := 28
  const ODD: nat := (P - 1) / 0x1000_0000

  lemma Halves()
    ensures ODD * Pow2(TWO_ADICITY - 1) == (P - 1) / 2 && ODD % 2 == 1
  {
    Pow2Sum(13, 14);
    Pow2Sum(7, 7);
    Pow2Sum(7, 6);
    assert Pow2(6) == 64 && Pow2(7) == 128;
  }

  /** A square root by the algorithm of Tonelli and Shanks: it always ends, what it returns is a root, and
      it returns one for every square. */
  method Sqrt(x: int) returns (root: Option<nat>)
    ensures root.Some? ==> root.value < P && MulMod(root.value, root.value, P) == x % P
    ensures IsField() ==> (root.Some? <==> IsSquare(x, P))
    ensures x % P == 0 ==> root == Some(0)
  {
    var n: nat := Mod(x);
    SquareOfResidue(x, P);
    if n == 0 {
      return Some(0);
    }
    Halves();
    hide Searching, IsFieldOf, IsSquare, MulMod, SquaredMod, Power, Pow2;
    var m: nat := TWO_ADICITY;
    var c: nat := Pow(5, ODD);
    var t: nat := Pow(n, ODD);
    var r: nat := Pow(n, (ODD + 1) / 2);
    SearchStarts(n, c, t, 5, ODD, TWO_ADICITY, P);
    RootStarts(n, r, t, ODD, P);
    while t != 1
      invariant r < P && Searching(n, c, t, m, 5, P) && MulMod(r, r, P) == MulMod(n, t, P)
      decreases m
    {
      SearchIsInRange(n, c, t, m, 5, P);
      SquaredOnce(t, 0, P);
      SquaredOnce(c, 0, P);
      var i: nat := 0;
      var t2: nat := t;
      while t2 != 1
        invariant i < m && t2 == SquaredMod(t, i, P) && forall k :: 0 <= k < i ==> SquaredMod(t, k, P) != 1
        decreases m - i
      {
        SquaredOnce(t, i, P);
        t2 := Square(t2);
        i := i + 1;
        if i == m {
          SearchFails(n, c, t, m, 5, P);
          return None;
        }
      }
      var b: nat := c;
      for j := 0 to m - i - 1
        invariant b == SquaredMod(c, j, P)
      {
        SquaredOnce(c, j, P);
        b := Square(b);
      }
      SearchAdvances(n, c, t, m, i, b, 5, P);
      RootAdvances(n, r, t, b, P);
      Reduced(r, b, P);
      m := i;
      c := Square(b);
      t := Mul(t, c);
      r := Mul(r, b);
    }
    RootFound(x, n, r, P);
    return Some(r);
  }

  predicate IsHigh(x: nat) {
    x > HALF
  }

  /** Of a number and its negation, exactly one is high, unless both are zero. */
  lemma HighOrNegated(x: nat)
    requires 0 < x < P
    ensures IsHigh(x) <==> !IsHigh(Neg(x))
  {
  }
}
