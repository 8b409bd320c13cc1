/** Arithmetic in the scalar field on 64-bit limbs, in Montgomery form. */
module Montgomery {
  import opened Common
  import opened Digits
  import opened Modular
  import opened MontgomeryForm

  const B: nat := 0x1_0000_0000_0000_0000

  type Limb = x: nat | x < B

  /** Four little-endian limbs. */
  type Element = s: seq<Limb> | |s| == 4 witness [0, 0, 0, 0]

  const Q: nat := 0x30644e72e131a029b85045b68181585d2833e84879b9709143e1f593f0000001
  const R: nat := 0x1_0000000000000000_0000000000000000_0000000000000000_0000000000000000

  const MODULUS: Element := [0x43e1f593f0000001, 0x2833e84879b97091, 0xb85045b68181585d, 0x30644e72e131a029]

  lemma Constants()
    ensures Val(MODULUS, B) == Q && Pow(B, 4) == R && 4 * Q < R
  {
    var m: seq<nat> := MODULUS;
    assert Pow(B, 1) == B * Pow(B, 0);
    assert Pow(B, 2) == B * Pow(B, 1);
    assert Pow(B, 3) == B * Pow(B, 2);
    assert m[..4] == m && m[..4][..3] == m[..3] && m[..3][..2] == m[..2] && m[..2][..1] == m[..1] && m[..1][..0] == [];
    assert Val(m[..0], B) == 0;
    assert Val(m[..1], B) == m[0] * Pow(B, 0);
    assert Val(m[..2], B) == Val(m[..1], B) + m[1] * Pow(B, 1);
    assert Val(m[..3], B) == Val(m[..2], B) + m[2] * Pow(B, 2);
    assert Val(m[..4], B) == Val(m[..3], B) + m[3] * Pow(B, 3);
  }

  // ---------------------------------------------------------------------------------------------
  // The machine's word operations

  function Add64(x: Limb, y: Limb, carry: nat): (r: (Limb, nat))
    requires carry <= 1
    ensures r.1 * B + r.0 == x + y + carry && r.1 <= 1
  {
    var sum := x + y + carry;
    (sum % B, sum / B)
  }

  function Sub64(x: Limb, y: Limb, borrow: nat): (r: (Limb, nat))
    requires borrow <= 1
    ensures r.0 - r.1 * B == x - y - borrow && r.1 <= 1
  {
    var diff := x - y - borrow;
    (diff % B, if diff < 0 then 1 else 0)
  }

  function Mul64(x: Limb, y: Limb): (r: (Limb, Limb))
    ensures r.0 * B + r.1 == x * y
  {
    ProductFits(x, y, B);
    ((x * y) / B, (x * y) % B)
  }

  lemma ProductFits(x: nat, y: nat, b: nat)
    requires x < b && y < b
    ensures x * y <= (b - 1) * (b - 1) && (x * y) / b < b
  {
    MulLe(x, b - 1, y);
    MulLe(y, b - 1, b - 1);
    SquareBelow(b);
    QuotientBelow(x * y, b, b);
  }

  lemma SquareBelow(b: nat)
    requires b > 0
    ensures (b - 1) * (b - 1) < b * b
  {
  }

  lemma QuotientBelow(n: nat, b: nat, c: nat)
    requires b > 0 && n < c * b
    ensures n / b < c
  {
    var k, r := n / b, n % b;
    assert n == k * b + r;
    if k >= c {
      MulLe(c, k, b);
    }
  }

  function WrappingAdd(x: nat, y: nat): (sum: Limb)
    ensures x + y < B ==> sum == x + y
  {
    (x + y) % B
  }

  /** High and low words of `a * b + c + d`, which never overflow. */
  method Madd(a: Limb, b: Limb, c: Limb, d: Limb) returns (hi: Limb, lo: Limb)
    ensures hi * B + lo == a * b + c + d
  {
    var product := Mul64(a, b);
    var carry;
    hi, lo := product.0, product.1;
    ProductFits(a, b, B);
    var low := Add64(lo, c, 0);
    lo, carry := low.0, low.1;
    hi := WrappingAdd(hi, carry);
    low := Add64(lo, d, 0);
    lo, carry := low.0, low.1;
    hi := WrappingAdd(hi, carry);
  }

  /** The value of the limbs. */
  function Raw(e: Element): nat {
    Val(e, B)
  }

  // ---------------------------------------------------------------------------------------------
  // The conditional subtraction

  /** Compares from the top limb down; equal values are not below. */
  method LessThanQ(z: array<Limb>) returns (less: bool)
    requires z.Length == 4
    ensures less <==> Raw(z[..]) < Q
  {
    Constants();
    var i := 4;
    while i > 0
      invariant 0 <= i <= 4
      invariant forall k :: i <= k < 4 ==> z[k] == MODULUS[k]
    {
      i := i - 1;
      if z[i] != MODULUS[i] {
        less := z[i] < MODULUS[i];
        Decided(z[..], MODULUS, i);
        Decided(MODULUS, z[..], i);
        return;
      }
    }
    assert z[..] == MODULUS;
    return false;
  }

  lemma {:induction false} SameTop(s: seq<nat>, t: seq<nat>, k: nat, b: nat)
    requires |s| == |t| && k <= |s| && forall i :: k <= i < |s| ==> s[i] == t[i]
    ensures Val(s, b) - Val(s[..k], b) == Val(t, b) - Val(t[..k], b)
  {
    if k < |s| {
      var n := |s| - 1;
      SameTop(s[..n], t[..n], k, b);
      assert s[..n][..k] == s[..k] && t[..n][..k] == t[..k];
    } else {
      assert s[..k] == s && t[..k] == t;
    }
  }

  /** The topmost limbs that differ decide. */
  lemma Decided(s: Element, t: Element, i: nat)
    requires i < 4 && forall k :: i < k < 4 ==> s[k] == t[k]
    ensures s[i] < t[i] ==> Raw(s) < Raw(t)
  {
    if s[i] < t[i] {
      SameTop(s, t, i + 1, B);
      ValBelow(s[..i], B);
      ValBelow(t[..i], B);
      assert s[..i + 1][..i] == s[..i] && t[..i + 1][..i] == t[..i];
      TopDecides(Val(s[..i], B), Val(t[..i], B), s[i], t[i], Pow(B, i));
    }
  }

  lemma FourLimbs(e: Element)
    ensures Raw(e) == e[0] as int + e[1] as int * 0x1_0000000000000000 + e[2] as int * 0x1_0000000000000000_0000000000000000
                      + e[3] as int * 0x1_0000000000000000_0000000000000000_0000000000000000
    ensures Raw(e) < R
  {
    Constants();
    ValBelow(e, B);
    var s: seq<nat> := e;
    assert Pow(B, 1) == B * Pow(B, 0);
    assert Pow(B, 2) == B * Pow(B, 1);
    assert Pow(B, 3) == B * Pow(B, 2);
    assert s[..4] == s && s[..4][..3] == s[..3] && s[..3][..2] == s[..2] && s[..2][..1] == s[..1] && s[..1][..0] == [];
    assert Val(s[..0], B) == 0;
    assert Val(s[..1], B) == s[0] * Pow(B, 0);
    assert Val(s[..2], B) == Val(s[..1], B) + s[1] * Pow(B, 1);
    assert Val(s[..3], B) == Val(s[..2], B) + s[2] * Pow(B, 2);
    assert Val(s[..4], B) == Val(s[..3], B) + s[3] * Pow(B, 3);
  }

  method SubQ(z: array<Limb>)
    requires z.Length == 4
    modifies z
    ensures Raw(z[..]) == if old(Raw(z[..])) < Q then old(Raw(z[..])) - Q + R else old(Raw(z[..])) - Q
  {
    FourLimbs(z[..]);
    FourLimbs(MODULUS);
    Constants();
    var d := Sub64(z[0], MODULUS[0], 0);
    z[0] := d.0;
    d := Sub64(z[1], MODULUS[1], d.1);
    z[1] := d.0;
    d := Sub64(z[2], MODULUS[2], d.1);
    z[2] := d.0;
    d := Sub64(z[3], MODULUS[3], d.1);
    z[3] := d.0;
    FourLimbs(z[..]);
  }

  /** The sum of two elements, whose limbs never carry out of the top. */
  method Add(x: Element, y: Element) returns (z: Element)
    requires Raw(x) < Q && Raw(y) < Q
    ensures Canonical(z) && (Raw(z) == Raw(x) + Raw(y) || Raw(z) == Raw(x) + Raw(y) - Q)
    ensures Standard(z) == (Standard(x) + Standard(y)) % Q
  {
    var w := AddLimbs(x, y);
    var less := LessThanQ(w);
    SumInRange(Raw(x), Raw(y), Q);
    if !less {
      SubQ(w);
    }
    z := w[..];
    SumStandsFor(Raw(x), Raw(y), Raw(z), R_INVERSE, Q);
  }

  lemma SumInRange(x: nat, y: nat, q: nat)
    requires x < q && y < q
    ensures (x + y) % q == if x + y < q then x + y else x + y - q
  {
    if x + y < q {
      QuotientIs(x + y, q, 0, x + y);
    } else {
      QuotientIs(x + y, q, 1, x + y - q);
    }
  }

  method AddLimbs(x: Element, y: Element) returns (z: array<Limb>)
    requires Raw(x) < Q && Raw(y) < Q
    ensures fresh(z) && z.Length == 4 && Raw(z[..]) == Raw(x) + Raw(y)
  {
    z := new Limb[4](_ => 0);
    var s := Add64(x[0], y[0], 0);
    z[0] := s.0;
    s := Add64(x[1], y[1], s.1);
    z[1] := s.0;
    s := Add64(x[2], y[2], s.1);
    z[2] := s.0;
    s := Add64(x[3], y[3], s.1);
    z[3] := s.0;
    FourLimbs(x);
    FourLimbs(y);
    Constants();
    FourLimbs(z[..]);
  }

  // ---------------------------------------------------------------------------------------------
  // Multiplication

  /** One limb of a row: what a step of the accumulation adds to the value so far. */
  lemma RowStep(done: int, before: int, xs: int, y: int, c: int, p: int, b: int, hi: int, lo: int, x: int, t: int)
    requires done + c * p == before + y * xs
    requires hi * b + lo == x * y + t + c
    ensures (done + lo * p) + hi * (b * p) == (before + t * p) + y * (xs + x * p)
  {
    assert lo * p + hi * (b * p) == (hi * b + lo) * p by { Collect(lo, hi, b, p); }
    assert (x * y + t + c) * p == x * y * p + t * p + c * p;
    assert y * (xs + x * p) == y * xs + x * y * p by { Spread(y, xs, x, p); }
  }

  lemma Collect(lo: int, hi: int, b: int, p: int)
    ensures lo * p + hi * (b * p) == (hi * b + lo) * p
  {
    MulAssoc(hi, b, p);
    assert (hi * b + lo) * p == hi * b * p + lo * p;
  }

  /** Adds `x * y` to the accumulator, into its sixth limb. */
  method AddRow(t: array<Limb>, x: array<Limb>, y: Limb)
    requires t.Length == 6 && x.Length == 4 && t != x
    modifies t
    ensures Val(t[..], B) == Val(old(t[..5]), B) + y * Raw(x[..])
  {
    Nothing();
    hide Val;
    ghost var was: seq<nat> := t[..];
    ghost var xs: seq<nat> := x[..];
    var c: Limb := 0;
    assert t[..0] == [] && was[..0] == [] && xs[..0] == [];
    for j := 0 to 4
      invariant Val(t[..j], B) + c * Pow(B, j) == Val(was[..j], B) + y * Val(xs[..j], B)
      invariant forall k :: j <= k < 6 ==> t[k] == was[k]
    {
      ghost var before: seq<nat> := t[..];
      ghost var carry := c;
      var hi, lo := Madd(x[j], y, t[j], c);
      c, t[j] := hi, lo;
      assert t[..j + 1] == before[..j] + [lo as nat];
      assert was[..j + 1] == was[..j] + [was[j]] && xs[..j + 1] == xs[..j] + [xs[j]];
      ValSnoc(before[..j], lo, B);
      ValSnoc(was[..j], was[j], B);
      ValSnoc(xs[..j], xs[j], B);
      RowStep(Val(before[..j], B), Val(was[..j], B), Val(xs[..j], B), y, carry, Pow(B, j), B, hi, lo, xs[j], was[j]);
    }
    ghost var low: seq<nat> := t[..4];
    var s := Add64(t[4], c, 0);
    t[4], t[5] := s.0, s.1;
    assert t[..] == low + [t[4] as nat] + [t[5] as nat];
    assert was[..5] == was[..4] + [was[4]];
    ValSnoc(low, t[4], B);
    ValSnoc(low + [t[4] as nat], t[5], B);
    ValSnoc(was[..4], was[4], B);
    assert xs[..4] == xs;
    assert old(t[..5]) == was[..5];
    TopCarry(Pow(B, 4), B, t[4], t[5], was[4], c);
  }

  lemma Nothing()
    ensures Val([], B) == 0 && forall y: int :: y * Val([], B) == 0
  {
  }

  lemma TopCarry(p: int, b: int, lo: int, hi: int, t: int, c: int)
    requires hi * b + lo == t + c
    ensures lo * p + hi * (b * p) == t * p + c * p
  {
    Collect(lo, hi, b, p);
    assert (t + c) * p == t * p + c * p;
  }

  /** The negated inverse of the lowest limb of the modulus. */
  const Q_INV_NEG: Limb := 0xc2e1f593efffffff

  lemma NegatedInverse()
    ensures (MODULUS[0] as nat * Q_INV_NEG as nat + 1) % B == 0
  {
  }

  /** The multiple of the modulus that clears the lowest limb. */
  lemma ClearsLow(t: nat, k: nat, q: nat, b: nat)
    requires b > 0 && (q * k + 1) % b == 0
    ensures ((t * k) % b * q + t) % b == 0
  {
    var a, e, m := (t * k) / b, (q * k + 1) / b, (t * k) % b;
    assert t * k == a * b + m && q * k + 1 == e * b;
    assert m * q + t == t * k * q - a * b * q + t by { assert m == t * k - a * b; }
    assert t * k * q + t == t * (q * k + 1) by { MulAssoc(t, k, q); }
    assert t * (e * b) == (t * e) * b && a * b * q == (a * q) * b by { MulAssoc(t, e, b); Swap(a, b, q); MulAssoc(a, b, q); MulAssoc(a, q, b); }
    assert m * q + t == (t * e - a * q) * b;
    Multiple(m * q + t, t * e - a * q, b);
  }

  lemma LowIsZero(hi: nat, lo: nat, b: nat, n: nat)
    requires hi * b + lo == n && lo < b && n % b == 0
    ensures lo == 0
  {
    QuotientIs(n, b, hi, lo);
  }

  /** Adds the multiple of the modulus that clears the lowest limb, and drops that limb. */
  method ReduceRow(t: array<Limb>) returns (ghost m: nat)
    requires t.Length == 6 && t[5] < B - 1
    modifies t
    ensures m < B && Val(t[..5], B) * B == Val(old(t[..]), B) + m * Q
  {
    ghost var was: seq<nat> := t[..];
    var f: Limb := (t[0] as nat * Q_INV_NEG as nat) % B;
    m := f;
    var c := ShiftDown(t, f);
    ghost var low3: seq<nat> := t[..3];
    var s := Add64(t[4], c, 0);
    t[3] := s.0;
    t[4] := WrappingAdd(t[5], s.1);
    assert t[..5] == low3 + [t[3] as nat] + [t[4] as nat];
    ValSnoc(low3, t[3], B);
    ValSnoc(low3 + [t[3] as nat], t[4], B);
    assert was == was[..4] + [was[4]] + [was[5]];
    ValSnoc(was[..4], was[4], B);
    ValSnoc(was[..4] + [was[4]], was[5], B);
    TopLimbs(Val(low3, B), t[3], t[4], Pow(B, 3), B, was[4], was[5], c, s.1);
  }

  /** Adds a multiple of the modulus to the low limbs, whose lowest it clears, and moves the others down;
      what carries out of them is returned. */
  method ShiftDown(t: array<Limb>, m: Limb) returns (c: Limb)
    requires t.Length == 6 && m == (t[0] as nat * Q_INV_NEG as nat) % B
    modifies t
    ensures t[4] == old(t[4]) && t[5] == old(t[5])
    ensures Val(t[..3], B) * B + c * Pow(B, 4) == Val(old(t[..4]), B) + m * Q
  {
    NegatedInverse();
    Constants();
    hide Val;
    ghost var was: seq<nat> := t[..];
    ghost var qs: seq<nat> := MODULUS;
    ClearsLow(t[0], Q_INV_NEG, MODULUS[0], B);
    var lo: Limb;
    c, lo := Madd(m, MODULUS[0], t[0], 0);
    LowIsZero(c, lo, B, m * qs[0] + was[0]);
    FirstLimbs(was, qs, m, c);
    assert t[..0] == [];
    for j := 1 to 4
      invariant Val(t[..j - 1], B) * B + c * Pow(B, j) == Val(was[..j], B) + m * Val(qs[..j], B)
      invariant forall k :: j <= k < 6 ==> t[k] == was[k]
    {
      ghost var before: seq<nat> := t[..];
      ghost var carry := c;
      var hi, low := Madd(m, MODULUS[j], t[j], c);
      c, t[j - 1] := hi, low;
      assert t[..j] == before[..j - 1] + [low as nat];
      assert was[..j + 1] == was[..j] + [was[j]] && qs[..j + 1] == qs[..j] + [qs[j]];
      ValSnoc(before[..j - 1], low, B);
      ValSnoc(was[..j], was[j], B);
      ValSnoc(qs[..j], qs[j], B);
      RowStep(Val(before[..j - 1], B) * B, Val(was[..j], B), Val(qs[..j], B), m, carry, Pow(B, j), B, hi, low, qs[j], was[j]);
      Shifted(Val(before[..j - 1], B), low, Pow(B, j - 1), B);
    }
    assert qs[..4] == qs && was[..4] == old(t[..4]);
  }

  lemma FirstLimbs(was: seq<nat>, qs: seq<nat>, m: nat, c: nat)
    requires |was| == 6 && |qs| == 4 && c * B == m * qs[0] + was[0]
    ensures Val([], B) * B == 0
    ensures c * Pow(B, 1) == Val(was[..1], B) + m * Val(qs[..1], B)
  {
    assert was[..1] == [] + [was[0]] && qs[..1] == [] + [qs[0]];
    ValSnoc([], was[0], B);
    ValSnoc([], qs[0], B);
    assert Pow(B, 1) == B * Pow(B, 0);
  }

  lemma Shifted(v: int, low: int, p: int, b: int)
    ensures (v + low * p) * b == v * b + low * (b * p)
  {
    assert (v + low * p) * b == v * b + low * p * b;
    MulAssoc(low, p, b);
  }

  lemma TopLimbs(v: int, t3: int, t4: int, p3: int, b: int, w4: int, w5: int, c: int, carry: int)
    requires carry * b + t3 == w4 + c && t4 == w5 + carry
    ensures (v + t3 * p3 + t4 * (b * p3)) * b == v * b + c * (b * p3) + w4 * (b * p3) + w5 * (b * (b * p3))
  {
    var p4 := b * p3;
    assert (v + t3 * p3 + t4 * p4) * b == v * b + t3 * p4 + t4 * (b * p4) by {
      assert (v + t3 * p3 + t4 * p4) * b == (v + t3 * p3) * b + t4 * p4 * b;
      Shifted(v, t3, p3, b);
      MulAssoc(t4, p4, b);
    }
    Collect(t3, carry, b, p4);
    assert (w4 + c) * p4 == w4 * p4 + c * p4;
    assert (w5 + carry) * (b * p4) == w5 * (b * p4) + carry * (b * p4);
  }

  /** The sixth limb is never used up: a sum this small does not reach it. */
  lemma SmallSum(t: seq<nat>)
    requires |t| == 6 && Val(t, B) < (B + 1) * Q
    ensures t[5] == 0
  {
    Constants();
    ValSnoc(t[..5], t[5], B);
    assert t == t[..5] + [t[5]];
    assert Pow(B, 5) == B * Pow(B, 4);
    AtLeastOne(t[5], Pow(B, 5));
  }

  lemma SmallAccumulator(t: seq<nat>)
    requires |t| == 5 && Val(t, B) < 2 * Q
    ensures t[4] == 0 && Val(t, B) == Val(t[..4], B)
  {
    Constants();
    ValSnoc(t[..4], t[4], B);
    assert t == t[..4] + [t[4]];
    AtLeastOne(t[4], Pow(B, 4));
  }

  lemma AtLeastOne(k: nat, p: nat)
    ensures k > 0 ==> k * p >= p
  {
  }

  /** The rows of the multiplication: adds `x` times each limb of `y`, and drops a limb after each. */
  method Rows(t: array<Limb>, x: array<Limb>, y: array<Limb>) returns (ghost acc: nat)
    requires t.Length == 6 && x.Length == 4 && y.Length == 4 && t != x && t != y && Raw(x[..]) < Q
    requires forall k :: 0 <= k < 6 ==> t[k] == 0
    modifies t
    ensures Val(t[..5], B) < 2 * Q && Val(t[..5], B) * R == Raw(x[..]) * Raw(y[..]) + acc * Q
  {
    ghost var xs: seq<nat>, ys: seq<nat> := x[..], y[..];
    acc := 0;
    ZeroVal(t[..5], B);
    Constants();
    Nothing();
    assert ys[..0] == [] && ys[..4] == ys;
    hide Val;
    StartAccumulates(Val(xs, B), Pow(B, 0), Q);
    hide Accumulates;
    for i := 0 to 4
      invariant x[..] == xs && y[..] == ys
      invariant Accumulates(Val(t[..5], B), Pow(B, i), Val(xs, B), Val(ys[..i], B), acc, Q)
    {
      ghost var before, p := Val(t[..5], B), Pow(B, i);
      AddRow(t, x, y[i]);
      ghost var sum: nat := Val(t[..], B);
      SumIsSmall(before, p, Val(xs, B), Val(ys[..i], B), acc, ys[i], B, Q);
      SmallSum(t[..]);
      ghost var m := ReduceRow(t);
      RowAccumulates(before, p, Val(xs, B), Val(ys[..i], B), acc, ys[i], m, Val(t[..5], B), B, Q);
      assert ys[..i + 1] == ys[..i] + [ys[i]];
      ValSnoc(ys[..i], ys[i], B);
      acc := acc + m * p;
    }
    Accumulated(Val(t[..5], B), R, Val(xs, B), Val(ys, B), acc, Q);
  }

  /** Sets `z` to the product of `x` and `y` by the inverse of R: one final subtraction is enough, and no
      carry is lost on the way. `z` may be `x` or `y`. */
  method Mul(z: array<Limb>, x: array<Limb>, y: array<Limb>)
    requires z.Length == 4 && x.Length == 4 && y.Length == 4 && Raw(x[..]) < Q
    modifies z
    ensures Raw(z[..]) < Q && Congruent(Raw(z[..]) * R, old(Raw(x[..])) * old(Raw(y[..])), Q)
  {
    var t := new Limb[6](_ => 0);
    ghost var acc := Rows(t, x, y);
    ghost var xs, ys := Raw(x[..]), Raw(y[..]);
    SmallAccumulator(t[..5]);
    var r := new Limb[4](_ => 0);
    r[0], r[1], r[2], r[3] := t[0], t[1], t[2], t[3];
    assert r[..] == t[..5][..4];
    ghost var total := Raw(r[..]);
    var less := LessThanQ(r);
    if t[4] != 0 || !less {
      SubQ(r);
    }
    SubtractionIsCongruent(total, Raw(r[..]), xs, ys, acc, R, Q);
    z[0], z[1], z[2], z[3] := r[0], r[1], r[2], r[3];
    assert z[..] == r[..];
  }

  lemma {:induction false} ZeroVal(t: seq<nat>, b: nat)
    requires forall i :: 0 <= i < |t| ==> t[i] == 0
    ensures Val(t, b) == 0
  {
    if t != [] {
      ZeroVal(t[..|t| - 1], b);
    }
  }

  // ---------------------------------------------------------------------------------------------
  // Field elements

  /** The inverse of R modulo the field order. */
  const R_INVERSE: nat := 0x15ebf95182c5551cc8260de4aeb85d5d090ef5a9e111ec87dc5ba0056db1194e
  const R_SQUARE: Element := [0x1bb8e645ae216da7, 0x53fe3ab1e35c59e3, 0x8c49833d53bb8085, 0x216d0b17f4e44a5]

  lemma RConstants()
    ensures Undoes(R, R_INVERSE, Q)
    ensures Raw(R_SQUARE) == R * R % Q
  {
    FourLimbs(R_SQUARE);
  }

  /** A canonical element is one whose raw value is below the field order. */
  predicate Canonical(e: Element) {
    Raw(e) < Q
  }

  /** The field value an element stands for. */
  function Standard(e: Element): nat {
    ValueOf(Raw(e), R_INVERSE, Q)
  }

  /** `Mul` is multiplication of the field. */
  method Product(x: Element, y: Element) returns (z: Element)
    requires Canonical(x)
    ensures Canonical(z) && Standard(z) == Standard(x) * Standard(y) % Q
  {
    var a := new Limb[4](k requires 0 <= k < 4 => x[k]);
    var b := new Limb[4](k requires 0 <= k < 4 => y[k]);
    assert a[..] == x && b[..] == y;
    var w := new Limb[4](_ => 0);
    Mul(w, a, b);
    z := w[..];
    RConstants();
    ProductStandsFor(Raw(x), Raw(y), Raw(z), R, R_INVERSE, Q);
  }

  /** An element is determined by its standard value: its Montgomery form is unique. */
  lemma StandardIsUnique(x: Element, y: Element)
    requires Canonical(x) && Canonical(y) && Standard(x) == Standard(y)
    ensures x == y
  {
    RConstants();
    hide Undoes, ValueOf;
    RawFromValue(Raw(x), R, R_INVERSE, Q);
    RawFromValue(Raw(y), R, R_INVERSE, Q);
    ValIsUnique(x, y, B);
  }

  // ---------------------------------------------------------------------------------------------
  // The inverse of the lowest limb

  /** A Newton step on wrapping words, without the wrapping. */
  lemma Unwrapped(q: nat, inv: nat, next: nat, b: nat) returns (z: int)
    requires b > 0 && next == inv * ((2 - q * inv % b) % b) % b
    ensures next == inv * (2 - q * inv) + z * b
  {
    var p := q * inv;
    var w := (2 - p % b) % b;
    var a1, a2, a3 := p / b, (2 - p % b) / b, inv * w / b;
    assert p == a1 * b + p % b && 2 - p % b == a2 * b + w && inv * w == a3 * b + next;
    assert w == 2 - p + (a1 - a2) * b;
    assert inv * w == inv * (2 - p) + inv * ((a1 - a2) * b);
    MulAssoc(inv, a1 - a2, b);
    z := inv * (a1 - a2) - a3;
  }

  /** It doubles the bits that are right. */
  lemma NewtonStep(q: nat, inv: nat, next: nat, m: nat, b: nat)
    requires m > 1 && b > 0 && m * m > 1 && b % (m * m) == 0 && q * inv % m == 1
    requires next == inv * ((2 - q * inv % b) % b) % b
    ensures q * next % (m * m) == 1
  {
    var z := Unwrapped(q, inv, next, b);
    var k, c, mm := q * inv / m, b / (m * m), m * m;
    assert q * inv == k * m + 1 && b == c * mm;
    NewtonSquares(q, inv, next, k, m, mm, z, c);
    QuotientIs(q * next, mm, q * z * c - k * k, 1);
  }

  lemma NewtonSquares(q: int, inv: int, next: int, k: int, m: int, mm: int, z: int, c: int)
    requires q * inv == k * m + 1 && mm == m * m && next == inv * (2 - q * inv) + z * (c * mm)
    ensures q * next == (q * z * c - k * k) * mm + 1
  {
    var e := 2 - q * inv;
    assert q * next == q * (inv * e) + q * (z * (c * mm));
    MulAssoc(q, inv, e);
    MulAssoc(q, z, c * mm);
    MulAssoc(q * z, c, mm);
    OneMinusSquare(k, m, mm);
    assert (q * z * c - k * k) * mm == q * z * c * mm - k * k * mm;
  }

  lemma OneMinusSquare(k: int, m: int, mm: int)
    requires mm == m * m
    ensures (k * m + 1) * (2 - (k * m + 1)) == 1 - k * k * mm
  {
    var e := k * m;
    assert (e + 1) * (1 - e) == 1 - e * e;
    assert e * e == k * k * mm by { ProductSquared(k, m); }
  }

  lemma OneBelowSquare(m: nat)
    requires m > 1
    ensures m * m > 1
  {
    MulLe(2, m, m);
  }

  /** The modulus reached after some Newton steps: two to the power of two to the steps. */
  function Reached(step: nat): (m: nat)
    ensures m > 1
  {
    if step == 0 then 2
    else
      OneBelowSquare(Reached(step - 1));
      Reached(step - 1) * Reached(step - 1)
  }

  lemma ReachedDivides(step: nat)
    requires step <= 5
    ensures Reached(step + 1) == Reached(step) * Reached(step) && B % Reached(step + 1) == 0
    ensures Reached(6) == B
  {
    assert Reached(1) == 4;
    assert Reached(2) == 16;
    assert Reached(3) == 256;
    assert Reached(4) == 65536;
    assert Reached(5) == 65536 * 65536;
  }

  /** Six Newton steps invert any odd limb. */
  method Invert(low: Limb) returns (inv: Limb)
    requires low % 2 == 1
    ensures (low as nat * inv as nat) % B == 1
  {
    inv := 1;
    assert (low as nat * inv as nat) == low;
    for step := 0 to 6
      invariant (low as nat * inv as nat) % Reached(step) == 1
    {
      ReachedDivides(step);
      var next: Limb := inv as nat * ((2 - (low as nat * inv as nat) % B) % B) % B;
      NewtonStep(low, inv, next, Reached(step), B);
      inv := next;
    }
    ReachedDivides(5);
  }

  /** The constant of the reduction, as the package computes it. */
  method Init() returns (qInvNeg: Limb)
    ensures qInvNeg == Q_INV_NEG
  {
    var inv := Invert(MODULUS[0]);
    qInvNeg := (-(inv as int)) % B;
    InverseOfLow();
    InverseIsUnique(MODULUS[0], inv, B - Q_INV_NEG, B);
  }

  lemma InverseOfLow()
    ensures MODULUS[0] as nat * (B - Q_INV_NEG) % B == 1
  {
  }

  lemma InverseIsUnique(q: nat, x: nat, y: nat, n: nat)
    requires x < n && y < n && q * x % n == 1 && q * y % n == 1
    ensures x == y
  {
    var j, k := q * x / n, q * y / n;
    assert q * x == j * n + 1 && q * y == k * n + 1;
    assert x * (q * y) == y * (q * x) by { Swap(x, q, y); Swap(q, x, y); Swap(y, q, x); assert x * y == y * x; }
    assert x * (k * n + 1) == x * k * n + x by { MulAssoc(x, k, n); }
    assert y * (j * n + 1) == y * j * n + y by { MulAssoc(y, j, n); }
    assert x - y == (y * j - x * k) * n;
    var d := y * j - x * k;
    if d >= 1 { MulLe(1, d, n); }
    if d <= -1 { MulLe(d, -1, n); }
  }

  // ---------------------------------------------------------------------------------------------
  // Encoding

  type Byte = x: nat | x < 256

  function Reverse(s: seq<Byte>): (r: seq<Byte>)
    ensures |r| == |s| && forall i :: 0 <= i < |s| ==> r[i] == s[|s| - 1 - i]
  {
    seq(|s|, i requires 0 <= i < |s| => s[|s| - 1 - i])
  }

  /** The number big-endian bytes stand for. */
  function BigEndian(s: seq<Byte>): nat {
    Val(Reverse(s), 256)
  }

  lemma BytesInWord()
    ensures Pow(256, 8) == B
  {
    assert Pow(256, 1) == 256 * Pow(256, 0);
    assert Pow(256, 2) == 256 * Pow(256, 1);
    assert Pow(256, 3) == 256 * Pow(256, 2);
    assert Pow(256, 4) == 256 * Pow(256, 3);
    assert Pow(256, 5) == 256 * Pow(256, 4);
    assert Pow(256, 6) == 256 * Pow(256, 5);
    assert Pow(256, 7) == 256 * Pow(256, 6);
    assert Pow(256, 8) == 256 * Pow(256, 7);
  }

  /** The word eight little-endian bytes make up. */
  function WordAt(bytes: seq<nat>, i: nat): nat
    requires 8 * i + 8 <= |bytes|
  {
    Val(bytes[8 * i..8 * i + 8], 256)
  }

  /** Words of eight bytes each make up the same number. */
  lemma {:induction false} WordsOfBytes(bytes: seq<nat>, words: seq<nat>)
    requires |bytes| == 8 * |words| && forall i :: 0 <= i < |words| ==> words[i] == WordAt(bytes, i)
    ensures Val(bytes, 256) == Val(words, B)
    decreases |words|
  {
    if words == [] {
      assert bytes == [];
    } else {
      var n := |words| - 1;
      var low, top, rest := bytes[..8 * n], bytes[8 * n..], words[..n];
      forall i | 0 <= i < n
        ensures rest[i] == WordAt(low, i)
      {
        assert low[8 * i..8 * i + 8] == bytes[8 * i..8 * i + 8];
      }
      WordsOfBytes(low, rest);
      assert bytes == low + top && top == bytes[8 * n..8 * n + 8];
      JoinWord(low, top, rest, words[n]);
      assert words == rest + [words[n]];
    }
  }

  lemma JoinWord(low: seq<nat>, top: seq<nat>, rest: seq<nat>, word: nat)
    requires Val(low, 256) == Val(rest, B) && |low| == 8 * |rest| && word == Val(top, 256)
    ensures Val(low + top, 256) == Val(rest + [word], B)
  {
    BytesInWord();
    hide Val, Pow;
    ValConcat(low, top, 256);
    PowPow(256, 8, |rest|);
    ValSnoc(rest, word, B);
  }

  datatype NonCanonical = NonCanonical

  /** Gathers the limbs of big-endian bytes. */
  method Gather(b: seq<Byte>) returns (e: array<Limb>)
    requires |b| == 32
    ensures fresh(e) && e.Length == 4 && Raw(e[..]) == BigEndian(b)
  {
    ghost var bytes: seq<nat> := Reverse(b);
    e := new Limb[4](_ => 0);
    for i := 0 to 4
      invariant forall k :: 0 <= k < i ==> e[k] == WordAt(bytes, k)
    {
      e[i] := GatherWord(b, i);
    }
    WordsOfBytes(bytes, e[..]);
  }

  method GatherWord(b: seq<Byte>, i: nat) returns (word: Limb)
    requires |b| == 32 && i < 4
    ensures word == WordAt(Reverse(b), i)
  {
    ghost var reversed := Reverse(b);
    ghost var bytes: seq<nat> := reversed[8 * i..8 * i + 8];
    assert AreDigits(bytes, 256) by {
      forall k | 0 <= k < |bytes|
        ensures bytes[k] < 256
      {
        assert bytes[k] == reversed[8 * i + k];
      }
    }
    Nothing256();
    hide Val;
    word := 0;
    assert bytes[..0] == [] && bytes[..8] == bytes;
    for j := 0 to 8
      invariant word == Val(bytes[..j], 256)
    {
      assert bytes[..j + 1] == bytes[..j] + [bytes[j]];
      assert bytes[j] == b[31 - 8 * i - j];
      ValSnoc(bytes[..j], bytes[j], 256);
      assert AreDigits(bytes[..j + 1], 256);
      WordFits(bytes[..j + 1]);
      word := word as nat + b[31 - 8 * i - j] as nat * Pow(256, j);
    }
  }

  lemma Nothing256()
    ensures Val([], 256) == 0
  {
  }

  lemma {:induction false} PowGrows(b: nat, m: nat, n: nat)
    requires b > 0 && m <= n
    ensures Pow(b, m) <= Pow(b, n)
  {
    PowSum(b, m, n - m);
    PowPositive(b, n - m);
    PowPositive(b, m);
    MulLe(1, Pow(b, n - m), Pow(b, m));
  }

  lemma WordFits(s: seq<nat>)
    requires |s| <= 8 && AreDigits(s, 256)
    ensures Val(s, 256) < B
  {
    ValBelow(s, 256);
    PowGrows(256, |s|, 8);
    BytesInWord();
  }

  /** These bytes are the element's canonical value, big-endian. */
  predicate Encodes(b: seq<Byte>, e: Element) {
    |b| == 32 && Canonical(e) && BigEndian(b) == Standard(e)
  }

  /** Decodes exactly the values below the field order. */
  method SetBytes(b: seq<Byte>) returns (r: Result<Element, NonCanonical>)
    requires |b| == 32
    ensures r.Ok? <==> BigEndian(b) < Q
    ensures r.Ok? ==> Encodes(b, r.value)
  {
    var e := Gather(b);
    var less := LessThanQ(e);
    if !less {
      return Err(NonCanonical);
    }
    var rSquare := new Limb[4](k requires 0 <= k < 4 => R_SQUARE[k]);
    assert rSquare[..] == R_SQUARE;
    Mul(e, e, rSquare);
    RConstants();
    IntoForm(BigEndian(b), Raw(e[..]), Raw(R_SQUARE), R, R_INVERSE, Q);
    return Ok(e[..]);
  }

  /** Encodes the element as 32 big-endian bytes. */
  method Bytes(e: Element) returns (b: seq<Byte>)
    requires Canonical(e)
    ensures Encodes(b, e)
  {
    var z := new Limb[4](k requires 0 <= k < 4 => e[k]);
    assert z[..] == e;
    var one := new Limb[4](k requires 0 <= k < 4 => if k == 0 then 1 else 0);
    FourLimbs(one[..]);
    Mul(z, z, one);
    RConstants();
    OutOfForm(Raw(e), Raw(z[..]), R, R_INVERSE, Q);
    b := Scatter(z[..]);
  }

  /** The bytes of the limbs, most significant first. */
  method Scatter(e: Element) returns (b: seq<Byte>)
    ensures |b| == 32 && BigEndian(b) == Raw(e)
  {
    var out := new Byte[32](_ => 0);
    for i := 0 to 4
      invariant forall k, j :: 0 <= k < i && 0 <= j < 8 ==> out[31 - 8 * k - j] == DigitOf(e[k], j, 256)
    {
      for j := 0 to 8
        invariant forall k, l :: 0 <= k < i && 0 <= l < 8 ==> out[31 - 8 * k - l] == DigitOf(e[k], l, 256)
        invariant forall l :: 0 <= l < j ==> out[31 - 8 * i - l] == DigitOf(e[i], l, 256)
      {
        out[31 - 8 * i - j] := DigitOf(e[i], j, 256);
      }
    }
    b := out[..];
    BytesInWord();
    var bytes: seq<nat> := Reverse(b);
    forall i | 0 <= i < 4
      ensures e[i] == WordAt(bytes, i)
    {
      var word := bytes[8 * i..8 * i + 8];
      forall j | 0 <= j < 8
        ensures word[j] == DigitOf(e[i], j, 256)
      {
        assert word[j] == bytes[8 * i + j] && bytes[8 * i + j] == b[31 - 8 * i - j];
      }
      DigitsOf(e[i], word, 256);
      QuotientIs(e[i], B, 0, e[i]);
    }
    WordsOfBytes(bytes, e);
  }

  /** `SetBytes` and `Bytes` undo each other: an element has one encoding, and an encoding one element. */
  lemma OneEncoding(b: seq<Byte>, c: seq<Byte>, e: Element, f: Element)
    requires Encodes(b, e) && Encodes(c, f)
    ensures b == c <==> e == f
  {
    if b == c {
      StandardIsUnique(e, f);
    }
    if e == f {
      ValIsUnique(Reverse(b), Reverse(c), 256);
      forall i | 0 <= i < 32
        ensures b[i] == c[i]
      {
        assert Reverse(b)[31 - i] == Reverse(c)[31 - i];
      }
    }
  }
}
