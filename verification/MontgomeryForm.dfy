/** Montgomery form for any odd modulus: what the rows of the multiplication accumulate, and what the
    results stand for. */
module MontgomeryForm {
  import opened Common
  import opened Modular

  /** Whether two numbers have the same residue. */
  ghost predicate Congruent(a: int, b: int, q: nat)
    requires q > 0
  {
    (a - b) % q == 0
  }

  // ---------------------------------------------------------------------------------------------
  // Rows of the multiplication

  lemma Spread(y: int, xs: int, x: int, p: int)
    ensures y * (xs + x * p) == y * xs + x * y * p
  {
    assert y * (xs + x * p) == y * xs + y * (x * p);
    Swap(x, y, p);
    MulAssoc(x, y, p);
  }

  /** What the accumulator holds after some rows, over the limbs of `y` seen so far. */
  ghost predicate Accumulates(t: nat, p: nat, x: nat, y: nat, acc: nat, q: nat) {
    t < 2 * q && t * p == x * y + acc * q
  }

  lemma StartAccumulates(x: nat, p: nat, q: nat)
    requires q > 0
    ensures Accumulates(0, p, x, 0, 0, q)
  {
  }

  /** Before its lowest limb is dropped, the accumulator is below one modulus more than a limb's worth. */
  lemma RowSumBounds(t: nat, x: nat, y: nat, b: nat, q: nat)
    requires t < 2 * q && x < q && y < b
    ensures t + y * x < (b + 1) * q
  {
    MulLe(y, b - 1, x);
    MulLe(x, q - 1, b - 1);
    assert (b - 1) * (q - 1) == b * q - b - q + 1;
    assert (b + 1) * q == b * q + q;
  }

  /** A row keeps the accumulator below twice the modulus. */
  lemma RowBounds(t: nat, x: nat, y: nat, m: nat, after: nat, b: nat, q: nat)
    requires t < 2 * q && x < q && y < b && m < b
    requires after * b == t + y * x + m * q
    ensures after < 2 * q
  {
    RowSumBounds(t, x, y, b, q);
    MulLe(m, b - 1, q);
    assert (b + 1) * q + (b - 1) * q == 2 * q * b;
    if after >= 2 * q {
      MulLe(2 * q, after, b);
    }
  }

  lemma RowAccumulates(t: nat, p: nat, x: nat, ys: nat, acc: nat, y: nat, m: nat, after: nat, b: nat, q: nat)
    requires Accumulates(t, p, x, ys, acc, q) && x < q && y < b && m < b
    requires after * b == t + y * x + m * q
    ensures Accumulates(after, b * p, x, ys + y * p, acc + m * p, q)
  {
    RowBounds(t, x, y, m, after, b, q);
    RowIdentity(t, p, x, ys, acc, y, m, after, b, q);
  }

  lemma RowIdentity(t: nat, p: nat, x: nat, ys: nat, acc: nat, y: nat, m: nat, after: nat, b: nat, q: nat)
    requires t * p == x * ys + acc * q && after * b == t + y * x + m * q
    ensures after * (b * p) == x * (ys + y * p) + (acc + m * p) * q
  {
    MulAssoc(after, b, p);
    assert (t + y * x + m * q) * p == t * p + y * x * p + m * q * p;
    Spread(x, ys, y, p);
    assert m * q * p == m * p * q by { MulAssoc(m, q, p); MulAssoc(m, p, q); }
    assert (acc + m * p) * q == acc * q + m * p * q;
  }

  lemma SumIsSmall(t: nat, p: nat, x: nat, ys: nat, acc: nat, y: nat, b: nat, q: nat)
    requires Accumulates(t, p, x, ys, acc, q) && x < q && y < b
    ensures t + y * x < (b + 1) * q
  {
    RowSumBounds(t, x, y, b, q);
  }

  lemma Accumulated(t: nat, p: nat, x: nat, y: nat, acc: nat, q: nat)
    requires Accumulates(t, p, x, y, acc, q)
    ensures t < 2 * q && t * p == x * y + acc * q
  {
  }

  /** One subtraction of the modulus at the end changes no residue. */
  lemma SubtractionIsCongruent(t: nat, z: nat, x: nat, y: nat, acc: nat, r: nat, q: nat)
    requires q > 0 && t * r == x * y + acc * q && (z == t || z == t - q)
    ensures Congruent(z * r, x * y, q)
  {
    var k := if z == t then acc else acc - r;
    assert z * r == t * r - (if z == t then 0 else r * q);
    assert z * r - x * y == k * q;
    Multiple(z * r - x * y, k, q);
  }

  // ---------------------------------------------------------------------------------------------
  // What a raw value stands for

  /** `i` undoes a factor of `r`. */
  predicate Undoes(r: nat, i: nat, q: nat) {
    q > 0 && r * i % q == 1
  }

  /** The residue a raw value stands for. */
  function ValueOf(a: nat, i: nat, q: nat): (v: nat)
    requires q > 0
    ensures v < q
  {
    a * i % q
  }

  lemma CancelsR(a: int, r: nat, i: nat, q: nat)
    requires Undoes(r, i, q)
    ensures a * r * i % q == a % q
  {
    MulAssoc(a, r, i);
    ModFactor(r * i, a, q);
    assert (r * i) * a == a * (r * i);
  }

  /** What a raw value congruent to `v` over R stands for. */
  lemma StandsFor(a: nat, v: int, r: nat, i: nat, q: nat)
    requires Undoes(r, i, q) && Congruent(a * r, v, q)
    ensures ValueOf(a, i, q) == v * i * i % q
  {
    ModEqual(a * r, v, q);
    CancelsR(a, r, i, q);
    ModFactor(a * r * i, i, q);
    ModFactor(a, i, q);
    ModFactor(a * r, i, q);
    ModFactor(v, i, q);
    ModFactor(v * i, i, q);
  }

  lemma ProductStandsFor(x: nat, y: nat, z: nat, r: nat, i: nat, q: nat)
    requires Undoes(r, i, q) && Congruent(z * r, x * y, q)
    ensures ValueOf(z, i, q) == ValueOf(x, i, q) * ValueOf(y, i, q) % q
  {
    StandsFor(z, x * y, r, i, q);
    ModFactors(x * i, y * i, q);
    Regroup(x, y, i);
  }

  lemma Regroup(a: int, b: int, i: int)
    ensures a * b * i * i == (a * i) * (b * i)
  {
    MulAssoc(a, b, i);
    assert a * (b * i) * i == a * ((b * i) * i) by { MulAssoc(a, b * i, i); }
    assert (b * i) * i == i * (b * i);
    MulAssoc(a, i, b * i);
  }

  lemma SumStandsFor(x: nat, y: nat, z: nat, i: nat, q: nat)
    requires q > 0 && z == (x + y) % q
    ensures ValueOf(z, i, q) == (ValueOf(x, i, q) + ValueOf(y, i, q)) % q
  {
    ModFactor(x + y, i, q);
    assert (x + y) * i == x * i + y * i;
    ModSum(x * i, y * i, q);
  }

  /** A raw value is determined by what it stands for. */
  lemma RawFromValue(a: nat, r: nat, i: nat, q: nat)
    requires Undoes(r, i, q) && a < q
    ensures a == ValueOf(a, i, q) * r % q
  {
    ModFactor(a * i, r, q);
    assert a * i * r == a * r * i by { MulAssoc(a, i, r); MulAssoc(a, r, i); assert i * r == r * i; }
    CancelsR(a, r, i, q);
    QuotientIs(a, q, 0, a);
  }

  /** Multiplying by the square of R brings a value into Montgomery form. */
  lemma IntoForm(v: nat, a: nat, square: nat, r: nat, i: nat, q: nat)
    requires Undoes(r, i, q) && v < q && square == r * r % q && Congruent(a * r, v * square, q)
    ensures ValueOf(a, i, q) == v
  {
    StandsFor(a, v * square, r, i, q);
    ModFactor(r * r, v * i * i, q);
    Gathered(v, square, i);
    Interleave(v, r, i);
    CancelsR(v * r * i, r, i, q);
    CancelsR(v, r, i, q);
    QuotientIs(v, q, 0, v);
  }

  lemma Gathered(v: int, s: int, i: int)
    ensures v * s * i * i == s * (v * i * i)
  {
    MulAssoc(s, v * i, i);
    MulAssoc(s, v, i);
    assert v * s == s * v;
  }

  lemma Interleave(v: int, r: int, i: int)
    ensures r * r * (v * i * i) == v * r * i * r * i
  {
    var ri := r * i;
    assert v * r * i == v * ri by { MulAssoc(v, r, i); }
    assert v * ri * r * i == v * ri * ri by { MulAssoc(v * ri, r, i); }
    assert v * i * i == v * (i * i) by { MulAssoc(v, i, i); }
    assert ri * ri == r * r * (i * i) by { ProductSquared(r, i); }
    assert v * ri * ri == v * (ri * ri) by { MulAssoc(v, ri, ri); }
    Swap(r * r, v, i * i);
  }

  lemma ProductSquared(k: int, m: int)
    ensures (k * m) * (k * m) == k * k * (m * m)
  {
    MulAssoc(k, m, k * m);
    Swap(k, m, m);
    MulAssoc(k, k, m * m);
  }

  /** Multiplying by one brings it out again. */
  lemma OutOfForm(a: nat, z: nat, r: nat, i: nat, q: nat)
    requires Undoes(r, i, q) && z < q && Congruent(z * r, a, q)
    ensures z == ValueOf(a, i, q)
  {
    ModEqual(z * r, a, q);
    CancelsR(z, r, i, q);
    ModFactor(z * r, i, q);
    ModFactor(a, i, q);
    QuotientIs(z, q, 0, z);
  }
}
