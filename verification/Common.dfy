/** Wrappers and the arithmetic of powers of two that several components share. */
module Common {

  datatype Option<+T> = None | Some(value: T)

  datatype Result<+T, +E> = Ok(value: T) | Err(error: E)

  function Min(a: int, b: int): int {
    if a < b then a else b
  }

  function Max(a: int, b: int): int {
    if a > b then a else b
  }

  function Pow2(n: nat): (p: nat)
    ensures p > 0
  {
    if n == 0 then 1 else 2 * Pow2(n - 1)
  }

  lemma {:induction false} Pow2Sum(a: nat, b: nat)
    ensures Pow2(a + b) == Pow2(a) * Pow2(b)
  {
    if b > 0 {
      Pow2Sum(a, b - 1);
      assert Pow2(a + b) == 2 * Pow2(a + (b - 1));
    }
  }

  /** `n` shifted right by `level` bits. */
  function Shr(n: nat, level: nat): nat {
    if level == 0 then n else Shr(n, level - 1) / 2
  }

  /** The bits a shift drops are worth less than one unit of the shifted value. */
  lemma {:induction false} ShrBounds(n: nat, level: nat)
    ensures Shr(n, level) * Pow2(level) <= n < (Shr(n, level) + 1) * Pow2(level)
  {
    if level > 0 {
      ShrBounds(n, level - 1);
      HalfBounds(n, Shr(n, level - 1), Pow2(level - 1));
    }
  }

  lemma HalfBounds(n: nat, q: nat, p: nat)
    requires q * p <= n < (q + 1) * p
    ensures (q / 2) * (2 * p) <= n < (q / 2 + 1) * (2 * p)
  {
    var half := q / 2;
    assert half * (2 * p) == (2 * half) * p;
    assert (half + 1) * (2 * p) == (2 * half + 2) * p;
    MulLe(2 * half, q, p);
    MulLe(q + 1, 2 * half + 2, p);
  }

  lemma Swap(x: int, y: int, z: int)
    ensures y * (x * z) == x * (y * z)
  {
  }

  lemma MulAssoc(a: int, b: int, c: int)
    ensures a * b * c == a * (b * c)
  {
  }

  lemma MulLe(a: int, b: int, p: nat)
    requires a <= b
    ensures a * p <= b * p
  {
  }

  /** The shifted value is the only one whose unit holds `n`. */
  lemma ShrIs(n: nat, level: nat, q: nat)
    requires q * Pow2(level) <= n < (q + 1) * Pow2(level)
    ensures Shr(n, level) == q
  {
    ShrBounds(n, level);
    var s, p := Shr(n, level), Pow2(level);
    if s < q {
      MulLe(s + 1, q, p);
    } else if q < s {
      MulLe(q + 1, s, p);
    }
  }

  /** A quotient is determined by any remainder in range. */
  lemma QuotientIs(n: int, d: int, q: int, r: int)
    requires d > 0 && 0 <= r < d && n == q * d + r
    ensures n / d == q && n % d == r
  {
    var k := n / d - q;
    assert n == (n / d) * d + n % d;
    assert k * d == r - n % d;
    assert k >= 1 ==> k * d >= d;
    assert k <= -1 ==> k * d <= -d;
  }
}
