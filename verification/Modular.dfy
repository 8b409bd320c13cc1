/** Congruence, as equality of remainders. */
module Modular {
  import opened Common

  lemma Multiple(a: int, k: int, n: int)
    requires n > 0 && a == k * n
    ensures a % n == 0
  {
    QuotientIs(a, n, k, 0);
  }

  lemma ModEqual(a: int, b: int, n: nat)
    requires n > 0
    ensures (a - b) % n == 0 <==> a % n == b % n
  {
    var i, j, k := a / n, b / n, (a - b) / n;
    assert a == i * n + a % n && b == j * n + b % n && a - b == k * n + (a - b) % n;
    if (a - b) % n == 0 {
      assert a == (j + k) * n + b % n;
      QuotientIs(a, n, j + k, b % n);
    }
    if a % n == b % n {
      assert a - b == (i - j) * n;
      QuotientIs(a - b, n, i - j, 0);
    }
  }

  /** Reducing a factor changes no product. */
  lemma ModFactor(a: int, b: int, n: nat)
    requires n > 0
    ensures (a % n) * b % n == a * b % n
  {
    var k := a / n;
    assert a == k * n + a % n;
    assert a * b - (a % n) * b == (k * b) * n by { assert (a - a % n) * b == k * n * b; MulAssoc(k, n, b); Swap(k, b, n); MulAssoc(k, b, n); }
    Multiple(a * b - (a % n) * b, k * b, n);
    ModEqual(a * b, (a % n) * b, n);
  }

  lemma ModFactors(a: int, b: int, n: nat)
    requires n > 0
    ensures (a % n) * (b % n) % n == a * b % n
  {
    ModFactor(a, b % n, n);
    ModFactor(b, a, n);
  }

  lemma ModSum(a: int, b: int, n: nat)
    requires n > 0
    ensures (a % n + b % n) % n == (a + b) % n
  {
    var i, j := a / n, b / n;
    assert a == i * n + a % n && b == j * n + b % n;
    assert a + b - (a % n + b % n) == (i + j) * n;
    Multiple(a + b - (a % n + b % n), i + j, n);
    ModEqual(a + b, a % n + b % n, n);
  }

  lemma Negated(x: int, n: nat)
    requires n > 0 && x % n == 0
    ensures (-x) % n == 0
  {
    Multiple(-x, -(x / n), n);
  }
}
