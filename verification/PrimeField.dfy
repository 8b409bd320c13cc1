/** What the field algorithms need of a prime modulus. */
module PrimeField {
  import opened Common
  import opened Modular

  ghost predicate Prime(p: nat) {
    p > 1 && forall d :: 1 < d < p ==> p % d != 0
  }

  lemma PrimeIsPositive(p: nat)
    requires Prime(p)
    ensures p > 1
  {
  }

  function Power(b: int, e: nat): int {
    if e == 0 then 1 else b * Power(b, e - 1)
  }

  lemma {:induction false} PowerSum(b: int, m: nat, n: nat)
    ensures Power(b, m + n) == Power(b, m) * Power(b, n)
  {
    if m > 0 {
      PowerSum(b, m - 1, n);
      MulAssoc(b, Power(b, m - 1), Power(b, n));
    }
  }

  lemma {:induction false} PowerPower(b: int, m: nat, n: nat)
    ensures Power(Power(b, m), n) == Power(b, m * n)
  {
    if n > 0 {
      PowerPower(b, m, n - 1);
      PowerSum(b, m, m * (n - 1));
      assert m + m * (n - 1) == m * n;
    }
  }

  /** Powers only depend on the residue of the base. */
  lemma {:induction false} PowerMod(b: int, e: nat, p: nat)
    requires p > 0
    ensures Power(b % p, e) % p == Power(b, e) % p
  {
    if e > 0 {
      PowerMod(b, e - 1, p);
      ModFactors(b % p, Power(b % p, e - 1), p);
      ModFactors(b, Power(b, e - 1), p);
      SameResidue(b, p);
    }
  }

  lemma SameResidue(a: int, p: nat)
    requires p > 0
    ensures a % p % p == a % p
  {
    QuotientIs(a % p, p, 0, a % p);
  }

  // ---------------------------------------------------------------------------------------------
  // Inverses

  /** Euclid's algorithm: a combination of two numbers that divides both. */
  lemma {:induction false} Bezout(a: nat, b: nat) returns (x: int, y: int, g: nat)
    requires a > 0
    ensures a * x + b * y == g && g > 0 && a % g == 0 && b % g == 0
    decreases b
  {
    if b == 0 {
      return 1, 0, a;
    }
    x, y, g := Bezout(b, a % b);
    var q := a / b;
    DividesSum(q, b, a % b, g);
    assert a == q * b + a % b;
    CombineBack(a, b, q, x, y);
    x, y := y, x - q * y;
  }

  lemma CombineBack(a: int, b: int, q: int, x: int, y: int)
    ensures b * x + (a - q * b) * y == a * y + b * (x - q * y)
  {
    assert (a - q * b) * y == a * y - q * b * y;
    assert b * (x - q * y) == b * x - b * (q * y);
    assert q * b * y == b * (q * y) by { MulAssoc(q, b, y); Swap(b, q, y); }
  }

  lemma DividesSum(q: int, b: int, r: int, g: nat)
    requires g > 0 && b % g == 0 && r % g == 0
    ensures (q * b + r) % g == 0
  {
    var j, k := b / g, r / g;
    assert b == j * g && r == k * g;
    assert q * b == (q * j) * g by { MulAssoc(q, j, g); }
    Multiple(q * b + r, q * j + k, g);
  }

  /** Modulo a prime, everything but zero has an inverse. */
  lemma Inverse(a: int, p: nat) returns (x: int)
    requires Prime(p) && a % p != 0
    ensures a * x % p == 1
  {
    var y, g;
    x, y, g := Bezout(a % p, p);
    DivisorBelow(a % p, g);
    OnlyDivisor(p, g);
    ModFactor(a, x, p);
    assert (a % p) * x - 1 == (-y) * p;
    Multiple((a % p) * x - 1, -y, p);
    ModEqual((a % p) * x, 1, p);
    QuotientIs(1, p, 0, 1);
  }

  lemma OnlyDivisor(p: nat, g: nat)
    requires Prime(p) && 0 < g < p && p % g == 0
    ensures g == 1
  {
  }

  lemma DivisorBelow(a: nat, g: nat)
    requires a > 0 && g > 0 && a % g == 0
    ensures g <= a
  {
    var k := a / g;
    assert a == k * g;
    assert k > 0;
    MulLe(1, k, g);
  }

  /** A prime that divides a product divides a factor. */
  lemma PrimeDivides(a: int, b: int, p: nat)
    requires Prime(p) && a * b % p == 0
    ensures a % p == 0 || b % p == 0
  {
    PrimeIsPositive(p);
    if a % p != 0 {
      var x := Inverse(a, p);
      hide Prime;
      InverseDivides(a, x, b, p);
    }
  }

  lemma InverseDivides(a: int, x: int, b: int, p: nat)
    requires p > 1 && a * x % p == 1 && a * b % p == 0
    ensures b % p == 0
  {
    ModFactor(a * b, x, p);
    ModFactor(a * x, b, p);
    QuotientIs(0, p, 0, 0);
    assert 1 * b == b && 0 * x == 0;
    assert a * b * x == a * x * b by { MulAssoc(a, b, x); MulAssoc(a, x, b); assert b * x == x * b; }
  }

  /** The square roots of one number differ in sign. */
  lemma RootsDifferInSign(r: int, s: int, p: nat)
    requires Prime(p) && r * r % p == s * s % p
    ensures r % p == s % p || (r + s) % p == 0
  {
    assert (r - s) * (r + s) == r * r - s * s;
    ModEqual(r * r, s * s, p);
    PrimeDivides(r - s, r + s, p);
    ModEqual(r, s, p);
  }

  /** A factor that is not zero cancels. */
  lemma Cancel(a: int, x: int, y: int, p: nat)
    requires Prime(p) && a % p != 0 && a * x % p == a * y % p
    ensures x % p == y % p
  {
    assert a * x - a * y == a * (x - y);
    ModEqual(a * x, a * y, p);
    PrimeDivides(a, x - y, p);
    ModEqual(x, y, p);
  }

  // ---------------------------------------------------------------------------------------------
  // Fermat's little theorem

  function Choose(n: nat, k: nat): nat {
    if k == 0 then 1 else if n == 0 then 0 else Choose(n - 1, k - 1) + Choose(n - 1, k)
  }

  lemma {:induction false} ChooseEdge(n: nat)
    ensures Choose(n, n) == 1 && forall k :: k > n ==> Choose(n, k) == 0
  {
    if n > 0 {
      ChooseEdge(n - 1);
    }
  }

  lemma {:induction false} Absorb(n: nat, k: nat)
    requires n > 0 && k > 0
    ensures k * Choose(n, k) == n * Choose(n - 1, k - 1)
  {
    if n == 1 {
      ChooseEdge(1);
      ChooseEdge(0);
      assert k > 1 ==> Choose(0, k - 1) == 0;
    } else if k == 1 {
      ChooseOne(n);
    } else {
      Absorb(n - 1, k);
      Absorb(n - 1, k - 1);
      AbsorbStep(n, k, Choose(n - 2, k - 2), Choose(n - 2, k - 1), Choose(n - 1, k - 1), Choose(n - 1, k));
    }
  }

  lemma AbsorbStep(n: int, k: int, a: int, b: int, c: int, d: int)
    requires c == a + b && (k - 1) * c == (n - 1) * a && k * d == (n - 1) * b
    ensures k * (c + d) == n * c
  {
    assert (n - 1) * a + (n - 1) * b == (n - 1) * (a + b);
    assert k * (c + d) == (k - 1) * c + c + k * d;
  }

  lemma {:induction false} ChooseOne(n: nat)
    ensures Choose(n, 1) == n
  {
    if n > 0 {
      ChooseOne(n - 1);
    }
  }

  lemma PrimeDividesChoose(p: nat, k: nat)
    requires Prime(p) && 0 < k < p
    ensures Choose(p, k) % p == 0
  {
    Absorb(p, k);
    Multiple(k * Choose(p, k), Choose(p - 1, k - 1), p);
    PrimeDivides(k, Choose(p, k), p);
    QuotientIs(k, p, 0, k);
  }

  /** The first `k` terms of `(a + 1)^n`. */
  function Terms(a: nat, n: nat, k: nat): nat {
    if k == 0 then 0 else Terms(a, n, k - 1) + Choose(n, k - 1) * NatPower(a, k - 1)
  }

  function NatPower(a: nat, e: nat): nat {
    if e == 0 then 1 else a * NatPower(a, e - 1)
  }

  lemma {:induction false} NatPowerIs(a: nat, e: nat)
    ensures NatPower(a, e) == Power(a, e)
  {
    if e > 0 {
      NatPowerIs(a, e - 1);
    }
  }

  lemma {:induction false} Pascal(a: nat, n: nat, k: nat)
    ensures Terms(a, n + 1, k + 1) == Terms(a, n, k + 1) + a * Terms(a, n, k)
  {
    if k > 0 {
      Pascal(a, n, k - 1);
      PascalStep(Terms(a, n, k - 1), Choose(n, k - 1), Choose(n, k), NatPower(a, k - 1), a);
    }
  }

  lemma PascalStep(t: int, c: int, d: int, w: int, a: int)
    ensures (c + d) * (a * w) == d * (a * w) + a * (c * w) && a * (t + c * w) == a * t + a * (c * w)
  {
    assert (c + d) * (a * w) == c * (a * w) + d * (a * w);
    Swap(a, c, w);
  }

  lemma {:induction false} Binomial(a: nat, n: nat)
    ensures NatPower(a + 1, n) == Terms(a, n, n + 1)
  {
    if n > 0 {
      Binomial(a, n - 1);
      Pascal(a, n - 1, n);
      ChooseEdge(n - 1);
      var t := Terms(a, n - 1, n);
      assert Terms(a, n - 1, n + 1) == t + Choose(n - 1, n) * NatPower(a, n);
      assert Choose(n - 1, n) * NatPower(a, n) == 0;
      assert (a + 1) * t == t + a * t;
    }
  }

  lemma {:induction false} MiddleVanishes(a: nat, p: nat, k: nat)
    requires Prime(p) && 1 <= k <= p
    ensures Terms(a, p, k) % p == 1
  {
    if k == 1 {
      assert Terms(a, p, 1) == Terms(a, p, 0) + Choose(p, 0) * NatPower(a, 0);
      QuotientIs(1, p, 0, 1);
    } else {
      MiddleVanishes(a, p, k - 1);
      PrimeDividesChoose(p, k - 1);
      VanishingTerm(Terms(a, p, k - 1), Choose(p, k - 1), NatPower(a, k - 1), p);
    }
  }

  lemma VanishingTerm(t: int, c: int, w: int, p: nat)
    requires p > 1 && t % p == 1 && c % p == 0
    ensures (t + c * w) % p == 1
  {
    ModFactor(c, w, p);
    ModSum(t, c * w, p);
    QuotientIs(1, p, 0, 1);
    QuotientIs(0, p, 0, 0);
  }

  lemma {:induction false} FermatNat(a: nat, p: nat)
    requires Prime(p)
    ensures NatPower(a, p) % p == a % p
  {
    if a == 0 {
      assert NatPower(0, p) == 0 * NatPower(0, p - 1);
    } else {
      FermatNat(a - 1, p);
      Binomial(a - 1, p);
      MiddleVanishes(a - 1, p, p);
      ChooseEdge(p);
      var w := NatPower(a - 1, p);
      assert Terms(a - 1, p, p + 1) == Terms(a - 1, p, p) + 1 * w;
      ModSum(Terms(a - 1, p, p), w, p);
      ModSum(1, a - 1, p);
      QuotientIs(1, p, 0, 1);
    }
  }

  /** Fermat's little theorem. */
  lemma Fermat(a: int, p: nat)
    requires Prime(p) && a % p != 0
    ensures Power(a, p - 1) % p == 1
  {
    var r := a % p;
    FermatNat(r, p);
    NatPowerIs(r, p);
    NatPowerIs(r, p - 1);
    QuotientIs(1, p, 0, 1);
    SameResidue(a, p);
    Cancel(r, Power(r, p - 1), 1, p);
    PowerMod(a, p - 1, p);
  }

  // ---------------------------------------------------------------------------------------------
  // Euler's criterion

  ghost function Product(s: set<nat>): nat {
    if s == {} then 1
    else
      var x :| x in s;
      x * Product(s - {x})
  }

  /** Any element can be taken out of a product. */
  lemma {:induction false} TakeOut(s: set<nat>, x: nat)
    requires x in s
    ensures Product(s) == x * Product(s - {x})
    decreases s
  {
    var y :| y in s && Product(s) == y * Product(s - {y});
    if y != x {
      TakeOut(s - {y}, x);
      TakeOut(s - {x}, y);
      assert s - {y} - {x} == s - {x} - {y};
      Swap(x, y, Product(s - {x} - {y}));
    }
  }

  predicate Pair(x: nat, y: nat, a: int, p: nat)
    requires p > 0
  {
    x * y % p == a % p
  }

  ghost predicate HasPartner(s: set<nat>, x: nat, a: int, p: nat)
    requires p > 0
  {
    exists y :: y in s && y != x && Pair(x, y, a, p)
  }

  ghost predicate PairsUp(s: set<nat>, a: int, p: nat)
    requires p > 0
  {
    forall x :: x in s ==> 0 < x < p && HasPartner(s, x, a, p)
  }

  /** The product of numbers that pair up to `a` is a power of `a`. */
  lemma {:induction false} PairedProduct(s: set<nat>, a: int, p: nat)
    requires Prime(p) && PairsUp(s, a, p)
    ensures |s| % 2 == 0 && Product(s) % p == Power(a, |s| / 2) % p
    decreases s
  {
    hide *;
    PrimeIsPositive(p);
    if s == {} {
      EmptyProduct(a);
    } else {
      var x :| x in s;
      var y := PartnerOf(s, x, a, p);
      var rest := s - {x} - {y};
      PairOut(s, a, p, x, y);
      PairedProduct(rest, a, p);
      TakeOut(s, x);
      TakeOut(s - {x}, y);
      OnePairMore(Product(s), Product(s - {x}), Product(rest), |rest|, x, y, a, p);
      Two(s, x, y);
    }
  }

  lemma Two(s: set<nat>, x: nat, y: nat)
    requires x in s && y in s && x != y
    ensures |s| == |s - {x} - {y}| + 2
  {
    assert |s - {x}| == |s| - 1;
  }

  lemma PartnerOf(s: set<nat>, x: nat, a: int, p: nat) returns (y: nat)
    requires p > 0 && PairsUp(s, a, p) && x in s
    ensures 0 < x < p && y in s && y != x && Pair(x, y, a, p)
  {
    assert HasPartner(s, x, a, p);
    hide PairsUp, Pair;
    y :| y in s && y != x && Pair(x, y, a, p);
  }

  lemma EmptyProduct(a: int)
    ensures Product({}) == 1 && Power(a, 0) == 1
  {
  }

  lemma OnePairMore(total: nat, most: nat, product: nat, n: nat, x: nat, y: nat, a: int, p: nat)
    requires p > 0 && n % 2 == 0 && product % p == Power(a, n / 2) % p && Pair(x, y, a, p)
    requires total == x * most && most == y * product
    ensures total % p == Power(a, (n + 2) / 2) % p
  {
    assert (n + 2) / 2 == n / 2 + 1;
    MulAssoc(x, y, product);
    ModFactors(x * y, product, p);
    ModFactors(a, Power(a, n / 2), p);
  }

  /** Taking out a pair leaves the others paired: partners are unique. */
  lemma PairOut(s: set<nat>, a: int, p: nat, x: nat, y: nat)
    requires Prime(p) && PairsUp(s, a, p) && x in s && y in s && x != y && Pair(x, y, a, p)
    ensures PairsUp(s - {x} - {y}, a, p)
  {
    hide HasPartner, Pair;
    var rest := s - {x} - {y};
    forall z | z in rest
      ensures 0 < z < p && HasPartner(rest, z, a, p)
    {
      PartnerStays(s, a, p, x, y, z);
    }
  }

  lemma PartnerStays(s: set<nat>, a: int, p: nat, x: nat, y: nat, z: nat)
    requires Prime(p) && PairsUp(s, a, p) && x in s && y in s && Pair(x, y, a, p) && z in s && z != x && z != y
    ensures HasPartner(s - {x} - {y}, z, a, p)
  {
    hide Prime, PairsUp, Pair;
    PrimeIsPositive(p);
    var x' := PartnerOf(s, x, a, p);
    var y' := PartnerOf(s, y, a, p);
    var w := PartnerOf(s, z, a, p);
    NotTaken(x, y, z, w, a, p);
    PairIsSymmetric(x, y, a, p);
    NotTaken(y, x, z, w, a, p);
    assert w in s - {x} - {y};
  }

  lemma NotTaken(x: nat, y: nat, z: nat, w: nat, a: int, p: nat)
    requires Prime(p) && 0 < x < p && 0 < y < p && 0 < z < p && z != y && Pair(x, y, a, p) && Pair(z, w, a, p)
    ensures w != x
  {
    if w == x {
      PairIsSymmetric(z, w, a, p);
      OnePartner(x, z, y, a, p);
    }
  }

  lemma PairIsSymmetric(x: nat, y: nat, a: int, p: nat)
    requires p > 0 && Pair(x, y, a, p)
    ensures Pair(y, x, a, p)
  {
    assert x * y == y * x;
  }

  lemma OnePartner(x: nat, y: nat, z: nat, a: int, p: nat)
    requires Prime(p) && 0 < x < p && y < p && z < p && Pair(x, y, a, p) && Pair(x, z, a, p)
    ensures y == z
  {
    QuotientIs(x, p, 0, x);
    QuotientIs(y, p, 0, y);
    QuotientIs(z, p, 0, z);
    Cancel(x, y, z, p);
  }

  ghost function Residues(p: nat): (s: set<nat>)
    ensures forall x :: x in s <==> 0 < x < p
  {
    if p <= 1 then {} else Residues(p - 1) + {p - 1}
  }

  lemma {:induction false} ResidueCount(p: nat)
    requires p > 0
    ensures |Residues(p)| == p - 1
  {
    if p > 1 {
      ResidueCount(p - 1);
    }
  }

  /** The partner of a number for a product that is not zero. */
  lemma Partner(x: nat, a: int, p: nat) returns (y: nat)
    requires Prime(p) && 0 < x < p && a % p != 0
    ensures 0 < y < p && Pair(x, y, a, p)
  {
    QuotientIs(x, p, 0, x);
    var i := Inverse(x, p);
    y := i * a % p;
    ModFactor(i * a, x, p);
    ModFactor(x * i, a, p);
    assert i * a * x == x * i * a by { MulAssoc(x, i, a); MulAssoc(i, a, x); Swap(x, i, a); assert a * x == x * a; }
    assert x * y == y * x;
    assert 1 * a == a;
    if y == 0 {
      assert x * y == 0;
      QuotientIs(0, p, 0, 0);
    }
  }

  /** Wilson's theorem. */
  lemma Wilson(p: nat)
    requires Prime(p) && p > 2
    ensures Product(Residues(p)) % p == p - 1
  {
    var all := Residues(p);
    var s := all - {1} - {p - 1};
    InversesPairUp(p);
    PairedProduct(s, 1, p);
    OneToAny(|s| / 2);
    TakeOut(all, 1);
    TakeOut(all - {1}, p - 1);
    hide Product;
    LastFactor(Product(s), p);
  }

  lemma LastFactor(product: nat, p: nat)
    requires p > 1 && product % p == 1 % p
    ensures 1 * ((p - 1) * product) % p == p - 1
  {
    ModFactor(product, p - 1, p);
    QuotientIs(1, p, 0, 1);
    QuotientIs(p - 1, p, 0, p - 1);
    assert (p - 1) * product == product * (p - 1);
  }

  lemma InversesPairUp(p: nat)
    requires Prime(p) && p > 2
    ensures PairsUp(Residues(p) - {1} - {p - 1}, 1, p)
  {
    var s := Residues(p) - {1} - {p - 1};
    forall x | x in s
      ensures HasPartner(s, x, 1, p)
    {
      QuotientIs(1, p, 0, 1);
      var y := Partner(x, 1, p);
      SelfInverse(x, y, p);
      assert y in s;
    }
  }

  lemma {:induction false} OneToAny(e: nat)
    ensures Power(1, e) == 1
  {
    if e > 0 {
      OneToAny(e - 1);
    }
  }

  /** Only 1 and -1 are their own inverses. */
  lemma SelfInverse(x: nat, y: nat, p: nat)
    requires Prime(p) && p > 2 && 1 < x < p - 1 && 0 < y < p && Pair(x, y, 1, p)
    ensures y != x && y != 1 && y != p - 1
  {
    QuotientIs(1, p, 0, 1);
    QuotientIs(x, p, 0, x);
    if y == x {
      RootsDifferInSign(x, 1, p);
      QuotientIs(x + 1, p, 0, x + 1);
    }
    if y == p - 1 {
      assert x * (p - 1) == (x - 1) * p + (p - x);
      QuotientIs(x * (p - 1), p, x - 1, p - x);
    }
  }

  ghost predicate IsSquare(a: int, p: nat)
    requires p > 0
  {
    exists s: nat :: s * s % p == a % p
  }

  /** Euler's criterion, for the numbers that are no squares. */
  lemma Euler(a: int, p: nat)
    requires Prime(p) && p > 2 && a % p != 0 && !IsSquare(a, p)
    ensures Power(a, (p - 1) / 2) % p == p - 1
  {
    NonSquarePairsUp(a, p);
    hide PairsUp, Prime, Power, Product;
    PairedProduct(Residues(p), a, p);
    ResidueCount(p);
    Wilson(p);
  }

  lemma NonSquarePairsUp(a: int, p: nat)
    requires Prime(p) && a % p != 0 && !IsSquare(a, p)
    ensures PairsUp(Residues(p), a, p)
  {
    forall x | x in Residues(p)
      ensures HasPartner(Residues(p), x, a, p)
    {
      var y := Partner(x, a, p);
      assert y in Residues(p) && y != x;
    }
  }

  /** And for the squares, by Fermat's theorem. */
  lemma EulerOfSquare(s: int, a: int, p: nat)
    requires Prime(p) && p > 2 && a % p != 0 && s * s % p == a % p
    ensures Power(a, (p - 1) / 2) % p == 1
  {
    OddPrime(p);
    var h := (p - 1) / 2;
    if s % p == 0 {
      ModFactor(s, s, p);
      QuotientIs(0, p, 0, 0);
    }
    Fermat(s, p);
    PowerMod(a, h, p);
    PowerMod(s * s, h, p);
    assert Power(s, 2) == s * s by { assert Power(s, 1) == s * Power(s, 0); }
    PowerPower(s, 2, h);
  }

  lemma OddPrime(p: nat)
    requires Prime(p) && p > 2
    ensures 2 * ((p - 1) / 2) == p - 1
  {
    assert p % 2 != 0;
  }
}
