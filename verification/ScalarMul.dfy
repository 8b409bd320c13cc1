/** Multiplication of a point by a scalar, four bits at a time, in any group. */
module ScalarMul {
  import opened Common
  import opened Digits

  const WINDOW: nat := 4
  const TABLE: nat := 16

  /** The curve's addition and doubling, of which only the laws below matter. */
  datatype Group<!E> = Group(zero: E, add: (E, E) -> E, double: E -> E)

  ghost predicate Lawful<E(!new)>(g: Group<E>) {
    && (forall x: E :: g.add(g.zero, x) == x && g.add(x, g.zero) == x)
    && (forall x: E, y: E, z: E :: g.add(g.add(x, y), z) == g.add(x, g.add(y, z)))
    && (forall x: E :: g.double(x) == g.add(x, x))
  }

  /** A sum of equal points. */
  function Times<E>(g: Group<E>, p: E, n: nat): E {
    if n == 0 then g.zero else g.add(Times(g, p, n - 1), p)
  }

  lemma {:induction false} TimesSum<E(!new)>(g: Group<E>, p: E, m: nat, n: nat)
    requires Lawful(g)
    ensures Times(g, p, m + n) == g.add(Times(g, p, m), Times(g, p, n))
  {
    if n > 0 {
      TimesSum(g, p, m, n - 1);
    }
  }

  /** How many binary digits a number is written with. */
  function BitLength(n: nat): (l: nat)
    ensures l >= 1
  {
    if n < 2 then 1 else 1 + BitLength(n / 2)
  }

  lemma {:induction false} BitsCover(n: nat)
    ensures n < Pow(2, BitLength(n))
  {
    if n < 2 {
      assert Pow(2, 1) == 2 * Pow(2, 0);
    } else {
      BitsCover(n / 2);
    }
  }

  /** The windows hold every digit of the scalar. */
  lemma WindowsCover(scalar: nat, windows: nat)
    requires windows * WINDOW >= BitLength(scalar)
    ensures scalar < Pow(TABLE, windows)
  {
    BitsCover(scalar);
    PowGrowsWith(BitLength(scalar), windows * WINDOW);
    PowPow(2, WINDOW, windows);
    assert Pow(2, 4) == TABLE by {
      assert Pow(2, 2) == 2 * Pow(2, 1) && Pow(2, 3) == 2 * Pow(2, 2) && Pow(2, 1) == 2 * Pow(2, 0);
    }
    assert windows * WINDOW == WINDOW * windows;
  }

  lemma {:induction false} PowGrowsWith(m: nat, n: nat)
    requires m <= n
    ensures Pow(2, m) <= Pow(2, n)
  {
    if m < n {
      PowGrowsWith(m, n - 1);
    }
  }

  /** The digits from a window up are those from the next one up, and the window's own. */
  lemma NextDigits(scalar: nat, w: nat)
    ensures Pow(TABLE, w) > 0 && Pow(TABLE, w + 1) > 0
    ensures scalar / Pow(TABLE, w) == TABLE * (scalar / Pow(TABLE, w + 1)) + DigitOf(scalar, w, TABLE)
  {
    PowPositive(TABLE, w);
    PowPositive(TABLE, w + 1);
    var p := Pow(TABLE, w);
    var k, low := scalar / p, scalar % p;
    var j, d := k / TABLE, k % TABLE;
    assert scalar == k * p + low && k == j * TABLE + d;
    assert (j * TABLE + d) * p == j * (TABLE * p) + d * p by { MulAssoc(j, TABLE, p); }
    DigitBelow(low, d, TABLE, p);
    QuotientIs(scalar, TABLE * p, j, low + d * p);
  }

  datatype RangeError = RangeError

  /** Four doublings take a multiple sixteen times as far. */
  method DoubleWindow<E(!new)>(g: Group<E>, start: E, ghost p: E, ghost n: nat) returns (acc: E)
    requires Lawful(g) && start == Times(g, p, n)
    ensures acc == Times(g, p, TABLE * n)
  {
    acc := start;
    ghost var m := n;
    for i := 0 to WINDOW
      invariant acc == Times(g, p, m)
      invariant i == 0 ==> m == n
      invariant i == 1 ==> m == 2 * n
      invariant i == 2 ==> m == 4 * n
      invariant i == 3 ==> m == 8 * n
      invariant i == 4 ==> m == 16 * n
    {
      TimesSum(g, p, m, m);
      acc := g.double(acc);
      m := m + m;
    }
  }

  /** The small multiples of a point. */
  method Table<E(!new)>(g: Group<E>, p: E) returns (table: seq<E>)
    requires Lawful(g)
    ensures |table| == TABLE && forall k :: 0 <= k < TABLE ==> table[k] == Times(g, p, k)
  {
    table := [g.zero, p];
    TimesOne(g, p);
    hide Lawful;
    for i := 2 to TABLE
      invariant |table| == i && forall k :: 0 <= k < i ==> table[k] == Times(g, p, k)
    {
      table := table + [g.add(table[i - 1], p)];
    }
  }

  lemma TimesOne<E(!new)>(g: Group<E>, p: E)
    requires Lawful(g)
    ensures Times(g, p, 0) == g.zero && Times(g, p, 1) == p
  {
    assert Times(g, p, 1) == g.add(Times(g, p, 0), p);
  }

  lemma FirstWindow(scalar: nat, windows: nat)
    requires windows * WINDOW >= BitLength(scalar)
    ensures Pow(TABLE, windows) > 0 && scalar / Pow(TABLE, windows) == 0
  {
    WindowsCover(scalar, windows);
    QuotientIs(scalar, Pow(TABLE, windows), 0, scalar);
  }

  lemma LastWindow(scalar: nat)
    ensures Pow(TABLE, 0) > 0 && scalar / Pow(TABLE, 0) == scalar
  {
  }

  /** The multiple of a point by a scalar: every scalar of the same length takes the same steps. */
  method Multiply<E(!new)>(g: Group<E>, p: E, scalar: int) returns (r: Result<E, RangeError>)
    requires Lawful(g)
    ensures r == if scalar < 0 then Err(RangeError) else Ok(Times(g, p, scalar))
  {
    if scalar < 0 {
      return Err(RangeError);
    }
    var table := Table(g, p);
    var windows: nat := Max(1, (BitLength(scalar) + WINDOW - 1) / WINDOW);
    FirstWindow(scalar, windows);
    var acc := g.zero;
    assert acc == Times(g, p, 0);
    hide Lawful, Times, DigitOf, BitLength;
    var w := windows;
    while w > 0
      invariant 0 <= w <= windows
      invariant Pow(TABLE, w) > 0 && acc == Times(g, p, scalar / Pow(TABLE, w))
    {
      w := w - 1;
      NextDigits(scalar, w);
      ghost var n := scalar / Pow(TABLE, w + 1);
      acc := DoubleWindow(g, acc, p, n);
      var digit := DigitOf(scalar, w, TABLE);
      TimesSum(g, p, TABLE * n, digit);
      acc := g.add(acc, table[digit]);
    }
    LastWindow(scalar);
    return Ok(acc);
  }
}
