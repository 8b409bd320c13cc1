/** Sums over the entries of a map from IDs, for the vault's running totals. */
module Sums {

  function At<T>(m: map<nat, T>, value: T -> int, id: nat): int {
    if id in m then value(m[id]) else 0
  }

  /** The sum over the entries with IDs below `n`. */
  function SumBelow<T>(m: map<nat, T>, value: T -> int, n: nat): int {
    if n == 0 then 0 else SumBelow(m, value, n - 1) + At(m, value, n - 1)
  }

  /** Changing one entry changes the sum by what the entry changed. */
  lemma {:induction false} SumChange<T>(m: map<nat, T>, after: map<nat, T>, value: T -> int, n: nat, id: nat)
    requires forall k: nat :: k != id ==> At(after, value, k) == At(m, value, k)
    ensures SumBelow(after, value, n) ==
            SumBelow(m, value, n) + if id < n then At(after, value, id) - At(m, value, id) else 0
  {
    if n > 0 {
      SumChange(m, after, value, n - 1, id);
    }
  }

  lemma {:induction false} SumNonNegative<T>(m: map<nat, T>, value: T -> int, n: nat)
    requires forall id :: id in m ==> value(m[id]) >= 0
    ensures SumBelow(m, value, n) >= 0
  {
    if n > 0 {
      SumNonNegative(m, value, n - 1);
    }
  }

  /** No entry is worth more than the sum of non-negative entries. */
  lemma {:induction false} SumBounds<T>(m: map<nat, T>, value: T -> int, n: nat, id: nat)
    requires forall k :: k in m ==> value(m[k]) >= 0
    requires id in m && id < n
    ensures value(m[id]) <= SumBelow(m, value, n)
  {
    SumNonNegative(m, value, n - 1);
    if id < n - 1 {
      SumBounds(m, value, n - 1, id);
    }
  }
}
