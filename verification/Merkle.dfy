/** The commitment tree as it is specified: a full binary tree over all leaves, padded with the
    empty leaf 0. Both incremental trees are proved against it. The compression is any function. */
module Merkle {
  import opened Common

  type Field = nat

  type Compressor = (Field, Field) -> Field

  /** The root of an empty subtree of the given height. */
  function Zero(h: Compressor, height: nat): Field {
    if height == 0 then 0 else h(Zero(h, height - 1), Zero(h, height - 1))
  }

  function Leaf(leaves: seq<Field>, i: nat): Field {
    if i < |leaves| then leaves[i] else 0
  }

  /** The node at a level, counted from the leaves, and an index, counted from the left. */
  function Node(h: Compressor, leaves: seq<Field>, level: nat, index: nat): Field {
    if level == 0 then Leaf(leaves, index)
    else h(Node(h, leaves, level - 1, 2 * index), Node(h, leaves, level - 1, 2 * index + 1))
  }

  /** The root of the full tree of the given depth. */
  function Root(h: Compressor, leaves: seq<Field>, depth: nat): Field {
    Node(h, leaves, depth, 0)
  }

  lemma {:induction false} NodeOfRange(h: Compressor, a: seq<Field>, b: seq<Field>, level: nat, index: nat)
    requires forall i: nat :: index * Pow2(level) <= i < (index + 1) * Pow2(level) ==> Leaf(a, i) == Leaf(b, i)
    ensures Node(h, a, level, index) == Node(h, b, level, index)
    decreases level
  {
    if level == 0 {
      assert Leaf(a, index) == Leaf(b, index);
    } else {
      var p := Pow2(level - 1);
      assert 2 * index * p == index * Pow2(level);
      assert (2 * index + 1) * p == index * Pow2(level) + p;
      assert (2 * index + 2) * p == (index + 1) * Pow2(level);
      NodeOfRange(h, a, b, level - 1, 2 * index);
      NodeOfRange(h, a, b, level - 1, 2 * index + 1);
    }
  }

  /** A node whose leaves are all still empty is the empty node of its height. */
  lemma {:induction false} EmptyNode(h: Compressor, leaves: seq<Field>, level: nat, index: nat)
    requires |leaves| <= index * Pow2(level)
    ensures Node(h, leaves, level, index) == Zero(h, level)
    decreases level
  {
    if level > 0 {
      var p := Pow2(level - 1);
      assert 2 * index * p == index * Pow2(level);
      assert (2 * index + 1) * p == index * Pow2(level) + p;
      EmptyNode(h, leaves, level - 1, 2 * index);
      EmptyNode(h, leaves, level - 1, 2 * index + 1);
    }
  }

  /** A node whose leaves were all written already does not change when more are appended. */
  lemma CompleteNode(h: Compressor, leaves: seq<Field>, more: seq<Field>, level: nat, index: nat)
    requires (index + 1) * Pow2(level) <= |leaves|
    ensures Node(h, leaves + more, level, index) == Node(h, leaves, level, index)
  {
    NodeOfRange(h, leaves + more, leaves, level, index);
  }
}
