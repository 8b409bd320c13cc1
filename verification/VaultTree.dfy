/** The vault's incremental tree: a frontier of left siblings and a ring of the last roots, both
    kept in contract storage and updated by an appender that holds them in memory. The depth is a
    parameter; the vault is built with 32. */
module VaultTree {
  import opened Common
  import opened Merkle

  const ROOT_HISTORY: nat := 256

  /** The last roots; `newest` indexes the current one and slots not yet written hold 0. */
  datatype RootRing = RootRing(roots: seq<Field>, newest: nat)

  /** The three tree entries in contract storage. */
  datatype TreeStore = TreeStore(frontier: seq<Field>, ring: RootRing, nextLeaf: nat)
  {
    predicate KnowsRoot(root: Field) {
      root != 0 && root in ring.roots
    }

    function CurrentRoot(): Field
      requires ring.newest < |ring.roots|
    {
      ring.roots[ring.newest]
    }
  }

  predicate HasRoom(depth: nat, nextLeaf: nat) {
    nextLeaf + 2 <= Pow2(depth)
  }

  /** `state` counts appended pairs, so the tree has been in states 0 to |leaves| / 2, and the ring
      still holds the root after each of the last ROOT_HISTORY of them. */
  predicate InWindow(leaves: seq<Field>, state: int) {
    0 <= state && |leaves| / 2 - ROOT_HISTORY < state <= |leaves| / 2
  }

  function StateRoot(h: Compressor, depth: nat, leaves: seq<Field>, state: nat): Field
    requires 2 * state <= |leaves|
  {
    Root(h, leaves[..2 * state], depth)
  }

  /** Whether the root belongs to one of the states the tree was in most recently. */
  ghost predicate RecentRoot(h: Compressor, depth: nat, leaves: seq<Field>, root: Field) {
    root != 0 && exists state: int :: InWindow(leaves, state) && StateRoot(h, depth, leaves, state) == root
  }

  ghost predicate FrontierHolds(h: Compressor, depth: nat, frontier: seq<Field>, leaves: seq<Field>) {
    && |frontier| == depth
    && forall level :: 1 <= level < depth && Shr(|leaves|, level) % 2 == 1 ==>
         frontier[level] == Node(h, leaves, level, Shr(|leaves|, level) - 1)
  }

  ghost predicate RingHolds(h: Compressor, depth: nat, ring: RootRing, leaves: seq<Field>) {
    && |ring.roots| == ROOT_HISTORY
    && ring.newest == (|leaves| / 2) % ROOT_HISTORY
    && (forall state: int :: InWindow(leaves, state) ==>
          ring.roots[state % ROOT_HISTORY] == StateRoot(h, depth, leaves, state))
    && (forall slot :: |leaves| / 2 < slot < ROOT_HISTORY ==> ring.roots[slot] == 0)
  }

  /** The stored entries are those of the tree over these leaves. */
  ghost predicate Represents(h: Compressor, depth: nat, store: TreeStore, leaves: seq<Field>) {
    && |leaves| % 2 == 0
    && |leaves| <= Pow2(depth)
    && store.nextLeaf == |leaves|
    && FrontierHolds(h, depth, store.frontier, leaves)
    && RingHolds(h, depth, store.ring, leaves)
  }

  /** Stores an empty tree, whose root fills the first slot of the ring. */
  method Init(h: Compressor, depth: nat) returns (store: TreeStore)
    ensures Represents(h, depth, store, [])
  {
    var frontier := [];
    for height := 0 to depth
      invariant |frontier| == height
    {
      frontier := frontier + [Zero(h, height)];
    }
    var roots := [Zero(h, depth)];
    for slot := 1 to ROOT_HISTORY
      invariant |roots| == slot && roots[0] == Zero(h, depth)
      invariant forall k :: 1 <= k < slot ==> roots[k] == 0
    {
      roots := roots + [0];
    }
    store := TreeStore(frontier, RootRing(roots, 0), 0);
    EmptyNode(h, [], depth, 0);
    forall state: int | InWindow([], state)
      ensures roots[state % ROOT_HISTORY] == StateRoot(h, depth, [], state)
    {
      assert state == 0;
    }
    forall level | 1 <= level < depth
      ensures Shr(0, level) == 0
    {
      ShrIs(0, level, 0);
    }
  }

  /** One level of the climb to the root, over a tree that gains a pair: the node there is a left
      child of an empty sibling, or the right child of a complete one. */
  lemma ClimbLevel(h: Compressor, leaves: seq<Field>, left: Field, right: Field, level: nat)
    requires level >= 1 && |leaves| % 2 == 0
    ensures var grown, q := leaves + [left, right], Shr(|leaves|, level);
            && (q % 2 == 0 ==>
                  Node(h, grown, level + 1, q / 2) == h(Node(h, grown, level, q), Zero(h, level)))
            && (q % 2 == 1 ==>
                  && Node(h, grown, level, q - 1) == Node(h, leaves, level, q - 1)
                  && Node(h, grown, level + 1, q / 2) == h(Node(h, leaves, level, q - 1), Node(h, grown, level, q)))
  {
    var grown, q := leaves + [left, right], Shr(|leaves|, level);
    if q % 2 == 0 {
      RoomForPair(|leaves|, level);
      EmptyNode(h, grown, level, q + 1);
    } else {
      ShrBounds(|leaves|, level);
      CompleteNode(h, leaves, [left, right], level, q - 1);
    }
  }

  /** An even number of leaves leaves room for a pair in every node above the leaves. */
  lemma RoomForPair(n: nat, level: nat)
    requires level >= 1 && n % 2 == 0
    ensures n + 2 <= (Shr(n, level) + 1) * Pow2(level)
  {
    ShrBounds(n, level);
    var q, half := Shr(n, level) + 1, Pow2(level - 1);
    assert q * Pow2(level) == 2 * (q * half);
  }

  /** A pair moves the count of nodes begun at a level only from an even count, by one. */
  lemma CountAfterPair(n: nat, level: nat)
    requires level >= 1 && n % 2 == 0
    ensures Shr(n + 2, level) == Shr(n, level) || Shr(n + 2, level) == Shr(n, level) + 1
  {
    ShrBounds(n, level);
    RoomForPair(n, level);
    var q, p := Shr(n, level), Pow2(level);
    assert (q + 2) * p == (q + 1) * p + p;
    if n + 2 < (q + 1) * p {
      ShrIs(n + 2, level, q);
    } else {
      ShrIs(n + 2, level, q + 1);
    }
  }

  /** Where an append's climb stands: the node on the path at `level`, with every level of the
      frontier below it already as the grown tree needs it. */
  ghost predicate Climbing(h: Compressor, depth: nat, before: seq<Field>, frontier: seq<Field>, leaves: seq<Field>,
                           grown: seq<Field>, level: nat, node: Field)
  {
    && |before| == |frontier| == depth
    && node == Node(h, grown, level, Shr(|leaves|, level))
    && (forall l :: level <= l < depth ==> frontier[l] == before[l])
    && (forall l :: 1 <= l < level <= depth && Shr(|grown|, l) % 2 == 1 ==>
          frontier[l] == Node(h, grown, l, Shr(|grown|, l) - 1))
  }

  lemma ClimbLeft(h: Compressor, depth: nat, before: seq<Field>, frontier: seq<Field>, leaves: seq<Field>,
                  left: Field, right: Field, level: nat, node: Field)
    requires 1 <= level < depth && |leaves| % 2 == 0 && Shr(|leaves|, level) % 2 == 0
    requires Climbing(h, depth, before, frontier, leaves, leaves + [left, right], level, node)
    ensures Climbing(h, depth, before, frontier[level := node], leaves, leaves + [left, right], level + 1, h(node, Zero(h, level)))
  {
    assert Shr(|leaves|, level + 1) == Shr(|leaves|, level) / 2;
    hide Node, Shr, Zero;
    ClimbLevel(h, leaves, left, right, level);
    CountAfterPair(|leaves|, level);
  }

  lemma ClimbRight(h: Compressor, depth: nat, before: seq<Field>, frontier: seq<Field>, leaves: seq<Field>,
                   left: Field, right: Field, level: nat, node: Field)
    requires 1 <= level < depth && |leaves| % 2 == 0 && Shr(|leaves|, level) % 2 == 1
    requires FrontierHolds(h, depth, before, leaves)
    requires Climbing(h, depth, before, frontier, leaves, leaves + [left, right], level, node)
    ensures Climbing(h, depth, before, frontier, leaves, leaves + [left, right], level + 1, h(frontier[level], node))
  {
    var grown, q := leaves + [left, right], Shr(|leaves|, level);
    assert Shr(|leaves|, level + 1) == q / 2;
    assert frontier[level] == Node(h, leaves, level, q - 1);
    ClimbLevel(h, leaves, left, right, level);
    CountAfterPair(|leaves|, level);
    hide *;
    LevelDone(h, depth, frontier, grown, level);
  }

  /** The levels an append's climb is done with, one more of them. */
  lemma LevelDone(h: Compressor, depth: nat, frontier: seq<Field>, grown: seq<Field>, level: nat)
    requires 1 <= level < depth == |frontier|
    requires forall l :: 1 <= l < level && Shr(|grown|, l) % 2 == 1 ==> frontier[l] == Node(h, grown, l, Shr(|grown|, l) - 1)
    requires Shr(|grown|, level) % 2 == 1 ==> frontier[level] == Node(h, grown, level, Shr(|grown|, level) - 1)
    ensures forall l :: 1 <= l < level + 1 && Shr(|grown|, l) % 2 == 1 ==> frontier[l] == Node(h, grown, l, Shr(|grown|, l) - 1)
  {
  }

  /** The ring after one more root: the new state takes the slot of the one that leaves the window. */
  lemma RingAfterPair(h: Compressor, depth: nat, ring: RootRing, leaves: seq<Field>, left: Field, right: Field, root: Field)
    requires |leaves| % 2 == 0 && RingHolds(h, depth, ring, leaves)
    requires root == Root(h, leaves + [left, right], depth)
    ensures var newest := (ring.newest + 1) % ROOT_HISTORY;
            RingHolds(h, depth, RootRing(ring.roots[newest := root], newest), leaves + [left, right])
  {
    var grown, n := leaves + [left, right], |leaves| / 2;
    var newest := (ring.newest + 1) % ROOT_HISTORY;
    assert newest == (n + 1) % ROOT_HISTORY;
    var roots := ring.roots[newest := root];
    forall state: int | InWindow(grown, state)
      ensures roots[state % ROOT_HISTORY] == StateRoot(h, depth, grown, state)
    {
      if state == n + 1 {
        assert grown[..2 * state] == grown;
      } else {
        assert InWindow(leaves, state);
        assert grown[..2 * state] == leaves[..2 * state];
      }
    }
  }

  /** Appends leaf pairs, keeping the frontier and the ring in memory until they are saved. */
  class Appender {
    const h: Compressor
    const depth: nat
    var frontier: seq<Field>
    var roots: seq<Field>
    var newest: nat
    var nextLeaf: nat

    function Store(): TreeStore
      reads this
    {
      TreeStore(frontier, RootRing(roots, newest), nextLeaf)
    }

    constructor (h: Compressor, depth: nat, store: TreeStore)
      ensures this.h == h && this.depth == depth && Store() == store
    {
      this.h := h;
      this.depth := depth;
      frontier, roots, newest, nextLeaf := store.frontier, store.ring.roots, store.ring.newest, store.nextLeaf;
    }

    /** Inserts a pair at the next two leaf indices and pushes the one new root. */
    method Append(left: Field, right: Field, ghost leaves: seq<Field>) returns (index: nat)
      requires Represents(h, depth, Store(), leaves)
      requires depth >= 1 && HasRoom(depth, nextLeaf)
      modifies this
      ensures index == |leaves|
      ensures Represents(h, depth, Store(), leaves + [left, right])
    {
      ghost var grown := leaves + [left, right];
      ghost var before := frontier;
      index := nextLeaf;
      frontier := frontier[0 := left];
      var node := h(left, right);
      var position := index / 2;
      assert node == Node(h, grown, 1, position) by {
        assert node == h(Node(h, grown, 0, 2 * position), Node(h, grown, 0, 2 * position + 1));
      }
      for level := 1 to depth
        invariant position == Shr(index, level)
        invariant Climbing(h, depth, before, frontier, leaves, grown, level, node)
        invariant roots == old(roots) && newest == old(newest) && nextLeaf == old(nextLeaf)
      {
        if position % 2 == 0 {
          ClimbLeft(h, depth, before, frontier, leaves, left, right, level, node);
          frontier := frontier[level := node];
          node := h(node, Zero(h, level));
        } else {
          ClimbRight(h, depth, before, frontier, leaves, left, right, level, node);
          node := h(frontier[level], node);
        }
        position := position / 2;
      }
      ShrIs(index, depth, 0);
      RingAfterPair(h, depth, RootRing(roots, newest), leaves, left, right, node);
      newest := (newest + 1) % ROOT_HISTORY;
      roots := roots[newest := node];
      nextLeaf := index + 2;
    }
  }

  /** The ring accepts exactly the non-zero roots of the last states, the current one included. */
  lemma KnownRootsAreRecent(h: Compressor, depth: nat, store: TreeStore, leaves: seq<Field>, root: Field)
    requires Represents(h, depth, store, leaves)
    ensures store.KnowsRoot(root) <==> RecentRoot(h, depth, leaves, root)
    ensures store.CurrentRoot() == Root(h, leaves, depth)
  {
    var n := |leaves| / 2;
    var roots := store.ring.roots;
    assert InWindow(leaves, n) && leaves[..2 * n] == leaves;
    if store.KnowsRoot(root) {
      var slot :| 0 <= slot < |roots| && roots[slot] == root;
      var state := if slot <= n % ROOT_HISTORY then n - n % ROOT_HISTORY + slot
                   else n - n % ROOT_HISTORY - ROOT_HISTORY + slot;
      if state >= 0 {
        assert InWindow(leaves, state);
        SlotOfState(n, slot, state);
        assert StateRoot(h, depth, leaves, state) == root;
      }
    }
  }

  lemma SlotOfState(n: nat, slot: nat, state: nat)
    requires slot < ROOT_HISTORY
    requires state == n - n % ROOT_HISTORY + slot || state == n - n % ROOT_HISTORY - ROOT_HISTORY + slot
    ensures state % ROOT_HISTORY == slot
  {
    var q := n / ROOT_HISTORY;
    if state == n - n % ROOT_HISTORY + slot {
      QuotientIs(state, ROOT_HISTORY, q, slot);
    } else {
      QuotientIs(state, ROOT_HISTORY, q - 1, slot);
    }
  }
}
