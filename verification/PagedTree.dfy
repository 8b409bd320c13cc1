/** The SDK's copy of the commitment tree: complete pages are kept as their roots and the complete
    nodes above them, the leaves of the last page in full. The depth and the height of a page are
    parameters; the SDK uses 32 and 10. */
module PagedTree {
  import opened Common
  import opened Merkle

  /** The index of the other child of the same parent. */
  function Flip(index: nat): nat {
    if index % 2 == 0 then index + 1 else index - 1
  }

  /** How many nodes of a level cover at least one of `n` leaves. */
  function Covering(n: nat, level: nat): nat {
    if level == 0 then n else (Covering(n, level - 1) + 1) / 2
  }

  lemma {:induction false} CoveringCovers(n: nat, level: nat)
    ensures n <= Covering(n, level) * Pow2(level)
  {
    if level > 0 {
      CoveringCovers(n, level - 1);
      var c, p := Covering(n, level - 1), Pow2(level - 1);
      MulLe(c, 2 * Covering(n, level), p);
      assert 2 * Covering(n, level) * p == Covering(n, level) * Pow2(level);
    }
  }

  lemma UncoveredNode(h: Compressor, leaves: seq<Field>, level: nat, index: nat)
    requires Covering(|leaves|, level) <= index
    ensures Node(h, leaves, level, index) == Zero(h, level)
  {
    CoveringCovers(|leaves|, level);
    MulLe(Covering(|leaves|, level), index, Pow2(level));
    EmptyNode(h, leaves, level, index);
  }

  /** A level of a tree over `leaves`, with the absent nodes on the right left out. */
  ghost predicate IsLevel(h: Compressor, leaves: seq<Field>, level: nat, nodes: seq<Field>) {
    && |nodes| == Covering(|leaves|, level)
    && forall i :: 0 <= i < |nodes| ==> nodes[i] == Node(h, leaves, level, i)
  }

  /** Every level of a subtree of the given height whose leftmost leaves are `leaves`. */
  method SubtreeLevels(h: Compressor, leaves: seq<Field>, height: nat) returns (levels: seq<seq<Field>>)
    ensures |levels| == height + 1
    ensures forall level :: 0 <= level <= height ==> IsLevel(h, leaves, level, levels[level])
  {
    levels := [leaves];
    for level := 1 to height + 1
      invariant |levels| == level
      invariant forall l :: 0 <= l < level ==> IsLevel(h, leaves, l, levels[l])
    {
      var below := levels[level - 1];
      var nodes := [];
      var i := 0;
      while i < |below|
        invariant i % 2 == 0 && i <= |below| + 1 && |nodes| == i / 2
        invariant forall k :: 0 <= k < |nodes| ==> nodes[k] == Node(h, leaves, level, k)
      {
        if i + 1 >= |below| {
          UncoveredNode(h, leaves, level - 1, i + 1);
        }
        nodes := nodes + [h(below[i], if i + 1 < |below| then below[i + 1] else Zero(h, level - 1))];
        i := i + 2;
      }
      levels := levels + [nodes];
    }
  }

  /** The siblings on the way from a leaf up to a height. */
  ghost predicate IsPath(h: Compressor, leaves: seq<Field>, pos: nat, from: nat, path: seq<Field>) {
    forall k :: 0 <= k < |path| ==> path[k] == Node(h, leaves, from + k, Flip(Shr(pos, from + k)))
  }

  method Siblings(h: Compressor, levels: seq<seq<Field>>, offset: nat, height: nat, ghost leaves: seq<Field>)
    returns (path: seq<Field>)
    requires |levels| >= height
    requires forall level :: 0 <= level < height ==> IsLevel(h, leaves, level, levels[level])
    ensures |path| == height && IsPath(h, leaves, offset, 0, path)
  {
    path := [];
    var shifted := offset;
    for level := 0 to height
      invariant |path| == level && shifted == Shr(offset, level)
      invariant IsPath(h, leaves, offset, 0, path)
    {
      var sibling := Flip(shifted);
      if sibling >= |levels[level]| {
        UncoveredNode(h, leaves, level, sibling);
      }
      path := path + [if sibling < |levels[level]| then levels[level][sibling] else Zero(h, level)];
      shifted := shifted / 2;
    }
  }

  /** The authentication path of an offset inside one page. */
  method PagePath(h: Compressor, pageLevels: nat, pageLeaves: seq<Field>, offset: nat) returns (path: seq<Field>)
    ensures |path| == pageLevels && IsPath(h, pageLeaves, offset, 0, path)
  {
    var levels := SubtreeLevels(h, pageLeaves, pageLevels);
    path := Siblings(h, levels, offset, pageLevels, pageLeaves);
  }

  method PageRoot(h: Compressor, pageLevels: nat, pageLeaves: seq<Field>) returns (root: Field)
    ensures root == Root(h, pageLeaves, pageLevels)
  {
    var levels := SubtreeLevels(h, pageLeaves, pageLevels);
    if |levels[pageLevels]| == 0 {
      UncoveredNode(h, pageLeaves, pageLevels, 0);
      root := Zero(h, pageLevels);
    } else {
      root := levels[pageLevels][0];
    }
  }

  /** A subtree over the leaves from `start` on is the subtree of the whole tree at that place. */
  lemma {:induction false} SubtreeAt(h: Compressor, leaves: seq<Field>, start: nat, level: nat, index: nat, inner: nat)
    requires start <= |leaves|
    requires index * Pow2(level) == start + inner * Pow2(level)
    ensures Node(h, leaves, level, index) == Node(h, leaves[start..], level, inner)
    decreases level
  {
    if level > 0 {
      HalfIndex(index, Pow2(level - 1));
      HalfIndex(inner, Pow2(level - 1));
      SubtreeAt(h, leaves, start, level - 1, 2 * index, 2 * inner);
      SubtreeAt(h, leaves, start, level - 1, 2 * index + 1, 2 * inner + 1);
    }
  }

  lemma HalfIndex(i: int, p: int)
    ensures i * (2 * p) == (2 * i) * p && (2 * i + 1) * p == i * (2 * p) + p
  {
  }

  datatype TreeSnapshot = TreeSnapshot(leafCount: nat, upper: seq<seq<Field>>, partial: seq<Field>)

  datatype TreeError = PageTooLong | PageShrank | LeafChanged(index: nat) | TreeIsFull | NotInTree | NoPagePath |
                       InconsistentSnapshot

  /** The first leaf where a page differs from what was applied of it. */
  method FirstChange(applied: seq<Field>, commitments: seq<Field>) returns (changed: Option<nat>)
    requires |applied| <= |commitments|
    ensures changed == None <==> applied <= commitments
    ensures changed.Some? ==>
      var i := changed.value;
      i < |applied| && applied[i] != commitments[i] && applied[..i] == commitments[..i]
  {
    for i := 0 to |applied|
      invariant applied[..i] == commitments[..i]
    {
      if commitments[i] != applied[i] {
        return Some(i);
      }
    }
    return None;
  }

  /** A page that `append` completed, with its commitments. */
  datatype CompletedPage = CompletedPage(page: nat, leaves: seq<Field>)

  predicate CountFits(snapshot: TreeSnapshot, pages: nat, k: nat) {
    (if k < |snapshot.upper| then |snapshot.upper[k]| else 0) == Shr(pages, k)
  }

  ghost predicate SnapshotHolds(h: Compressor, depth: nat, pageLevels: nat, snapshot: TreeSnapshot, leaves: seq<Field>)
    requires pageLevels <= depth
  {
    var pages := Shr(|leaves|, pageLevels);
    && snapshot.leafCount == |leaves| <= Pow2(depth)
    && pages * Pow2(pageLevels) <= |leaves|
    && snapshot.partial == leaves[pages * Pow2(pageLevels)..]
    && |snapshot.upper| == depth - pageLevels + 1
    && forall k :: 0 <= k <= depth - pageLevels ==> UpperHolds(h, pageLevels, snapshot.upper[k], leaves, k, pages)
  }

  /** Level `pageLevels + k` of a tree with this many complete pages, complete nodes only. */
  ghost predicate UpperHolds(h: Compressor, pageLevels: nat, nodes: seq<Field>, leaves: seq<Field>, k: nat, pages: nat) {
    && |nodes| == Shr(pages, k)
    && forall i :: 0 <= i < |nodes| ==> nodes[i] == Node(h, leaves, pageLevels + k, i)
  }

  /** Nodes complete before the current page are the same in any tree that agrees before it. */
  lemma UpperKept(h: Compressor, pageLevels: nat, nodes: seq<Field>, a: seq<Field>, b: seq<Field>, k: nat, pages: nat)
    requires UpperHolds(h, pageLevels, nodes, a, k, pages)
    requires pages * Pow2(pageLevels) <= |a| && pages * Pow2(pageLevels) <= |b|
    requires a[..pages * Pow2(pageLevels)] == b[..pages * Pow2(pageLevels)]
    ensures UpperHolds(h, pageLevels, nodes, b, k, pages)
  {
    var start := pages * Pow2(pageLevels);
    forall i | 0 <= i < |nodes|
      ensures nodes[i] == Node(h, b, pageLevels + k, i)
    {
      EndsBefore(pageLevels, pages, k, i);
      forall j: nat | i * Pow2(pageLevels + k) <= j < (i + 1) * Pow2(pageLevels + k)
        ensures Leaf(a, j) == Leaf(b, j)
      {
        assert a[..start][j] == b[..start][j];
      }
      NodeOfRange(h, a, b, pageLevels + k, i);
    }
  }

  lemma EndsBefore(pageLevels: nat, pages: nat, k: nat, i: nat)
    requires i < Shr(pages, k)
    ensures (i + 1) * Pow2(pageLevels + k) <= pages * Pow2(pageLevels)
  {
    ShrBounds(pages, k);
    Pow2Sum(pageLevels, k);
    ScaledBound(i + 1, Shr(pages, k), Pow2(k), pages, Pow2(pageLevels));
  }

  lemma ScaledBound(i: nat, s: nat, q: nat, pages: nat, p: nat)
    requires i <= s && s * q <= pages
    ensures i * (p * q) <= pages * p
  {
    MulLe(i, s, q);
    MulLe(i * q, pages, p);
    MulAssoc(i, q, p);
  }

  /** Once a level's count does not move, no level above it does. */
  lemma {:induction false} ShrStays(n: nat, m: nat, level: nat, above: nat)
    requires Shr(n, level) == Shr(m, level) && level <= above
    ensures Shr(n, above) == Shr(m, above)
  {
    if level < above {
      ShrStays(n, m, level, above - 1);
    }
  }

  /** Positions inside a page have the same bits as in the tree, below the page's height. */
  lemma {:induction false} ShrInPage(page: nat, pageLevels: nat, offset: nat, level: nat)
    requires level <= pageLevels && offset < Pow2(pageLevels)
    ensures Shr(page * Pow2(pageLevels) + offset, level) == page * Pow2(pageLevels - level) + Shr(offset, level)
    ensures Shr(offset, level) < Pow2(pageLevels - level)
  {
    if level > 0 {
      ShrInPage(page, pageLevels, offset, level - 1);
      HalfShift(page, Pow2(pageLevels - level), Shr(offset, level - 1), Shr(page * Pow2(pageLevels) + offset, level - 1));
    }
  }

  lemma HalfShift(page: nat, p: nat, x: nat, q: nat)
    requires q == page * (2 * p) + x
    ensures q / 2 == page * p + x / 2
  {
    var m := page * p;
    assert q == 2 * m + x;
  }

  lemma FlipInPage(page: nat, pageLevels: nat, offset: nat, level: nat)
    requires level < pageLevels && offset < Pow2(pageLevels)
    ensures var inner, width := Flip(Shr(offset, level)), Pow2(pageLevels - level);
            && inner < width
            && Flip(Shr(page * Pow2(pageLevels) + offset, level)) == page * width + inner
  {
    ShrInPage(page, pageLevels, offset, level);
    FlipPastEven(page, Pow2(pageLevels - level - 1), Shr(offset, level), Shr(page * Pow2(pageLevels) + offset, level));
  }

  lemma FlipPastEven(page: nat, w: nat, x: nat, q: nat)
    requires q == page * (2 * w) + x && x < 2 * w
    ensures Flip(q) == page * (2 * w) + Flip(x) && Flip(x) < 2 * w
  {
    var m := page * w;
    assert q == 2 * m + x;
  }

  /** The nodes inside a page are those of the whole tree, whatever surrounds the page. */
  lemma NodeInPage(h: Compressor, leaves: seq<Field>, content: seq<Field>, page: nat, pageLevels: nat, level: nat, inner: nat)
    requires level <= pageLevels && inner < Pow2(pageLevels - level)
    requires page * Pow2(pageLevels) <= |leaves|
    requires forall i: nat :: i < Pow2(pageLevels) ==> Leaf(content, i) == Leaf(leaves, page * Pow2(pageLevels) + i)
    ensures Node(h, content, level, inner) == Node(h, leaves, level, page * Pow2(pageLevels - level) + inner)
  {
    var start, width, p := page * Pow2(pageLevels), Pow2(pageLevels - level), Pow2(level);
    assert width * p == Pow2(pageLevels) by { Pow2Sum(pageLevels - level, level); }
    SplitIndex(page, width, inner, p);
    SubtreeAt(h, leaves, start, level, page * width + inner, inner);
    assert (inner + 1) * p <= Pow2(pageLevels) by { MulLe(inner + 1, width, p); }
    NodeOfRange(h, content, leaves[start..], level, inner);
  }

  lemma SplitIndex(page: nat, width: nat, inner: nat, p: nat)
    ensures (page * width + inner) * p == page * (width * p) + inner * p
  {
    MulAssoc(page, width, p);
  }

  /** A path captured inside a page stays the lower part of the path in the whole tree. */
  lemma PathInPage(h: Compressor, leaves: seq<Field>, content: seq<Field>, page: nat, pageLevels: nat, offset: nat, path: seq<Field>)
    requires offset < Pow2(pageLevels) && |path| == pageLevels
    requires page * Pow2(pageLevels) <= |leaves|
    requires forall i: nat :: i < Pow2(pageLevels) ==> Leaf(content, i) == Leaf(leaves, page * Pow2(pageLevels) + i)
    requires IsPath(h, content, offset, 0, path)
    ensures IsPath(h, leaves, page * Pow2(pageLevels) + offset, 0, path)
  {
    forall k | 0 <= k < |path|
      ensures path[k] == Node(h, leaves, 0 + k, Flip(Shr(page * Pow2(pageLevels) + offset, 0 + k)))
    {
      assert path[k] == Node(h, content, 0 + k, Flip(Shr(offset, 0 + k)));
      FlipInPage(page, pageLevels, offset, k);
      NodeInPage(h, leaves, content, page, pageLevels, k, Flip(Shr(offset, k)));
    }
  }

  lemma AllUpperKept(h: Compressor, depth: nat, pageLevels: nat, snapshot: TreeSnapshot, leaves: seq<Field>, grown: seq<Field>)
    requires pageLevels <= depth && SnapshotHolds(h, depth, pageLevels, snapshot, leaves)
    requires var start := Shr(snapshot.leafCount, pageLevels) * Pow2(pageLevels);
             start <= |leaves| && start <= |grown| && grown[..start] == leaves[..start]
    ensures forall k :: 0 <= k <= depth - pageLevels ==>
      UpperHolds(h, pageLevels, snapshot.upper[k], grown, k, Shr(snapshot.leafCount, pageLevels))
  {
    var page := Shr(|leaves|, pageLevels);
    forall k | 0 <= k <= depth - pageLevels
      ensures UpperHolds(h, pageLevels, snapshot.upper[k], grown, k, page)
    {
      UpperKept(h, pageLevels, snapshot.upper[k], leaves, grown, k, page);
    }
  }

  /** The current page with more content, still incomplete. */
  lemma PartialApplied(h: Compressor, depth: nat, pageLevels: nat, snapshot: TreeSnapshot, leaves: seq<Field>, content: seq<Field>)
    requires pageLevels <= depth && SnapshotHolds(h, depth, pageLevels, snapshot, leaves)
    requires var start := Shr(snapshot.leafCount, pageLevels) * Pow2(pageLevels);
             |content| < Pow2(pageLevels) && start + |content| <= Pow2(depth)
    ensures var start := Shr(snapshot.leafCount, pageLevels) * Pow2(pageLevels);
            SnapshotHolds(h, depth, pageLevels, snapshot.(leafCount := start + |content|, partial := content), leaves[..start] + content)
  {
    var page := Shr(|leaves|, pageLevels);
    var start := page * Pow2(pageLevels);
    var grown := leaves[..start] + content;
    PageRange(pageLevels, |leaves|);
    ShrIs(|grown|, pageLevels, page);
    assert grown[..start] == leaves[..start] && grown[start..] == content;
    AllUpperKept(h, depth, pageLevels, snapshot, leaves, grown);
  }

  /** The current page with all its content: its root is the next node above the pages. */
  lemma PageCompletes(h: Compressor, depth: nat, pageLevels: nat, snapshot: TreeSnapshot, leaves: seq<Field>, content: seq<Field>)
    requires pageLevels <= depth && SnapshotHolds(h, depth, pageLevels, snapshot, leaves)
    requires |content| == Pow2(pageLevels)
    ensures var page := Shr(snapshot.leafCount, pageLevels);
            var start := page * Pow2(pageLevels);
            var grown := leaves[..start] + content;
            && |snapshot.upper| == depth - pageLevels + 1
            && Shr(|grown|, pageLevels) == page + 1
            && (page + 1) * Pow2(pageLevels) == |grown|
            && grown[(page + 1) * Pow2(pageLevels)..] == []
            && Node(h, grown, pageLevels, page) == Root(h, content, pageLevels)
            && forall k :: 0 <= k <= depth - pageLevels ==> UpperHolds(h, pageLevels, snapshot.upper[k], grown, k, page)
  {
    var page, size := Shr(|leaves|, pageLevels), Pow2(pageLevels);
    var start := page * size;
    var grown := leaves[..start] + content;
    assert (page + 1) * size == start + size && (page + 2) * size == start + 2 * size;
    ShrIs(|grown|, pageLevels, page + 1);
    assert grown[..start] == leaves[..start] && grown[start..] == content;
    SubtreeAt(h, grown, start, pageLevels, page, 0);
    AllUpperKept(h, depth, pageLevels, snapshot, leaves, grown);
  }

  /** A tree whose last page is complete. */
  lemma PageDone(h: Compressor, depth: nat, pageLevels: nat, snapshot: TreeSnapshot, grown: seq<Field>, page: nat)
    requires pageLevels <= depth && Shr(|grown|, pageLevels) == page + 1 && (page + 1) * Pow2(pageLevels) == |grown| <= Pow2(depth)
    requires snapshot.leafCount == |grown| && snapshot.partial == [] && |snapshot.upper| == depth - pageLevels + 1
    requires forall k :: 0 <= k < |snapshot.upper| ==> UpperHolds(h, pageLevels, snapshot.upper[k], grown, k, page + 1)
    ensures SnapshotHolds(h, depth, pageLevels, snapshot, grown)
  {
  }

  class CommitmentTree {
    const h: Compressor
    const depth: nat
    const pageLevels: nat
    var leafCount: nat
    var upper: seq<seq<Field>>
    var partial: seq<Field>
    var partialRoot: Option<Field>

    function Snapshot(): TreeSnapshot
      reads this
    {
      TreeSnapshot(leafCount, upper, partial)
    }

    /** The object is the tree over these leaves. */
    ghost predicate Holds(leaves: seq<Field>)
      reads this
    {
      && pageLevels <= depth
      && SnapshotHolds(h, depth, pageLevels, Snapshot(), leaves)
      && (partialRoot.Some? ==> partialRoot.value == Root(h, partial, pageLevels))
    }

    function PageSize(): nat {
      Pow2(pageLevels)
    }

    /** The page the next leaf goes into. */
    function CurrentPage(): nat
      reads this
    {
      Shr(leafCount, pageLevels)
    }

    constructor Empty(h: Compressor, depth: nat, pageLevels: nat)
      requires pageLevels <= depth
      ensures this.h == h && this.depth == depth && this.pageLevels == pageLevels
      ensures Holds([]) && partialRoot == None
    {
      this.h, this.depth, this.pageLevels := h, depth, pageLevels;
      leafCount, partial, partialRoot := 0, [], None;
      upper := seq(depth - pageLevels + 1, _ => []);
      new;
      forall k: nat
        ensures Shr(0, k) == 0
      {
        ShrIs(0, k, 0);
      }
    }

    /** Restores what `Snapshot` gave. Only the counts are checked, not the nodes. */
    static method FromSnapshot(h: Compressor, depth: nat, pageLevels: nat, snapshot: TreeSnapshot)
      returns (r: Result<CommitmentTree, TreeError>)
      requires pageLevels <= depth
      ensures r.Ok? <==>
        && snapshot.leafCount <= Pow2(depth)
        && |snapshot.partial| == snapshot.leafCount - Shr(snapshot.leafCount, pageLevels) * Pow2(pageLevels)
        && |snapshot.upper| <= depth - pageLevels + 1
        && forall k :: 0 <= k <= depth - pageLevels ==> CountFits(snapshot, Shr(snapshot.leafCount, pageLevels), k)
      ensures r.Err? ==> r.error == InconsistentSnapshot
      ensures r.Ok? ==> fresh(r.value) && r.value.h == h && r.value.depth == depth && r.value.pageLevels == pageLevels
      ensures r.Ok? ==> forall leaves :: SnapshotHolds(h, depth, pageLevels, snapshot, leaves) ==> r.value.Holds(leaves)
    {
      var pages := Shr(snapshot.leafCount, pageLevels);
      var upper := seq(depth - pageLevels + 1,
                       k requires 0 <= k => if k < |snapshot.upper| then snapshot.upper[k] else []);
      var consistent := snapshot.leafCount <= Pow2(depth) && |snapshot.partial| == snapshot.leafCount - pages * Pow2(pageLevels)
                        && |snapshot.upper| <= depth - pageLevels + 1;
      var k := 0;
      while k <= depth - pageLevels
        invariant k <= depth - pageLevels + 1
        invariant consistent <==>
          && snapshot.leafCount <= Pow2(depth) && |snapshot.partial| == snapshot.leafCount - pages * Pow2(pageLevels)
          && |snapshot.upper| <= depth - pageLevels + 1
          && forall j :: 0 <= j < k ==> CountFits(snapshot, pages, j)
      {
        assert |upper[k]| == Shr(pages, k) <==> CountFits(snapshot, pages, k);
        consistent := consistent && |upper[k]| == Shr(pages, k);
        k := k + 1;
      }
      if !consistent {
        return Err(InconsistentSnapshot);
      }
      var tree := new CommitmentTree.Empty(h, depth, pageLevels);
      tree.leafCount, tree.upper, tree.partial := snapshot.leafCount, upper, snapshot.partial;
      forall leaves | SnapshotHolds(h, depth, pageLevels, snapshot, leaves)
        ensures tree.Holds(leaves)
      {
        assert tree.Snapshot() == snapshot;
      }
      r := Ok(tree);
    }

    /** Records a complete node and every complete node it finishes above it. */
    method PushComplete(k: nat, node: Field, ghost leaves: seq<Field>, ghost pages: nat)
      requires pageLevels <= depth && k <= depth - pageLevels && |upper| == depth - pageLevels + 1
      requires Shr(pages + 1, k) == Shr(pages, k) + 1
      requires node == Node(h, leaves, pageLevels + k, Shr(pages, k))
      requires forall j :: 0 <= j < k ==> UpperHolds(h, pageLevels, upper[j], leaves, j, pages + 1)
      requires forall j :: k <= j < |upper| ==> UpperHolds(h, pageLevels, upper[j], leaves, j, pages)
      modifies this`upper
      ensures |upper| == depth - pageLevels + 1
      ensures forall j :: 0 <= j < |upper| ==> UpperHolds(h, pageLevels, upper[j], leaves, j, pages + 1)
      decreases depth - k
    {
      upper := upper[k := upper[k] + [node]];
      var nodes := upper[k];
      var index := |nodes| - 1;
      assert UpperHolds(h, pageLevels, nodes, leaves, k, pages + 1);
      if index % 2 == 1 && k < depth - pageLevels {
        assert nodes[index - 1] == Node(h, leaves, pageLevels + k, index - 1);
        PushComplete(k + 1, h(nodes[index - 1], node), leaves, pages);
      } else {
        forall j | k < j < |upper|
          ensures UpperHolds(h, pageLevels, upper[j], leaves, j, pages + 1)
        {
          ShrStays(pages + 1, pages, k + 1, j);
        }
      }
    }

    /** Applies the content of the current page as served. Its first leaves must be the ones
        already applied. Returns the page's commitments when the page is now complete. */
    method ApplyPage(commitments: seq<Field>, ghost leaves: seq<Field>) returns (r: Result<Option<seq<Field>>, TreeError>)
      requires Holds(leaves)
      modifies this
      ensures r.Ok? <==>
        && |commitments| <= PageSize()
        && old(partial) <= commitments
        && old(CurrentPage()) * PageSize() + |commitments| <= Pow2(depth)
      ensures r.Err? ==> Holds(leaves) && Snapshot() == old(Snapshot())
      ensures r.Ok? ==>
        && Holds(leaves[..old(CurrentPage()) * PageSize()] + commitments)
        && r.value == if |commitments| == PageSize() then Some(commitments) else None
      ensures r.Err? && r.error.LeafChanged? ==>
        var i := r.error.index;
        i < |partial| <= |commitments| && partial[i] != commitments[i] && partial[..i] == commitments[..i]
    {
      if |commitments| > PageSize() {
        return Err(PageTooLong);
      }
      if |commitments| < |partial| {
        return Err(PageShrank);
      }
      var changed := FirstChange(partial, commitments);
      if changed.Some? {
        return Err(LeafChanged(changed.value));
      }
      var page := CurrentPage();
      var start := page * PageSize();
      if start + |commitments| > Pow2(depth) {
        return Err(TreeIsFull);
      }
      ghost var grown := leaves[..start] + commitments;
      hide SnapshotHolds, UpperHolds;
      partialRoot := None;
      leafCount := start + |commitments|;
      if |commitments| < PageSize() {
        PartialApplied(h, depth, pageLevels, old(Snapshot()), leaves, commitments);
        partial := commitments;
        return Ok(None);
      }
      partial := [];
      var root := PageRoot(h, pageLevels, commitments);
      PageCompletes(h, depth, pageLevels, old(Snapshot()), leaves, commitments);
      PushComplete(0, root, grown, page);
      PageDone(h, depth, pageLevels, Snapshot(), grown, page);
      return Ok(Some(commitments));
    }

    /** Applies the current page with the next leaves that fit it. */
    method FillPage(rest: seq<Field>, ghost leaves: seq<Field>) returns (r: Result<Option<seq<Field>>, TreeError>, taken: nat)
      requires Holds(leaves) && rest != []
      modifies this
      ensures 0 < taken <= |rest|
      ensures r.Err? ==> Holds(leaves) && |leaves| == Pow2(depth)
      ensures r.Ok? ==> Holds(leaves + rest[..taken])
      ensures r.Ok? && r.value == None ==> taken == |rest| && CurrentPage() == old(CurrentPage())
      ensures r.Ok? && r.value.Some? ==>
        var start := old(CurrentPage()) * PageSize();
        && CurrentPage() == old(CurrentPage()) + 1
        && start + PageSize() == |leaves + rest[..taken]|
        && r.value.value == (leaves + rest[..taken])[start..]
    {
      var page := CurrentPage();
      PageRange(pageLevels, leafCount);
      var room := PageSize() - |partial|;
      taken := if |rest| <= room then |rest| else room;
      var chunk := rest[..taken];
      NextChunk(leaves + rest, leaves, rest, page * PageSize(), PageSize(), chunk);
      PageAfterChunk(pageLevels, leafCount, taken);
      r := ApplyPage(partial + chunk, leaves);
      if r.Err? {
        FullTree(depth, pageLevels, page);
      }
    }

    /** Appends leaves after the last one, across page boundaries, and returns every page this
        completes. Leaves that no longer fit are refused, after those that do were applied. */
    method Append(more: seq<Field>, ghost leaves: seq<Field>) returns (r: Result<seq<CompletedPage>, TreeError>)
      requires Holds(leaves)
      modifies this
      ensures r.Ok? <==> |leaves + more| <= Pow2(depth)
      ensures r.Ok? ==> Holds(leaves + more)
      ensures r.Err? ==> r.error == TreeIsFull && Holds((leaves + more)[..Pow2(depth)])
      ensures r.Ok? ==> |r.value| == CurrentPage() - old(CurrentPage())
      ensures r.Ok? ==> ArePages(pageLevels, r.value, leaves + more, old(CurrentPage()))
    {
      hide IsPageOf;
      var completed: seq<CompletedPage> := [];
      var rest := more;
      ghost var done := leaves;
      while |rest| > 0
        invariant Holds(done) && done + rest == leaves + more
        invariant |completed| == CurrentPage() - old(CurrentPage())
        invariant ArePages(pageLevels, completed, leaves + more, old(CurrentPage()))
        decreases |rest|
      {
        var page := CurrentPage();
        var applied, taken := FillPage(rest, done);
        if applied.Err? {
          assert (leaves + more)[..Pow2(depth)] == done;
          return Err(TreeIsFull);
        }
        if applied.value.Some? {
          FilledPage(pageLevels, done + rest[..taken], leaves + more, page, applied.value.value);
          AddPage(pageLevels, completed, leaves + more, old(CurrentPage()), CompletedPage(page, applied.value.value));
          completed := completed + [CompletedPage(page, applied.value.value)];
        }
        done := done + rest[..taken];
        rest := rest[taken..];
      }
      assert done + rest == done;
      return Ok(completed);
    }

    /** A node at the height of a page or above. */
    method NodeAt(level: nat, index: nat, ghost leaves: seq<Field>) returns (node: Field)
      requires Holds(leaves) && pageLevels <= level <= depth
      modifies this`partialRoot
      ensures Holds(leaves)
      ensures node == Node(h, leaves, level, index)
      decreases level
    {
      var k := level - pageLevels;
      assert UpperHolds(h, pageLevels, upper[k], leaves, k, CurrentPage());
      if index < |upper[k]| {
        return upper[k][index];
      }
      if index * Pow2(level) >= leafCount {
        EmptyNode(h, leaves, level, index);
        return Zero(h, level);
      }
      if level == pageLevels {
        var page := CurrentPage();
        ShrBounds(leafCount, pageLevels);
        if index > page {
          MulLe(page + 1, index, PageSize());
        }
        if partialRoot == None {
          var root := PageRoot(h, pageLevels, partial);
          partialRoot := Some(root);
        }
        SubtreeAt(h, leaves, page * PageSize(), pageLevels, page, 0);
        return partialRoot.value;
      }
      var left := NodeAt(level - 1, 2 * index, leaves);
      var right := NodeAt(level - 1, 2 * index + 1, leaves);
      return h(left, right);
    }

    method TreeRoot(ghost leaves: seq<Field>) returns (root: Field)
      requires Holds(leaves)
      modifies this`partialRoot
      ensures Holds(leaves)
      ensures root == Root(h, leaves, depth)
    {
      root := NodeAt(depth, 0, leaves);
    }

    /** The siblings from the height of a page up to the root. */
    method UpperPath(pos: nat, ghost leaves: seq<Field>) returns (path: seq<Field>)
      requires Holds(leaves)
      modifies this`partialRoot
      ensures Holds(leaves)
      ensures |path| == depth - pageLevels && IsPath(h, leaves, pos, pageLevels, path)
    {
      path := [];
      for level := pageLevels to depth
        invariant Holds(leaves)
        invariant |path| == level - pageLevels && IsPath(h, leaves, pos, pageLevels, path)
      {
        var sibling := NodeAt(level, Flip(Shr(pos, level)), leaves);
        path := path + [sibling];
      }
    }

    /** The full path of a leaf in the incomplete page. */
    method PartialPath(pos: nat, ghost leaves: seq<Field>) returns (r: Result<seq<Field>, TreeError>)
      requires Holds(leaves)
      modifies this`partialRoot
      ensures Holds(leaves)
      ensures r.Ok? <==> CurrentPage() * PageSize() <= pos < leafCount
      ensures r.Err? ==> r.error == NotInTree
      ensures r.Ok? ==> |r.value| == depth && IsPath(h, leaves, pos, 0, r.value)
    {
      var page := CurrentPage();
      if pos < page * PageSize() || pos >= leafCount {
        return Err(NotInTree);
      }
      ShrBounds(leafCount, pageLevels);
      assert (page + 1) * PageSize() == page * PageSize() + PageSize();
      var offset := pos - page * PageSize();
      var inPage := PagePath(h, pageLevels, partial, offset);
      PathInPage(h, leaves, partial, page, pageLevels, offset, inPage);
      var above := UpperPath(pos, leaves);
      PathsJoin(h, leaves, pos, inPage, above);
      return Ok(inPage + above);
    }

    /** The full path of a leaf, given its siblings inside its page when that page is complete. */
    method Path(pos: nat, pagePathOfLeaf: Option<seq<Field>>, ghost leaves: seq<Field>)
      returns (r: Result<seq<Field>, TreeError>)
      requires Holds(leaves)
      modifies this`partialRoot
      ensures Holds(leaves)
      ensures pos >= |leaves| ==> r == Err(NotInTree)
      ensures pos < |leaves| ==>
        (r.Ok? <==> CurrentPage() * PageSize() <= pos || (pagePathOfLeaf.Some? && |pagePathOfLeaf.value| == pageLevels))
      ensures pos < |leaves| && r.Err? ==> r.error == NoPagePath
      ensures r.Ok? ==> |r.value| == depth
      ensures r.Ok? && (pos < CurrentPage() * PageSize() ==> CapturedPath(h, pageLevels, leaves, pos, pagePathOfLeaf.value)) ==>
        IsPath(h, leaves, pos, 0, r.value)
    {
      if pos >= leafCount {
        return Err(NotInTree);
      }
      if pos >= CurrentPage() * PageSize() {
        r := PartialPath(pos, leaves);
        return;
      }
      if pagePathOfLeaf == None || |pagePathOfLeaf.value| != pageLevels {
        return Err(NoPagePath);
      }
      var inPage := pagePathOfLeaf.value;
      var above := UpperPath(pos, leaves);
      if CapturedPath(h, pageLevels, leaves, pos, inPage) {
        CapturedIsPath(h, pageLevels, leaves, pos, inPage);
        PathsJoin(h, leaves, pos, inPage, above);
      }
      return Ok(inPage + above);
    }
  }

  /** A complete page of a tree. */
  ghost predicate IsPageOf(pageLevels: nat, c: CompletedPage, all: seq<Field>, page: nat) {
    var start, size := page * Pow2(pageLevels), Pow2(pageLevels);
    c.page == page && start + size <= |all| && c.leaves == all[start..start + size]
  }

  ghost predicate ArePages(pageLevels: nat, pages: seq<CompletedPage>, all: seq<Field>, first: nat) {
    forall i :: 0 <= i < |pages| ==> IsPageOf(pageLevels, pages[i], all, first + i)
  }

  lemma AddPage(pageLevels: nat, pages: seq<CompletedPage>, all: seq<Field>, first: nat, c: CompletedPage)
    requires ArePages(pageLevels, pages, all, first) && IsPageOf(pageLevels, c, all, first + |pages|)
    ensures ArePages(pageLevels, pages + [c], all, first)
  {
    hide IsPageOf;
  }

  lemma FilledPage(pageLevels: nat, done: seq<Field>, all: seq<Field>, page: nat, content: seq<Field>)
    requires done <= all && page * Pow2(pageLevels) + Pow2(pageLevels) == |done|
    requires content == done[page * Pow2(pageLevels)..]
    ensures IsPageOf(pageLevels, CompletedPage(page, content), all, page)
  {
    var start, size := page * Pow2(pageLevels), Pow2(pageLevels);
    assert done[start..] == all[start..start + size];
  }

  lemma PageRange(pageLevels: nat, n: nat)
    ensures var page, size := Shr(n, pageLevels), Pow2(pageLevels);
            page * size <= n < page * size + size == (page + 1) * size
  {
    ShrBounds(n, pageLevels);
  }

  /** What an append adds to the current page: its leaves and the next ones that fit it. */
  lemma NextChunk(all: seq<Field>, done: seq<Field>, rest: seq<Field>, start: nat, size: nat, chunk: seq<Field>)
    requires done + rest == all && rest != []
    requires start <= |done| < start + size
    requires chunk == if |rest| <= start + size - |done| then rest else rest[..start + size - |done|]
    ensures chunk != [] && done[..start] + (done[start..] + chunk) == done + chunk
    ensures (done + chunk) + rest[|chunk|..] == all
    ensures |done[start..] + chunk| == size ==> start + size <= |all| && all[start..start + size] == done[start..] + chunk
  {
  }

  /** A chunk that fills the page moves on to the next page; any other stays in the page. */
  lemma PageAfterChunk(pageLevels: nat, n: nat, added: nat)
    requires n + added <= Shr(n, pageLevels) * Pow2(pageLevels) + Pow2(pageLevels)
    ensures Shr(n + added, pageLevels) ==
            Shr(n, pageLevels) + if n + added == Shr(n, pageLevels) * Pow2(pageLevels) + Pow2(pageLevels) then 1 else 0
  {
    PageRange(pageLevels, n);
    var page, size := Shr(n, pageLevels), Pow2(pageLevels);
    assert (page + 2) * size == page * size + 2 * size;
    ShrIs(n + added, pageLevels, if n + added == page * size + size then page + 1 else page);
  }

  /** Only a tree without an incomplete page can have no room for the next one. */
  lemma FullTree(depth: nat, pageLevels: nat, page: nat)
    requires pageLevels <= depth && page * Pow2(pageLevels) <= Pow2(depth) < (page + 1) * Pow2(pageLevels)
    ensures page * Pow2(pageLevels) == Pow2(depth)
  {
    assert Pow2(depth) == Pow2(depth - pageLevels) * Pow2(pageLevels) by { Pow2Sum(depth - pageLevels, pageLevels); }
    LastMultiple(page, Pow2(depth - pageLevels), Pow2(pageLevels));
  }

  lemma LastMultiple(page: nat, w: nat, p: nat)
    requires page * p <= w * p < (page + 1) * p
    ensures page * p == w * p
  {
    if page < w {
      MulLe(page + 1, w, p);
    }
  }

  /** The siblings of a leaf inside its page, captured from the page's content when it completed. */
  ghost predicate CapturedPath(h: Compressor, pageLevels: nat, leaves: seq<Field>, pos: nat, path: seq<Field>) {
    var page := Shr(pos, pageLevels);
    && |path| == pageLevels
    && page * Pow2(pageLevels) <= pos
    && (page + 1) * Pow2(pageLevels) <= |leaves|
    && page * Pow2(pageLevels) <= (page + 1) * Pow2(pageLevels)
    && IsPath(h, leaves[page * Pow2(pageLevels)..(page + 1) * Pow2(pageLevels)], pos - page * Pow2(pageLevels), 0, path)
  }

  lemma CapturedIsPath(h: Compressor, pageLevels: nat, leaves: seq<Field>, pos: nat, path: seq<Field>)
    requires CapturedPath(h, pageLevels, leaves, pos, path)
    ensures IsPath(h, leaves, pos, 0, path)
  {
    var page := Shr(pos, pageLevels);
    var start, size := page * Pow2(pageLevels), Pow2(pageLevels);
    assert (page + 1) * size == start + size;
    ShrBounds(pos, pageLevels);
    PathInPage(h, leaves, leaves[start..start + size], page, pageLevels, pos - start, path);
  }

  lemma PathsJoin(h: Compressor, leaves: seq<Field>, pos: nat, lower: seq<Field>, upper: seq<Field>)
    requires IsPath(h, leaves, pos, 0, lower) && IsPath(h, leaves, pos, |lower|, upper)
    ensures IsPath(h, leaves, pos, 0, lower + upper)
  {
    var path := lower + upper;
    forall k | 0 <= k < |path|
      ensures path[k] == Node(h, leaves, 0 + k, Flip(Shr(pos, 0 + k)))
    {
      if k >= |lower| {
        assert upper[k - |lower|] == Node(h, leaves, |lower| + (k - |lower|), Flip(Shr(pos, |lower| + (k - |lower|))));
      } else {
        assert lower[k] == Node(h, leaves, 0 + k, Flip(Shr(pos, 0 + k)));
      }
    }
  }

  /** The root reached from a node and the siblings above it. */
  function Climb(h: Compressor, node: Field, pos: nat, path: seq<Field>): Field
    decreases |path|
  {
    if path == [] then node
    else Climb(h, if pos % 2 == 1 then h(path[0], node) else h(node, path[0]), pos / 2, path[1..])
  }

  method RootFromPath(h: Compressor, leaf: Field, pos: nat, path: seq<Field>) returns (node: Field)
    ensures node == Climb(h, leaf, pos, path)
  {
    node := leaf;
    for level := 0 to |path|
      invariant Climb(h, node, Shr(pos, level), path[level..]) == Climb(h, leaf, pos, path)
    {
      assert path[level..][1..] == path[level + 1..];
      node := if Shr(pos, level) % 2 == 1 then h(path[level], node) else h(node, path[level]);
    }
  }

  /** A node and its sibling make the node above them. */
  lemma ParentOf(h: Compressor, leaves: seq<Field>, pos: nat, from: nat)
    ensures var q := Shr(pos, from);
            && Shr(pos, from + 1) == q / 2
            && Node(h, leaves, from + 1, q / 2) ==
               if q % 2 == 1 then h(Node(h, leaves, from, Flip(q)), Node(h, leaves, from, q))
               else h(Node(h, leaves, from, q), Node(h, leaves, from, Flip(q)))
  {
  }

  /** The path of a leaf leads to the node above it, and all the way up to the root. */
  lemma {:induction false} PathLeadsUp(h: Compressor, leaves: seq<Field>, pos: nat, from: nat, path: seq<Field>)
    requires IsPath(h, leaves, pos, from, path)
    ensures Climb(h, Node(h, leaves, from, Shr(pos, from)), Shr(pos, from), path) ==
            Node(h, leaves, from + |path|, Shr(pos, from + |path|))
    decreases |path|
  {
    if path != [] {
      PathTail(h, leaves, pos, from, path);
      assert path[0] == Node(h, leaves, from + 0, Flip(Shr(pos, from + 0)));
      ParentOf(h, leaves, pos, from);
      PathLeadsUp(h, leaves, pos, from + 1, path[1..]);
      hide Node, Shr;
    }
  }

  lemma PathTail(h: Compressor, leaves: seq<Field>, pos: nat, from: nat, path: seq<Field>)
    requires path != [] && IsPath(h, leaves, pos, from, path)
    ensures IsPath(h, leaves, pos, from + 1, path[1..])
  {
    forall k | 0 <= k < |path[1..]|
      ensures path[1..][k] == Node(h, leaves, from + 1 + k, Flip(Shr(pos, from + 1 + k)))
    {
      assert path[k + 1] == Node(h, leaves, from + (k + 1), Flip(Shr(pos, from + (k + 1))));
    }
  }

  lemma PathProvesLeaf(h: Compressor, leaves: seq<Field>, depth: nat, pos: nat, path: seq<Field>)
    requires |path| == depth && pos < Pow2(depth) && IsPath(h, leaves, pos, 0, path)
    ensures Climb(h, Leaf(leaves, pos), pos, path) == Root(h, leaves, depth)
  {
    PathLeadsUp(h, leaves, pos, 0, path);
    ShrIs(pos, depth, 0);
  }

  /** What one step of the climb compresses: the node and its sibling, in their order. */
  function Ordered(node: Field, sibling: Field, q: nat): (Field, Field) {
    if q % 2 == 1 then (sibling, node) else (node, sibling)
  }

  /** The pair that step `k` of a climb compresses. */
  function Compressed(h: Compressor, node: Field, q: nat, path: seq<Field>, k: nat): (Field, Field)
    requires k < |path|
    decreases |path|
  {
    var pair := Ordered(node, path[0], q);
    if k == 0 then pair else Compressed(h, h(pair.0, pair.1), q / 2, path[1..], k - 1)
  }

  /** The pair that makes up the node of the tree at that step. */
  function RealPair(h: Compressor, leaves: seq<Field>, pos: nat, level: nat): (Field, Field) {
    var half := Shr(pos, level + 1);
    (Node(h, leaves, level, 2 * half), Node(h, leaves, level, 2 * half + 1))
  }

  /** Two different pairs that compress to the same node. */
  predicate Collide(h: Compressor, a: (Field, Field), b: (Field, Field)) {
    a != b && h(a.0, a.1) == h(b.0, b.1)
  }

  /** Only the real leaf and its real siblings lead to the node above, or else a step of the climb, the one
      returned, compresses a pair that collides with the tree's own. */
  lemma {:induction false} OnlyPathLeadsUp(h: Compressor, leaves: seq<Field>, pos: nat, from: nat, node: Field, path: seq<Field>) returns (k: nat)
    requires Climb(h, node, Shr(pos, from), path) == Node(h, leaves, from + |path|, Shr(pos, from + |path|))
    ensures (node == Node(h, leaves, from, Shr(pos, from)) && IsPath(h, leaves, pos, from, path))
            || (k < |path| && Collide(h, Compressed(h, node, Shr(pos, from), path, k), RealPair(h, leaves, pos, from + k)))
    decreases |path|
  {
    k := 0;
    if path != [] {
      var pair := Ordered(node, path[0], Shr(pos, from));
      var above, rest := h(pair.0, pair.1), path[1..];
      ClimbsOne(h, leaves, pos, from, node, path);
      hide Climb, Node, Shr, IsPath, Compressed, RealPair;
      k := OnlyPathLeadsUp(h, leaves, pos, from + 1, above, rest);
      if !(above == Node(h, leaves, from + 1, Shr(pos, from + 1)) && IsPath(h, leaves, pos, from + 1, rest)) {
        CompressedLater(h, node, Shr(pos, from), path, k);
        k := k + 1;
      } else if pair == RealPair(h, leaves, pos, from) {
        PairIsReal(h, leaves, pos, from, node, path[0]);
        PathFromTail(h, leaves, pos, from, path);
      } else {
        k := 0;
        CompressedFirst(h, leaves, pos, from, node, path);
      }
    }
  }

  lemma ClimbsOne(h: Compressor, leaves: seq<Field>, pos: nat, from: nat, node: Field, path: seq<Field>)
    requires path != []
    ensures var pair := Ordered(node, path[0], Shr(pos, from));
            && Climb(h, node, Shr(pos, from), path) == Climb(h, h(pair.0, pair.1), Shr(pos, from + 1), path[1..])
            && Shr(pos, from + 1) == Shr(pos, from) / 2
  {
  }

  lemma CompressedLater(h: Compressor, node: Field, q: nat, path: seq<Field>, k: nat)
    requires k < |path| - 1
    ensures var pair := Ordered(node, path[0], q);
            Compressed(h, node, q, path, k + 1) == Compressed(h, h(pair.0, pair.1), q / 2, path[1..], k)
  {
  }

  lemma CompressedFirst(h: Compressor, leaves: seq<Field>, pos: nat, from: nat, node: Field, path: seq<Field>)
    requires path != []
    ensures Compressed(h, node, Shr(pos, from), path, 0) == Ordered(node, path[0], Shr(pos, from))
    ensures var own := RealPair(h, leaves, pos, from); h(own.0, own.1) == Node(h, leaves, from + 1, Shr(pos, from + 1))
  {
  }

  lemma PairIsReal(h: Compressor, leaves: seq<Field>, pos: nat, from: nat, node: Field, sibling: Field)
    requires Ordered(node, sibling, Shr(pos, from)) == RealPair(h, leaves, pos, from)
    ensures node == Node(h, leaves, from, Shr(pos, from)) && sibling == Node(h, leaves, from, Flip(Shr(pos, from)))
  {
    assert Shr(pos, from + 1) == Shr(pos, from) / 2;
  }

  lemma PathFromTail(h: Compressor, leaves: seq<Field>, pos: nat, from: nat, path: seq<Field>)
    requires path != [] && IsPath(h, leaves, pos, from + 1, path[1..])
    requires path[0] == Node(h, leaves, from, Flip(Shr(pos, from)))
    ensures IsPath(h, leaves, pos, from, path)
  {
    forall k | 0 <= k < |path|
      ensures path[k] == Node(h, leaves, from + k, Flip(Shr(pos, from + k)))
    {
      if k > 0 {
        assert path[1..][k - 1] == Node(h, leaves, from + 1 + (k - 1), Flip(Shr(pos, from + 1 + (k - 1))));
      }
    }
  }

  /** What leads to the root is the real leaf with its real path, or exhibits a collision of the compression:
      the pair of one step of the climb, against the tree's own pair at that level. */
  lemma OnlyLeafProves(h: Compressor, leaves: seq<Field>, depth: nat, leaf: Field, pos: nat, path: seq<Field>) returns (k: nat)
    requires |path| == depth && pos < Pow2(depth)
    requires Climb(h, leaf, pos, path) == Root(h, leaves, depth)
    ensures (leaf == Leaf(leaves, pos) && IsPath(h, leaves, pos, 0, path))
            || (k < depth && Collide(h, Compressed(h, leaf, pos, path, k), RealPair(h, leaves, pos, k)))
  {
    ShrIs(pos, depth, 0);
    k := OnlyPathLeadsUp(h, leaves, pos, 0, leaf, path);
  }
}
