/** The nodes of the tree by their place: which dimension each splits, and how deep they can lie. */
module KdShape {
  import opened Points
  import opened KdTree
  import opened KdBalance
  import opened ForkJoin
  import opened ForkJoinHeap

  lemma AtLeastOnce(k: int, n: int)
    requires n >= 0
    ensures k >= 1 ==> k * n >= n
    ensures k <= -1 ==> k * n <= -n
  {
    if k >= 1 {
      assert (k - 1) * n >= 0;
    } else if k <= -1 {
      assert (-k - 1) * n >= 0;
    }
  }

  lemma SameQuotient(a: int, b: int, n: nat)
    requires 0 <= a * n - b * n < n
    ensures a == b
  {
    assert (a - b) * n == a * n - b * n;
    AtLeastOnce(a - b, n);
  }

  /** cycle_dimensions counts modulo num_dimensions. */
  lemma NextRemainder(depth: nat, dims: nat)
    requires dims >= 1
    ensures NextDim(depth % dims, dims) == (depth + 1) % dims
  {
    var q, r := depth / dims, depth % dims;
    var q', r' := (depth + 1) / dims, (depth + 1) % dims;
    assert q * dims + r + 1 == q' * dims + r';
    if r + 1 < dims {
      if q' * dims >= q * dims {
        SameQuotient(q', q, dims);
      } else {
        SameQuotient(q, q', dims);
      }
    } else {
      assert (q + 1) * dims == q * dims + dims;
      SameQuotient(q + 1, q', dims);
    }
  }

  function CellDim(c: Cell): nat {
    match c
    case LeafCell(d, _) => d
    case SplitCell(d, _, _) => d
  }

  lemma {:induction false} DimensionBelow(t: Tree, dims: nat, path: Path)
    requires dims >= 1 && Cycles(t, |path| % dims, dims)
    ensures forall k :: k in Nodes(t, path) ==> CellDim(Nodes(t, path)[k]) == |k| % dims
    decreases t
  {
    if t.Split? {
      NextRemainder(|path|, dims);
      DimensionBelow(t.left, dims, path + [false]);
      DimensionBelow(t.right, dims, path + [true]);
    }
  }

  /** Every node, leaves included, has the dimension given by its depth, counted cyclically from 0. */
  lemma DimensionByDepth(pts: seq<Point>, dims: nat, k: Path)
    requires dims >= 1 && RootSplits(pts, dims)
    ensures var nodes := Nodes(BuildRoot(pts, dims), []);
      k in nodes ==> CellDim(nodes[k]) == |k| % dims
  {
    BuildRootIsKdTree(pts, dims);
    DimensionBelow(BuildRoot(pts, dims), dims, []);
  }

  /** No node lies deeper than the height. */
  lemma {:induction false} NodesWithinHeight(t: Tree, path: Path)
    ensures forall k :: k in Nodes(t, path) ==> |k| <= |path| + t.Height()
    decreases t
  {
    if t.Split? {
      NodesWithinHeight(t.left, path + [false]);
      NodesWithinHeight(t.right, path + [true]);
    }
  }

  /** With distinct coordinates, no node below a call on fewer than 100 points lies more than h levels
      below it if 2^h is at least their number. */
  lemma DepthBound(pts: seq<Point>, dim: nat, dims: nat, h: nat, path: Path, k: Path)
    requires dim < dims && AllDistinct(pts, dims) && Splits(pts, dim, dims)
    requires |pts| < 100 && |pts| <= Pow(2, h)
    ensures k in Nodes(BuildTree(pts, dim, dims), path) ==> |k| <= |path| + h
  {
    HeightBound(pts, dim, dims, h);
    NodesWithinHeight(BuildTree(pts, dim, dims), path);
  }
}
