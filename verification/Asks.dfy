/** How often the build asks make_thread, counted on the sequential tree: a call at a depth below
    static_depth asks once for each of its two callees, make_tree asks twice whatever the depth. */
module Asks {
  import opened Points
  import opened KdTree

  function OwnAsks(depth: nat, forkDepth: nat): nat {
    if depth < forkDepth then 2 else 0
  }

  /** merge_sort on n points, all its calls included. */
  function SortAsks(n: nat, depth: nat, forkDepth: nat): nat {
    if n < 2 then 0
    else OwnAsks(depth, forkDepth) + SortAsks(n / 2, depth + 1, forkDepth) + SortAsks(n - n / 2, depth + 1, forkDepth)
  }

  function One(n: nat): nat {
    if n == 1 then 1 else 0
  }

  /** Of these, the questions about a callee on a single point. */
  function SingleAsks(n: nat, depth: nat, forkDepth: nat): nat {
    if n < 2 then 0
    else
      (if depth < forkDepth then One(n / 2) + One(n - n / 2) else 0)
      + SingleAsks(n / 2, depth + 1, forkDepth) + SingleAsks(n - n / 2, depth + 1, forkDepth)
  }

  /** populate_nodes for a subtree; num_pts is the number of points sorted. */
  function TreeAsks(t: Tree, depth: nat, forkDepth: nat): nat {
    if !t.Split? then 0
    else
      SortAsks(t.numPts, depth, forkDepth) + OwnAsks(depth, forkDepth)
      + TreeAsks(t.left, depth + 1, forkDepth) + TreeAsks(t.right, depth + 1, forkDepth)
  }

  /** make_tree for a whole tree. */
  function RootAsks(t: Tree, forkDepth: nat): nat {
    if !t.Split? then 0
    else SortAsks(t.numPts / 4, 0, forkDepth) + 2 + TreeAsks(t.left, 1, forkDepth) + TreeAsks(t.right, 1, forkDepth)
  }

  lemma InnerAsks(pts: seq<Point>, dim: nat, dims: nat, depth: nat, forkDepth: nat)
    requires dim < dims && Splits(pts, dim, dims) && |pts| >= 2
    ensures var next := NextDim(dim, dims);
      TreeAsks(BuildTree(pts, dim, dims), depth, forkDepth)
        == SortAsks(SampleEnd(|pts|), depth, forkDepth) + OwnAsks(depth, forkDepth)
           + TreeAsks(BuildTree(LeftPart(pts, dim), next, dims), depth + 1, forkDepth)
           + TreeAsks(BuildTree(RightPart(pts, dim), next, dims), depth + 1, forkDepth)
  {
    InnerTree(pts, dim, dims);
  }

  lemma FewAsks(pts: seq<Point>, dim: nat, dims: nat, depth: nat, forkDepth: nat)
    requires dim < dims && Splits(pts, dim, dims)
    ensures |pts| < 2 ==> TreeAsks(BuildTree(pts, dim, dims), depth, forkDepth) == 0
  {
  }

  lemma HalvesAsks(n: nat, depth: nat, forkDepth: nat)
    ensures SortAsks(n, depth, forkDepth)
         == if n < 2 then 0
            else OwnAsks(depth, forkDepth) + SortAsks(n / 2, depth + 1, forkDepth) + SortAsks(n - n / 2, depth + 1, forkDepth)
  {
  }
}
