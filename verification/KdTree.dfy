/** The sequential kd-tree: what make_tree and populate_nodes build, when they terminate, and why the
    result is a kd-tree of the training points. */
module KdTree {
  import opened Points
  import opened Sequences
  import opened StableSort

  datatype Tree =
    | Empty
    | Leaf(dim: nat, point: Point)
    | Split(dim: nat, median: real, numPts: nat, left: Tree, right: Tree)
  {
    /** The num_pts field, which the query uses as its leaf test. */
    function NumPts(): nat {
      match this
      case Empty => 0
      case Leaf(_, _) => 1
      case Split(_, _, n, _, _) => n
    }

    function Points(): multiset<Point> {
      match this
      case Empty => multiset{}
      case Leaf(_, p) => multiset{p}
      case Split(_, _, _, l, r) => l.Points() + r.Points()
    }

    function Height(): nat {
      match this
      case Empty => 0
      case Leaf(_, _) => 0
      case Split(_, _, _, l, r) => 1 + if l.Height() < r.Height() then r.Height() else l.Height()
    }

    /** Number of nodes. */
    function Size(): nat {
      match this
      case Empty => 0
      case Leaf(_, _) => 1
      case Split(_, _, _, l, r) => 1 + l.Size() + r.Size()
    }
  }

  /** populate_nodes sorts every point of a small range and a quarter of a large one. */
  function SampleEnd(n: nat): nat {
    if n < 100 then n else n / 4
  }

  /** get_median_and_split. */
  function Median(a: seq<Point>, d: nat): real
    requires a != []
  {
    var i := |a| / 2;
    if |a| % 2 == 1 then Coord(a[i], d) else (Coord(a[i], d) + Coord(a[i - 1], d)) / 2.0
  }

  /** The median of the first `end` points along d. */
  function SampleMedian(pts: seq<Point>, end: nat, d: nat): real
    requires 1 <= end <= |pts|
  {
    MergeSortIsStable(pts[..end], d);
    Median(MergeSort(pts[..end], d), d)
  }

  function Lower(pts: seq<Point>, d: nat, m: real): (r: seq<Point>) {
    if pts == [] then []
    else (if Coord(pts[0], d) < m then [pts[0]] else []) + Lower(pts[1..], d, m)
  }

  function Upper(pts: seq<Point>, d: nat, m: real): seq<Point> {
    if pts == [] then []
    else (if Coord(pts[0], d) < m then [] else [pts[0]]) + Upper(pts[1..], d, m)
  }

  function NextDim(d: nat, dims: nat): nat {
    if d + 1 < dims then d + 1 else 0
  }

  /** The two halves populate_nodes recurses into. */
  function LeftPart(pts: seq<Point>, d: nat): seq<Point>
    requires |pts| >= 2
  {
    Lower(pts, d, SampleMedian(pts, SampleEnd(|pts|), d))
  }

  function RightPart(pts: seq<Point>, d: nat): seq<Point>
    requires |pts| >= 2
  {
    Upper(pts, d, SampleMedian(pts, SampleEnd(|pts|), d))
  }

  // ---- Partition ----

  lemma {:induction false} PartitionMultiset(pts: seq<Point>, d: nat, m: real)
    ensures multiset(pts) == multiset(Lower(pts, d, m)) + multiset(Upper(pts, d, m))
    ensures |pts| == |Lower(pts, d, m)| + |Upper(pts, d, m)|
    ensures forall p :: p in Lower(pts, d, m) <==> p in pts && Coord(p, d) < m
    ensures forall p :: p in Upper(pts, d, m) <==> p in pts && Coord(p, d) >= m
  {
    if pts != [] {
      PartitionMultiset(pts[1..], d, m);
      Elements(pts);
    }
  }

  lemma {:induction false} UpperAll(pts: seq<Point>, d: nat, m: real)
    requires Lower(pts, d, m) == []
    ensures Upper(pts, d, m) == pts
  {
    if pts != [] {
      UpperAll(pts[1..], d, m);
      assert pts == [pts[0]] + pts[1..];
    }
  }

  /** The median is at most the largest coordinate of the sample, so the right half is never empty and
      the left half is always smaller than the whole. */
  lemma RightNeverEmpty(pts: seq<Point>, end: nat, d: nat)
    requires 1 <= end <= |pts|
    ensures var m := SampleMedian(pts, end, d);
      Upper(pts, d, m) != [] && |Lower(pts, d, m)| < |pts|
  {
    var s := pts[..end];
    var a := MergeSort(s, d);
    MergeSortIsStable(s, d);
    var m := SampleMedian(pts, end, d);
    var top := a[|a| / 2];
    assert |a| % 2 == 0 ==> Coord(a[|a| / 2 - 1], d) <= Coord(top, d);
    assert top in multiset(s);
    assert top in pts;
    PartitionMultiset(pts, d, m);
    assert top in Upper(pts, d, m);
  }

  // ---- When the recursion terminates ----

  /** No dimension separates these points: every left half is empty, and the recursion would carry
      the same vector round the dimensions for ever. */
  predicate Stuck(pts: seq<Point>, dims: nat)
    requires |pts| >= 2
  {
    forall d :: 0 <= d < dims ==> LeftPart(pts, d) == []
  }

  /** A dimension that separates the points, and the number of steps until its turn comes. */
  ghost function Separator(pts: seq<Point>, dims: nat): (d: nat)
    requires |pts| >= 2 && !Stuck(pts, dims)
    ensures d < dims && LeftPart(pts, d) != []
  {
    var d :| 0 <= d < dims && LeftPart(pts, d) != [];
    d
  }

  ghost function Wait(pts: seq<Point>, dim: nat, dims: nat): nat
    requires dim < dims
  {
    if |pts| < 2 || Stuck(pts, dims) then 0
    else
      var d := Separator(pts, dims);
      if dim <= d then d - dim else d + dims - dim
  }

  lemma WaitShrinks(pts: seq<Point>, dim: nat, dims: nat)
    requires dim < dims && |pts| >= 2 && !Stuck(pts, dims) && LeftPart(pts, dim) == []
    ensures Wait(pts, NextDim(dim, dims), dims) < Wait(pts, dim, dims)
  {
    var d := Separator(pts, dims);
    assert d != dim;
  }

  lemma WaitDecreases(pts: seq<Point>, dim: nat, dims: nat)
    requires dim < dims && |pts| >= 2 && !Stuck(pts, dims)
    ensures |LeftPart(pts, dim)| < |pts|
    ensures |RightPart(pts, dim)| < |pts|
      || (RightPart(pts, dim) == pts && Wait(pts, NextDim(dim, dims), dims) < Wait(pts, dim, dims))
  {
    var end := SampleEnd(|pts|);
    var m := SampleMedian(pts, end, dim);
    RightNeverEmpty(pts, end, dim);
    if Lower(pts, dim, m) == [] {
      UpperAll(pts, dim, m);
      WaitShrinks(pts, dim, dims);
    } else {
      PartitionMultiset(pts, dim, m);
    }
  }

  /** The recursion on (pts, dim) meets no stuck vector. */
  ghost predicate Splits(pts: seq<Point>, dim: nat, dims: nat)
    requires dim < dims
    decreases |pts|, Wait(pts, dim, dims)
  {
    |pts| < 2 || (
      && !Stuck(pts, dims)
      && (WaitDecreases(pts, dim, dims);
          && Splits(LeftPart(pts, dim), NextDim(dim, dims), dims)
          && Splits(RightPart(pts, dim), NextDim(dim, dims), dims)))
  }

  datatype Outcome = Finished(tree: Tree) | OutOfFuel

  /** populate_nodes with at most `fuel` nested calls. */
  function BuildWithin(pts: seq<Point>, dim: nat, dims: nat, fuel: nat): Outcome
    decreases fuel
  {
    if fuel == 0 then OutOfFuel
    else if |pts| == 0 then Finished(Empty)
    else if |pts| == 1 then Finished(Leaf(dim, pts[0]))
    else
      var l := BuildWithin(LeftPart(pts, dim), NextDim(dim, dims), dims, fuel - 1);
      var r := BuildWithin(RightPart(pts, dim), NextDim(dim, dims), dims, fuel - 1);
      if l.Finished? && r.Finished? then Finished(Node(pts, dim, l.tree, r.tree)) else OutOfFuel
  }

  /** An inner node records the size of its sample, not of its subtree. */
  function Node(pts: seq<Point>, dim: nat, l: Tree, r: Tree): Tree
    requires |pts| >= 2
  {
    var end := SampleEnd(|pts|);
    Split(dim, SampleMedian(pts, end, dim), end, l, r)
  }

  /** The subtree populate_nodes builds. */
  ghost function BuildTree(pts: seq<Point>, dim: nat, dims: nat): Tree
    requires dim < dims && Splits(pts, dim, dims)
    decreases |pts|, Wait(pts, dim, dims)
  {
    if |pts| == 0 then Empty
    else if |pts| == 1 then Leaf(dim, pts[0])
    else
      WaitDecreases(pts, dim, dims);
      var next := NextDim(dim, dims);
      Node(pts, dim, BuildTree(LeftPart(pts, dim), next, dims), BuildTree(RightPart(pts, dim), next, dims))
  }

  lemma InnerTree(pts: seq<Point>, dim: nat, dims: nat)
    requires |pts| >= 2 && dim < dims && Splits(pts, dim, dims)
    ensures BuildTree(pts, dim, dims)
         == Split(dim, SampleMedian(pts, SampleEnd(|pts|), dim), SampleEnd(|pts|),
                  BuildTree(LeftPart(pts, dim), NextDim(dim, dims), dims), BuildTree(RightPart(pts, dim), NextDim(dim, dims), dims))
  {
  }

  lemma {:induction false} MoreFuel(pts: seq<Point>, dim: nat, dims: nat, fuel: nat, more: nat)
    requires BuildWithin(pts, dim, dims, fuel).Finished? && fuel <= more
    ensures BuildWithin(pts, dim, dims, more) == BuildWithin(pts, dim, dims, fuel)
    decreases fuel
  {
    if |pts| >= 2 {
      MoreFuel(LeftPart(pts, dim), NextDim(dim, dims), dims, fuel - 1, more - 1);
      MoreFuel(RightPart(pts, dim), NextDim(dim, dims), dims, fuel - 1, more - 1);
    }
  }

  lemma {:induction false} SplitsFinishes(pts: seq<Point>, dim: nat, dims: nat) returns (fuel: nat)
    requires dim < dims && Splits(pts, dim, dims)
    ensures BuildWithin(pts, dim, dims, fuel) == Finished(BuildTree(pts, dim, dims))
    decreases |pts|, Wait(pts, dim, dims)
  {
    if |pts| < 2 {
      fuel := 1;
    } else {
      WaitDecreases(pts, dim, dims);
      var next := NextDim(dim, dims);
      var f := SplitsFinishes(LeftPart(pts, dim), next, dims);
      var g := SplitsFinishes(RightPart(pts, dim), next, dims);
      fuel := 1 + f + g;
      MoreFuel(LeftPart(pts, dim), next, dims, f, f + g);
      MoreFuel(RightPart(pts, dim), next, dims, g, f + g);
    }
  }

  lemma {:induction false} StuckNeverFinishes(pts: seq<Point>, dim: nat, dims: nat, fuel: nat)
    requires dim < dims && |pts| >= 2 && Stuck(pts, dims)
    ensures BuildWithin(pts, dim, dims, fuel) == OutOfFuel
    decreases fuel
  {
    if fuel > 0 {
      assert LeftPart(pts, dim) == [];
      UpperAll(pts, dim, SampleMedian(pts, SampleEnd(|pts|), dim));
      StuckNeverFinishes(pts, NextDim(dim, dims), dims, fuel - 1);
    }
  }

  lemma {:induction false} FinishesSplits(pts: seq<Point>, dim: nat, dims: nat, fuel: nat)
    requires dim < dims && BuildWithin(pts, dim, dims, fuel).Finished?
    ensures Splits(pts, dim, dims)
    decreases fuel
  {
    if |pts| >= 2 {
      if Stuck(pts, dims) {
        StuckNeverFinishes(pts, dim, dims, fuel);
      }
      WaitDecreases(pts, dim, dims);
      assert BuildWithin(LeftPart(pts, dim), NextDim(dim, dims), dims, fuel - 1).Finished?;
      assert BuildWithin(RightPart(pts, dim), NextDim(dim, dims), dims, fuel - 1).Finished?;
      FinishesSplits(LeftPart(pts, dim), NextDim(dim, dims), dims, fuel - 1);
      FinishesSplits(RightPart(pts, dim), NextDim(dim, dims), dims, fuel - 1);
    }
  }

  /** The recursion terminates exactly when it meets no stuck vector. */
  lemma TerminatesExactly(pts: seq<Point>, dim: nat, dims: nat)
    requires dim < dims
    ensures (exists fuel: nat :: BuildWithin(pts, dim, dims, fuel).Finished?) <==> Splits(pts, dim, dims)
  {
    if fuel: nat :| BuildWithin(pts, dim, dims, fuel).Finished? {
      FinishesSplits(pts, dim, dims, fuel);
    }
    if Splits(pts, dim, dims) {
      var fuel := SplitsFinishes(pts, dim, dims);
    }
  }

  // ---- The result is a kd-tree of the points ----

  /** Left of every split strictly below the median, right of it at or above. */
  ghost predicate KdOrdered(t: Tree) {
    t.Split? ==>
      && (forall p :: p in t.left.Points() ==> Coord(p, t.dim) < t.median)
      && (forall p :: p in t.right.Points() ==> Coord(p, t.dim) >= t.median)
      && KdOrdered(t.left) && KdOrdered(t.right)
  }

  /** The splitting dimension is dim at the root and moves on by one at each level. */
  predicate Cycles(t: Tree, dim: nat, dims: nat) {
    match t
    case Empty => true
    case Leaf(d, _) => d == dim
    case Split(d, _, _, l, r) => d == dim && Cycles(l, NextDim(dim, dims), dims) && Cycles(r, NextDim(dim, dims), dims)
  }

  /** num_pts == 1 says "leaf", although inner nodes hold a sample size. */
  predicate LeafTest(t: Tree) {
    t.Split? ==> t.numPts >= 2 && LeafTest(t.left) && LeafTest(t.right)
  }

  ghost predicate IsKdTree(t: Tree, pts: seq<Point>, dim: nat, dims: nat) {
    t.Points() == multiset(pts) && KdOrdered(t) && Cycles(t, dim, dims) && LeafTest(t)
  }

  lemma HalvesOrdered(pts: seq<Point>, d: nat, m: real)
    ensures forall p :: p in multiset(Lower(pts, d, m)) ==> Coord(p, d) < m
    ensures forall p :: p in multiset(Upper(pts, d, m)) ==> Coord(p, d) >= m
    ensures multiset(pts) == multiset(Lower(pts, d, m)) + multiset(Upper(pts, d, m))
  {
    PartitionMultiset(pts, d, m);
  }

  /** Two kd-trees of the halves make a kd-tree of the whole. */
  lemma JoinKd(pts: seq<Point>, dim: nat, dims: nat, m: real, n: nat, l: Tree, r: Tree)
    requires IsKdTree(l, Lower(pts, dim, m), NextDim(dim, dims), dims)
    requires IsKdTree(r, Upper(pts, dim, m), NextDim(dim, dims), dims)
    requires n >= 2
    ensures IsKdTree(Split(dim, m, n, l, r), pts, dim, dims)
  {
    HalvesOrdered(pts, dim, m);
  }

  lemma {:induction false} BuildIsKdTree(pts: seq<Point>, dim: nat, dims: nat)
    requires dim < dims && Splits(pts, dim, dims)
    ensures IsKdTree(BuildTree(pts, dim, dims), pts, dim, dims)
    ensures BuildTree(pts, dim, dims) == Empty <==> pts == []
    decreases |pts|, Wait(pts, dim, dims)
  {
    if |pts| >= 2 {
      WaitDecreases(pts, dim, dims);
      var next := NextDim(dim, dims);
      var m := SampleMedian(pts, SampleEnd(|pts|), dim);
      BuildIsKdTree(LeftPart(pts, dim), next, dims);
      BuildIsKdTree(RightPart(pts, dim), next, dims);
      JoinKd(pts, dim, dims, m, SampleEnd(|pts|), BuildTree(LeftPart(pts, dim), next, dims), BuildTree(RightPart(pts, dim), next, dims));
    } else if |pts| == 1 {
      assert pts == [pts[0]];
    }
  }

  // ---- The root ----

  /** make_tree samples the first quarter whatever the size. Two or three points give an empty sample. */
  ghost predicate RootSplits(pts: seq<Point>, dims: nat)
    requires dims >= 1
  {
    |pts| == 1 || (
      && |pts| >= 4
      && (var m := SampleMedian(pts, |pts| / 4, 0);
          && Splits(Lower(pts, 0, m), NextDim(0, dims), dims)
          && Splits(Upper(pts, 0, m), NextDim(0, dims), dims)))
  }

  /** The tree make_tree leaves behind. The root's num_pts is the number of training points. */
  ghost function BuildRoot(pts: seq<Point>, dims: nat): Tree
    requires dims >= 1 && RootSplits(pts, dims)
  {
    if |pts| == 1 then Leaf(0, pts[0])
    else
      var m := SampleMedian(pts, |pts| / 4, 0);
      var next := NextDim(0, dims);
      Split(0, m, |pts|, BuildTree(Lower(pts, 0, m), next, dims), BuildTree(Upper(pts, 0, m), next, dims))
  }

  lemma BuildRootIsKdTree(pts: seq<Point>, dims: nat)
    requires dims >= 1 && RootSplits(pts, dims)
    ensures IsKdTree(BuildRoot(pts, dims), pts, 0, dims)
    ensures BuildRoot(pts, dims) != Empty
  {
    if |pts| == 1 {
      assert pts == [pts[0]];
    } else {
      var m := SampleMedian(pts, |pts| / 4, 0);
      var next := NextDim(0, dims);
      BuildIsKdTree(Lower(pts, 0, m), next, dims);
      BuildIsKdTree(Upper(pts, 0, m), next, dims);
      JoinKd(pts, 0, dims, m, |pts|, BuildTree(Lower(pts, 0, m), next, dims), BuildTree(Upper(pts, 0, m), next, dims));
    }
  }
}
