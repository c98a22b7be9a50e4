/** What a caller can tell of the termination of the build from the training points alone. */
module KdTermination {
  import opened Points
  import opened StableSort
  import opened KdTree
  import opened KdBalance

  // ---- When one dimension fails to separate ----

  /** More than half of the sample has one and the same coordinate in d, and no point lies below it. */
  ghost predicate Crowded(pts: seq<Point>, d: nat)
    requires |pts| >= 2
  {
    exists v :: MostAt(pts[..SampleEnd(|pts|)], d, v) && forall p :: p in pts ==> Coord(p, d) >= v
  }

  predicate MostAt(s: seq<Point>, d: nat, v: real) {
    2 * |WithKey(s, d, v)| > |s|
  }

  /** In a sorted vector the elements with the least key come first. */
  lemma {:induction false} LeastFirst(a: seq<Point>, d: nat, v: real)
    requires Sorted(a, d) && forall p :: p in a ==> Coord(p, d) >= v
    ensures forall i :: 0 <= i < |a| ==> (Coord(a[i], d) == v <==> i < |WithKey(a, d, v)|)
  {
    if a != [] {
      if Coord(a[0], d) == v {
        LeastFirst(a[1..], d, v);
        forall i | 0 <= i < |a| ensures Coord(a[i], d) == v <==> i < |WithKey(a, d, v)| {
          assert i > 0 ==> a[i] == a[1..][i - 1];
        }
      } else {
        WithKeyAbsent(a, d, v);
      }
    }
  }

  /** The median of a sorted vector is its least key exactly if more than half have that key. */
  lemma LeastMedian(a: seq<Point>, d: nat, v: real)
    requires a != [] && Sorted(a, d) && forall p :: p in a ==> Coord(p, d) >= v
    ensures Median(a, d) == v <==> MostAt(a, d, v)
  {
    LeastFirst(a, d, v);
    var h := |a| / 2;
    assert |a| % 2 == 0 ==> v <= Coord(a[h - 1], d) <= Coord(a[h], d);
  }

  /** The left side of a call is empty exactly when its dimension is crowded. */
  lemma LeftEmptyExactly(pts: seq<Point>, d: nat)
    requires |pts| >= 2
    ensures LeftPart(pts, d) == [] <==> Crowded(pts, d)
  {
    var s := pts[..SampleEnd(|pts|)];
    var a, m := MergeSort(s, d), SampleMedian(pts, SampleEnd(|pts|), d);
    MergeSortIsStable(s, d);
    PartitionMultiset(pts, d, m);
    EmptyByMembers(LeftPart(pts, d));
    SampleMembers(pts, a, d);
    if LeftPart(pts, d) == [] {
      LeastMedian(a, d, m);
      assert WithKey(a, d, m) == WithKey(s, d, m) && MostAt(s, d, m);
    }
    if v :| MostAt(s, d, v) && forall p :: p in pts ==> Coord(p, d) >= v {
      assert WithKey(a, d, v) == WithKey(s, d, v) && MostAt(a, d, v);
      LeastMedian(a, d, v);
    }
  }

  lemma SampleMembers(pts: seq<Point>, a: seq<Point>, d: nat)
    requires |pts| >= 2 && multiset(a) == multiset(pts[..SampleEnd(|pts|)])
    ensures forall p :: p in a ==> p in pts
  {
    forall p | p in a ensures p in pts {
      assert p in multiset(a);
    }
  }

  /** A call goes round the dimensions for ever exactly when all of them are crowded. */
  lemma StuckExactly(pts: seq<Point>, dims: nat)
    requires |pts| >= 2
    ensures Stuck(pts, dims) <==> forall d :: 0 <= d < dims ==> Crowded(pts, d)
  {
    forall d | 0 <= d < dims ensures LeftPart(pts, d) == [] <==> Crowded(pts, d) {
      LeftEmptyExactly(pts, d);
    }
  }

  // ---- No point may occur twice ----

  lemma PartCount(pts: seq<Point>, d: nat, m: real, p: Point)
    ensures multiset(Lower(pts, d, m))[p] == (if Coord(p, d) < m then multiset(pts)[p] else 0)
    ensures multiset(Upper(pts, d, m))[p] == (if Coord(p, d) < m then 0 else multiset(pts)[p])
  {
    PartitionMultiset(pts, d, m);
    LowerCount(pts, d, m, p);
  }

  /** Two equal points always end up on the same side, so where the recursion terminates there are none. */
  lemma {:induction false} SplitsNeedsDistinctPoints(pts: seq<Point>, dim: nat, dims: nat, p: Point)
    requires dim < dims && Splits(pts, dim, dims)
    ensures multiset(pts)[p] <= 1
    decreases |pts|, Wait(pts, dim, dims)
  {
    if |pts| >= 2 {
      WaitDecreases(pts, dim, dims);
      var next := NextDim(dim, dims);
      PartCount(pts, dim, SampleMedian(pts, SampleEnd(|pts|), dim), p);
      SplitsNeedsDistinctPoints(LeftPart(pts, dim), next, dims, p);
      SplitsNeedsDistinctPoints(RightPart(pts, dim), next, dims, p);
    } else if |pts| == 1 {
      assert pts == [pts[0]];
    }
  }

  lemma EqualPoints(pts: seq<Point>, i: nat, j: nat)
    requires i < j < |pts| && pts[i] == pts[j]
    ensures multiset(pts)[pts[i]] >= 2
  {
    assert pts == pts[..j] + [pts[j]] + pts[j + 1..];
    assert pts[i] in pts[..j];
    assert pts[i] in multiset(pts[..j]);
  }

  lemma OneCoordinate(pts: seq<Point>)
    requires Shaped(pts, 1) && forall p :: multiset(pts)[p] <= 1
    ensures Distinct(pts, 0)
  {
    forall i, j | 0 <= i < j < |pts| ensures Coord(pts[i], 0) != Coord(pts[j], 0) {
      if Coord(pts[i], 0) == Coord(pts[j], 0) {
        assert pts[i] == pts[j];
        EqualPoints(pts, i, j);
      }
    }
  }

  /** In one dimension the recursion terminates if and only if the points are pairwise distinct. */
  lemma OneDimensionTerminatesExactly(pts: seq<Point>)
    requires Shaped(pts, 1)
    ensures (exists fuel: nat :: BuildWithin(pts, 0, 1, fuel).Finished?) <==> Distinct(pts, 0)
  {
    TerminatesExactly(pts, 0, 1);
    if Splits(pts, 0, 1) {
      forall p ensures multiset(pts)[p] <= 1 {
        SplitsNeedsDistinctPoints(pts, 0, 1, p);
      }
      OneCoordinate(pts);
    }
    if Distinct(pts, 0) {
      DistinctSplits(pts, 0, 0, 1);
    }
  }

  // ---- make_tree ----

  /** make_tree with at most fuel nested calls below each root task. */
  function RootWithin(pts: seq<Point>, dims: nat, fuel: nat): Outcome
    requires |pts| == 1 || |pts| >= 4
  {
    if |pts| == 1 then Finished(Leaf(0, pts[0]))
    else
      var m := SampleMedian(pts, |pts| / 4, 0);
      var l := BuildWithin(Lower(pts, 0, m), NextDim(0, dims), dims, fuel);
      var r := BuildWithin(Upper(pts, 0, m), NextDim(0, dims), dims, fuel);
      if l.Finished? && r.Finished? then Finished(Split(0, m, |pts|, l.tree, r.tree)) else OutOfFuel
  }

  lemma RootSplitsFinishes(pts: seq<Point>, dims: nat) returns (fuel: nat)
    requires dims >= 1 && RootSplits(pts, dims)
    ensures RootWithin(pts, dims, fuel) == Finished(BuildRoot(pts, dims))
  {
    fuel := 0;
    if |pts| >= 4 {
      var m, next := SampleMedian(pts, |pts| / 4, 0), NextDim(0, dims);
      var f := SplitsFinishes(Lower(pts, 0, m), next, dims);
      var g := SplitsFinishes(Upper(pts, 0, m), next, dims);
      fuel := f + g;
      MoreFuel(Lower(pts, 0, m), next, dims, f, fuel);
      MoreFuel(Upper(pts, 0, m), next, dims, g, fuel);
    }
  }

  /** make_tree terminates on a sample that is not empty exactly when RootSplits holds, and then it
      builds BuildRoot. */
  lemma RootTerminatesExactly(pts: seq<Point>, dims: nat)
    requires dims >= 1 && (|pts| == 1 || |pts| >= 4)
    ensures (exists fuel: nat :: RootWithin(pts, dims, fuel).Finished?) <==> RootSplits(pts, dims)
    ensures RootSplits(pts, dims) ==> exists fuel: nat :: RootWithin(pts, dims, fuel) == Finished(BuildRoot(pts, dims))
  {
    if fuel: nat :| RootWithin(pts, dims, fuel).Finished? {
      if |pts| >= 4 {
        var m := SampleMedian(pts, |pts| / 4, 0);
        FinishesSplits(Lower(pts, 0, m), NextDim(0, dims), dims, fuel);
        FinishesSplits(Upper(pts, 0, m), NextDim(0, dims), dims, fuel);
      }
    }
    if RootSplits(pts, dims) {
      var fuel := RootSplitsFinishes(pts, dims);
    }
  }

  /** No training point may occur twice. */
  lemma RootNeedsDistinctPoints(pts: seq<Point>, dims: nat, p: Point)
    requires dims >= 1 && RootSplits(pts, dims)
    ensures multiset(pts)[p] <= 1
  {
    if |pts| >= 4 {
      var m := SampleMedian(pts, |pts| / 4, 0);
      PartCount(pts, 0, m, p);
      SplitsNeedsDistinctPoints(Lower(pts, 0, m), NextDim(0, dims), dims, p);
      SplitsNeedsDistinctPoints(Upper(pts, 0, m), NextDim(0, dims), dims, p);
    } else {
      assert pts == [pts[0]];
    }
  }

  /** Read off the input: with one dimension make_tree succeeds if and only if there are one or at least
      four points, pairwise distinct. */
  lemma OneDimensionRootExactly(pts: seq<Point>)
    requires Shaped(pts, 1)
    ensures RootSplits(pts, 1) <==> (|pts| == 1 || |pts| >= 4) && Distinct(pts, 0)
  {
    if RootSplits(pts, 1) {
      forall p ensures multiset(pts)[p] <= 1 {
        RootNeedsDistinctPoints(pts, 1, p);
      }
      OneCoordinate(pts);
    } else if (|pts| == 1 || |pts| >= 4) && Distinct(pts, 0) {
      DistinctRootSplits(pts, 0, 1);
    }
  }
}
