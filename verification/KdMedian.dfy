/** What the median of a split is, told by counting coordinates of the sample. */
module KdMedian {
  import opened Points
  import opened StableSort
  import opened KdTree
  import opened KdBalance

  /** How many of s have a coordinate less than v. */
  function Less(s: seq<Point>, d: nat, v: real): nat {
    if s == [] then 0 else (if Coord(s[0], d) < v then 1 else 0) + Less(s[1..], d, v)
  }

  /** How many of s have a coordinate of at most v. */
  function AtMost(s: seq<Point>, d: nat, v: real): nat {
    if s == [] then 0 else (if Coord(s[0], d) <= v then 1 else 0) + AtMost(s[1..], d, v)
  }

  /** v is the i-th smallest coordinate, counted from 0. */
  predicate Ranked(s: seq<Point>, d: nat, i: nat, v: real) {
    Less(s, d, v) <= i < AtMost(s, d, v)
  }

  lemma {:induction false} CountsMonotone(s: seq<Point>, d: nat, v: real, w: real)
    requires v < w
    ensures AtMost(s, d, v) <= Less(s, d, w)
  {
    if s != [] {
      CountsMonotone(s[1..], d, v, w);
    }
  }

  /** There is only one i-th smallest. */
  lemma RankedUnique(s: seq<Point>, d: nat, i: nat, v: real, w: real)
    requires Ranked(s, d, i, v) && Ranked(s, d, i, w)
    ensures v == w
  {
    if v < w {
      CountsMonotone(s, d, v, w);
    } else if w < v {
      CountsMonotone(s, d, w, v);
    }
  }

  // ---- Counting does not depend on the order ----

  lemma {:induction false} CountsAsParts(s: seq<Point>, d: nat, v: real)
    ensures Less(s, d, v) == |Lower(s, d, v)|
    ensures AtMost(s, d, v) == Less(s, d, v) + |WithKey(s, d, v)|
  {
    if s != [] {
      CountsAsParts(s[1..], d, v);
    }
  }

  lemma SameCounts(s: seq<Point>, a: seq<Point>, d: nat, v: real)
    requires StableSortOf(a, s, d)
    ensures Less(a, d, v) == Less(s, d, v) && AtMost(a, d, v) == AtMost(s, d, v)
  {
    CountsAsParts(s, d, v);
    CountsAsParts(a, d, v);
    LowerOfPermutation(a, s, d, v);
    assert WithKey(a, d, v) == WithKey(s, d, v);
  }

  lemma {:induction false} NoneLess(a: seq<Point>, d: nat, v: real)
    requires forall p :: p in a ==> Coord(p, d) >= v
    ensures Less(a, d, v) == 0
  {
    if a != [] {
      NoneLess(a[1..], d, v);
    }
  }

  lemma {:induction false} SortedRanks(a: seq<Point>, d: nat, i: nat)
    requires Sorted(a, d) && i < |a|
    ensures Ranked(a, d, i, Coord(a[i], d))
  {
    SortedHead(a, d);
    if i == 0 {
      NoneLess(a, d, Coord(a[0], d));
    } else {
      SortedRanks(a[1..], d, i - 1);
      assert a[1..][i - 1] == a[i];
    }
  }

  // ---- The median ----

  lemma MiddleExists(s: seq<Point>, d: nat) returns (lo: real, hi: real)
    requires s != []
    ensures Ranked(s, d, (|s| - 1) / 2, lo) && Ranked(s, d, |s| / 2, hi)
    ensures MergeSort(s, d) != [] && 2.0 * Median(MergeSort(s, d), d) == lo + hi
  {
    var a := MergeSort(s, d);
    MergeSortIsStable(s, d);
    lo, hi := Coord(a[(|s| - 1) / 2], d), Coord(a[|s| / 2], d);
    SortedRanks(a, d, (|s| - 1) / 2);
    SortedRanks(a, d, |s| / 2);
    SameCounts(s, a, d, lo);
    SameCounts(s, a, d, hi);
    MiddleElements(a, d);
  }

  lemma MiddleElements(a: seq<Point>, d: nat)
    requires a != []
    ensures 2.0 * Median(a, d) == Coord(a[(|a| - 1) / 2], d) + Coord(a[|a| / 2], d)
  {
    if |a| % 2 == 1 {
      assert (|a| - 1) / 2 == |a| / 2;
    } else {
      assert (|a| - 1) / 2 == |a| / 2 - 1;
    }
  }

  /** The median is half the sum of the lower and the upper middle coordinate of the sample, which
      are one and the same if the sample is odd. */
  lemma MedianExactly(pts: seq<Point>, end: nat, d: nat, lo: real, hi: real)
    requires 1 <= end <= |pts|
    requires Ranked(pts[..end], d, (end - 1) / 2, lo) && Ranked(pts[..end], d, end / 2, hi)
    ensures 2.0 * SampleMedian(pts, end, d) == lo + hi
  {
    var s := pts[..end];
    var lo', hi' := MiddleExists(s, d);
    RankedUnique(s, d, (end - 1) / 2, lo, lo');
    RankedUnique(s, d, end / 2, hi, hi');
  }

  /** An inner node: it splits in the dimension of its call, at the middle of all its points if they
      are fewer than 100 and of the first quarter otherwise, and records how many points it looked at. */
  lemma InnerNodeExactly(pts: seq<Point>, dim: nat, dims: nat, sample: seq<Point>, lo: real, hi: real)
    requires dim < dims && Splits(pts, dim, dims) && |pts| >= 2
    requires sample == if |pts| < 100 then pts else pts[..|pts| / 4]
    requires Ranked(sample, dim, (|sample| - 1) / 2, lo) && Ranked(sample, dim, |sample| / 2, hi)
    ensures var t := BuildTree(pts, dim, dims);
      t.Split? && t.dim == dim && t.numPts == |sample| && 2.0 * t.median == lo + hi
  {
    assert pts[..|pts|] == pts;
    MedianExactly(pts, |sample|, dim, lo, hi);
    InnerTree(pts, dim, dims);
  }

  /** The root: it splits in dimension 0 at the middle of the first quarter, and records the number of
      all points. */
  lemma RootNodeExactly(pts: seq<Point>, dims: nat, lo: real, hi: real)
    requires dims >= 1 && RootSplits(pts, dims) && |pts| >= 4
    requires var n := |pts| / 4;
      Ranked(pts[..n], 0, (n - 1) / 2, lo) && Ranked(pts[..n], 0, n / 2, hi)
    ensures var t := BuildRoot(pts, dims);
      t.Split? && t.dim == 0 && t.numPts == |pts| && 2.0 * t.median == lo + hi
  {
    MedianExactly(pts, |pts| / 4, 0, lo, hi);
  }
}
