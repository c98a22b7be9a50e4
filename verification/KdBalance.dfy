/** What pairwise distinct coordinates guarantee: the recursion terminates, and the tree is balanced. */
module KdBalance {
  import opened Points
  import opened Sequences
  import opened StableSort
  import opened KdTree

  ghost predicate Distinct(pts: seq<Point>, d: nat) {
    forall i, j :: 0 <= i < j < |pts| ==> Coord(pts[i], d) != Coord(pts[j], d)
  }

  lemma {:induction false} DistinctKeys(pts: seq<Point>, d: nat)
    requires Distinct(pts, d)
    ensures forall v :: |WithKey(pts, d, v)| <= 1
  {
    if pts != [] {
      var t := pts[1..];
      DistinctKeys(t, d);
      forall v ensures |WithKey(pts, d, v)| <= 1 {
        WithKeyMember(t, d, v);
        if WithKey(t, d, v) != [] {
          var i :| 0 <= i < |t| && Coord(t[i], d) == v;
          assert Coord(pts[0], d) != Coord(pts[i + 1], d);
        }
      }
    }
  }

  lemma {:induction false} KeysDistinct(pts: seq<Point>, d: nat)
    requires forall v :: |WithKey(pts, d, v)| <= 1
    ensures Distinct(pts, d)
  {
    if pts != [] {
      var t, v := pts[1..], Coord(pts[0], d);
      forall w ensures |WithKey(t, d, w)| <= 1 {
        assert |WithKey(pts, d, w)| <= 1;
      }
      KeysDistinct(t, d);
      assert |WithKey(pts, d, v)| <= 1;
      WithKeyMember(t, d, v);
      forall i, j | 0 <= i < j < |pts| ensures Coord(pts[i], d) != Coord(pts[j], d) {
        assert pts[j] == t[j - 1];
        assert i > 0 ==> pts[i] == t[i - 1];
      }
    }
  }

  lemma {:induction false} LowerConcat(x: seq<Point>, y: seq<Point>, d: nat, m: real)
    ensures Lower(x + y, d, m) == Lower(x, d, m) + Lower(y, d, m)
  {
    if x == [] {
      assert x + y == y;
    } else {
      LowerConcat(x[1..], y, d, m);
      Tail(x, y);
      Associative(if Coord(x[0], d) < m then [x[0]] else [], Lower(x[1..], d, m), Lower(y, d, m));
    }
  }

  lemma {:induction false} LowerCount(s: seq<Point>, d: nat, m: real, p: Point)
    ensures multiset(Lower(s, d, m))[p] == if Coord(p, d) < m then multiset(s)[p] else 0
  {
    if s != [] {
      LowerCount(s[1..], d, m, p);
      assert s == [s[0]] + s[1..];
    }
  }

  lemma LowerOfPermutation(s: seq<Point>, t: seq<Point>, d: nat, m: real)
    requires multiset(s) == multiset(t)
    ensures |Lower(s, d, m)| == |Lower(t, d, m)|
  {
    forall p ensures multiset(Lower(s, d, m))[p] == multiset(Lower(t, d, m))[p] {
      LowerCount(s, d, m, p);
      LowerCount(t, d, m, p);
    }
    assert multiset(Lower(s, d, m)) == multiset(Lower(t, d, m));
    assert |multiset(Lower(s, d, m))| == |multiset(Lower(t, d, m))|;
  }

  lemma SortedHalves(a: seq<Point>, d: nat)
    requires a != [] && Sorted(a, d) && Distinct(a, d)
    ensures |Lower(a, d, Median(a, d))| == |a| / 2
  {
    var m, h := Median(a, d), |a| / 2;
    forall i, j | 0 <= i < j < |a| ensures Coord(a[i], d) < Coord(a[j], d) {
    }
    forall i | 0 <= i < h ensures Coord(a[i], d) < m {
      assert Coord(a[i], d) < Coord(a[h], d);
      assert i < h - 1 ==> Coord(a[i], d) < Coord(a[h - 1], d);
    }
    forall i | h <= i < |a| ensures Coord(a[i], d) >= m {
      assert h < i ==> Coord(a[h], d) < Coord(a[i], d);
      assert h >= 1 ==> Coord(a[h - 1], d) < Coord(a[i], d);
    }
    LowerPrefix(a, h, d, m);
  }

  lemma LowerPrefix(a: seq<Point>, h: nat, d: nat, m: real)
    requires h <= |a|
    requires forall i :: 0 <= i < h ==> Coord(a[i], d) < m
    requires forall i :: h <= i < |a| ==> Coord(a[i], d) >= m
    ensures |Lower(a, d, m)| == h
  {
    var x, y := a[..h], a[h..];
    assert a == x + y;
    LowerConcat(x, y, d, m);
    PartitionMultiset(x, d, m);
    PartitionMultiset(y, d, m);
    EmptyByMembers(Upper(x, d, m));
    EmptyByMembers(Lower(y, d, m));
  }

  /** With distinct coordinates exactly half the sample, rounded down, lies below its median. */
  lemma SampleHalves(pts: seq<Point>, end: nat, d: nat)
    requires 1 <= end <= |pts| && Distinct(pts, d)
    ensures |Lower(pts[..end], d, SampleMedian(pts, end, d))| == end / 2
  {
    var s := pts[..end];
    MergeSortIsStable(s, d);
    DistinctKeys(s, d);
    KeysDistinct(MergeSort(s, d), d);
    SortedHalves(MergeSort(s, d), d);
    LowerOfPermutation(s, MergeSort(s, d), d, SampleMedian(pts, end, d));
  }

  lemma EmptyByMembers(s: seq<Point>)
    ensures (forall p :: p !in s) ==> s == []
  {
    if s != [] {
      assert s[0] in s;
    }
  }

  /** Each half of the whole vector holds at least its half of the sample. */
  lemma HalvesAtLeast(pts: seq<Point>, end: nat, d: nat)
    requires 1 <= end <= |pts| && Distinct(pts, d)
    ensures var m := SampleMedian(pts, end, d);
      && end / 2 <= |Lower(pts, d, m)| && end - end / 2 <= |Upper(pts, d, m)|
      && |Lower(pts, d, m)| + |Upper(pts, d, m)| == |pts|
  {
    var m := SampleMedian(pts, end, d);
    SampleHalves(pts, end, d);
    assert pts == pts[..end] + pts[end..];
    LowerConcat(pts[..end], pts[end..], d, m);
    PartitionMultiset(pts[end..], d, m);
    PartitionMultiset(pts, d, m);
  }

  lemma DistinctTail(pts: seq<Point>, e: nat)
    requires pts != [] && Distinct(pts, e)
    ensures Distinct(pts[1..], e) && forall p :: p in pts[1..] ==> Coord(p, e) != Coord(pts[0], e)
  {
  }

  lemma {:induction false} DistinctPart(pts: seq<Point>, d: nat, e: nat, m: real)
    requires Distinct(pts, e)
    ensures Distinct(Lower(pts, d, m), e) && Distinct(Upper(pts, d, m), e)
  {
    if pts != [] {
      var t := pts[1..];
      DistinctTail(pts, e);
      DistinctPart(t, d, e, m);
      PartitionMultiset(t, d, m);
      DistinctCons(pts[0], Lower(t, d, m), e);
      DistinctCons(pts[0], Upper(t, d, m), e);
    }
  }

  lemma DistinctCons(p: Point, s: seq<Point>, e: nat)
    requires Distinct(s, e)
    ensures (forall q :: q in s ==> Coord(q, e) != Coord(p, e)) ==> Distinct([p] + s, e)
  {
    if forall q :: q in s ==> Coord(q, e) != Coord(p, e) {
      var t := [p] + s;
      forall i, j | 0 <= i < j < |t| ensures Coord(t[i], e) != Coord(t[j], e) {
        assert t[j] == s[j - 1];
        assert i > 0 ==> t[i] == s[i - 1];
      }
    }
  }

  // ---- Termination ----

  /** One dimension with pairwise distinct coordinates is enough for the recursion to terminate. */
  lemma {:induction false} DistinctSplits(pts: seq<Point>, e: nat, dim: nat, dims: nat)
    requires dim < dims && e < dims && Distinct(pts, e)
    ensures Splits(pts, dim, dims)
    decreases |pts|, Wait(pts, dim, dims)
  {
    if |pts| >= 2 {
      HalvesAtLeast(pts, SampleEnd(|pts|), e);
      assert LeftPart(pts, e) != [];
      assert !Stuck(pts, dims);
      WaitDecreases(pts, dim, dims);
      DistinctPart(pts, dim, e, SampleMedian(pts, SampleEnd(|pts|), dim));
      DistinctSplits(LeftPart(pts, dim), e, NextDim(dim, dims), dims);
      DistinctSplits(RightPart(pts, dim), e, NextDim(dim, dims), dims);
    }
  }

  lemma DistinctRootSplits(pts: seq<Point>, e: nat, dims: nat)
    requires e < dims && Distinct(pts, e) && (|pts| == 1 || |pts| >= 4)
    ensures RootSplits(pts, dims)
  {
    if |pts| >= 4 {
      var m := SampleMedian(pts, |pts| / 4, 0);
      DistinctPart(pts, 0, e, m);
      DistinctSplits(Lower(pts, 0, m), e, NextDim(0, dims), dims);
      DistinctSplits(Upper(pts, 0, m), e, NextDim(0, dims), dims);
    }
  }

  /** Distinct points are not enough: of (1,1), (1,2), (2,1) the median equals the minimum in both
      dimensions, and the call never returns. */
  lemma DistinctPointsMayNeverSplit(fuel: nat, dim: nat)
    requires dim < 2
    ensures var pts := [[1.0, 1.0], [1.0, 2.0], [2.0, 1.0]];
      && pts[0] != pts[1] && pts[0] != pts[2] && pts[1] != pts[2]
      && BuildWithin(pts, dim, 2, fuel) == OutOfFuel
  {
    var pts: seq<Point> := [[1.0, 1.0], [1.0, 2.0], [2.0, 1.0]];
    assert pts[0][1] != pts[1][1] && pts[0][0] != pts[2][0] && pts[1][0] != pts[2][0];
    forall d: nat | d < 2 ensures LeftPart(pts, d) == [] {
      assert pts[..3] == pts;
      assert pts[1..] == [[1.0, 2.0], [2.0, 1.0]] && pts[1..][1..] == [[2.0, 1.0]] && pts[1..][1..][1..] == [];
      TwoLowest(pts, d);
      PartitionMultiset(pts, d, SampleMedian(pts, 3, d));
      EmptyByMembers(LeftPart(pts, d));
    }
    assert Stuck(pts, 2);
    StuckNeverFinishes(pts, dim, 2, fuel);
  }

  lemma TwoLowest(pts: seq<Point>, d: nat)
    requires |pts| == 3 && (forall p :: p in pts ==> Coord(p, d) >= 1.0) && |WithKey(pts, d, 1.0)| == 2
    ensures SampleMedian(pts, 3, d) == 1.0
  {
    assert pts[..3] == pts;
    MergeSortIsStable(pts, d);
    var a := MergeSort(pts, d);
    assert WithKey(a, d, 1.0) == WithKey(pts, d, 1.0);
    assert a[0] in multiset(pts) && a[1] in multiset(pts);
    if Coord(a[1], d) > 1.0 {
      assert forall p :: p in a[1..] ==> Coord(p, d) != 1.0;
      WithKeyAbsent(a[1..], d, 1.0);
    }
  }

  // ---- Balance ----

  ghost predicate AllDistinct(pts: seq<Point>, dims: nat) {
    forall e: nat :: e < dims ==> Distinct(pts, e)
  }

  lemma AllDistinctParts(pts: seq<Point>, dim: nat, dims: nat)
    requires |pts| >= 2 && AllDistinct(pts, dims)
    ensures AllDistinct(LeftPart(pts, dim), dims) && AllDistinct(RightPart(pts, dim), dims)
  {
    forall e: nat | e < dims
      ensures Distinct(LeftPart(pts, dim), e) && Distinct(RightPart(pts, dim), e)
    {
      DistinctPart(pts, dim, e, SampleMedian(pts, SampleEnd(|pts|), dim));
    }
  }

  function Pow(b: nat, e: nat): nat {
    if e == 0 then 1 else b * Pow(b, e - 1)
  }

  /** Below 100 points the call splits into the two halves exactly. */
  lemma SmallSplit(pts: seq<Point>, dim: nat)
    requires 2 <= |pts| < 100 && Distinct(pts, dim)
    ensures |LeftPart(pts, dim)| == |pts| / 2 && |RightPart(pts, dim)| == |pts| - |pts| / 2
  {
    var m := SampleMedian(pts, |pts|, dim);
    assert pts[..|pts|] == pts;
    SampleHalves(pts, |pts|, dim);
    PartitionMultiset(pts, dim, m);
  }

  /** Fewer than 100 points make a tree of height at most ceil(log2 n): any h with n <= 2^h bounds it. */
  lemma {:induction false} HeightBound(pts: seq<Point>, dim: nat, dims: nat, h: nat)
    requires dim < dims && AllDistinct(pts, dims) && Splits(pts, dim, dims)
    requires |pts| < 100 && |pts| <= Pow(2, h)
    ensures BuildTree(pts, dim, dims).Height() <= h
    decreases h
  {
    if |pts| >= 2 {
      SmallSplit(pts, dim);
      AllDistinctParts(pts, dim, dims);
      HeightBound(LeftPart(pts, dim), NextDim(dim, dims), dims, h - 1);
      HeightBound(RightPart(pts, dim), NextDim(dim, dims), dims, h - 1);
    }
  }

  /** From 100 points on the sample is a quarter, and each side keeps at least an eighth. */
  lemma LargeSplit(pts: seq<Point>, dim: nat)
    requires |pts| >= 100 && Distinct(pts, dim)
    ensures |pts| / 8 <= |LeftPart(pts, dim)| <= |pts| - |pts| / 8
    ensures |pts| / 8 <= |RightPart(pts, dim)| <= |pts| - |pts| / 8
    ensures 8 * (|LeftPart(pts, dim)| - 7) <= 7 * (|pts| - 7)
    ensures 8 * (|RightPart(pts, dim)| - 7) <= 7 * (|pts| - 7)
  {
    HalvesAtLeast(pts, |pts| / 4, dim);
    assert |pts| / 4 / 2 == |pts| / 8;
  }

  function Part(pts: seq<Point>, dim: nat, right: bool): seq<Point>
    requires |pts| >= 2
  {
    if right then RightPart(pts, dim) else LeftPart(pts, dim)
  }

  /** Every call on the way down the path holds at least 100 points. */
  predicate LargePath(pts: seq<Point>, dim: nat, dims: nat, path: seq<bool>)
    decreases |path|
  {
    path == [] || (|pts| >= 100 && LargePath(Part(pts, dim, path[0]), NextDim(dim, dims), dims, path[1..]))
  }

  /** The points of the call at the end of the path. */
  function AtPath(pts: seq<Point>, dim: nat, dims: nat, path: seq<bool>): seq<Point>
    requires LargePath(pts, dim, dims, path)
    decreases |path|
  {
    if path == [] then pts else AtPath(Part(pts, dim, path[0]), NextDim(dim, dims), dims, path[1..])
  }

  lemma LargeChild(pts: seq<Point>, dim: nat, dims: nat, right: bool)
    requires dim < dims && AllDistinct(pts, dims) && |pts| >= 100
    ensures AllDistinct(Part(pts, dim, right), dims)
    ensures 8 * (|Part(pts, dim, right)| - 7) <= 7 * (|pts| - 7)
  {
    LargeSplit(pts, dim);
    AllDistinctParts(pts, dim, dims);
  }

  /** A part of size s is small enough to lie t levels below n points: 8^t (s - 7) <= 7^t (n - 7). */
  predicate Shrunk(t: nat, s: nat, n: nat) {
    Pow(8, t) * (s - 7) <= Pow(7, t) * (n - 7)
  }

  lemma ShrunkMore(t: nat, s: nat, c: nat, n: nat)
    requires Shrunk(t, s, c) && 8 * (c - 7) <= 7 * (n - 7)
    ensures Shrunk(t + 1, s, n)
  {
    ScaleUp(Pow(8, t), Pow(8, t + 1), Pow(7, t), Pow(7, t + 1), s - 7, c - 7, n - 7);
  }

  /** t levels down, with every ancestor large, s of n points remain: 8^t (s - 7) <= 7^t (n - 7). */
  lemma {:induction false} Contraction(pts: seq<Point>, dim: nat, dims: nat, path: seq<bool>)
    requires dim < dims && AllDistinct(pts, dims) && LargePath(pts, dim, dims, path)
    ensures Shrunk(|path|, |AtPath(pts, dim, dims, path)|, |pts|)
    decreases |path|
  {
    if path != [] {
      var child, next := Part(pts, dim, path[0]), NextDim(dim, dims);
      LargeChild(pts, dim, dims, path[0]);
      Contraction(child, next, dims, path[1..]);
      ShrunkMore(|path| - 1, |AtPath(child, next, dims, path[1..])|, |child|, |pts|);
    }
  }

  lemma ScaleUp(p: nat, p': nat, q: nat, q': nat, s: int, c: int, n: int)
    requires p * s <= q * c && 8 * c <= 7 * n && p' == 8 * p && q' == 7 * q
    ensures p' * s <= q' * n
  {
    assert p' * s == 8 * (p * s);
    assert q * (8 * c) <= q * (7 * n);
    assert q * (8 * c) == 8 * (q * c);
    assert q' * n == q * (7 * n);
  }
}
