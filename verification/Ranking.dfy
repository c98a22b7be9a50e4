/** The k nearest without any sorting: by how many points are nearer. */
module Ranking {
  import opened Points
  import opened Sequences
  import opened KdTree
  import opened Nearest
  import opened Euclid
  import opened BruteForce

  /** How many of the points are less than r from q, in squared Euclidean distance. */
  function Nearer(pts: seq<Point>, q: Point, r: real, dims: nat): nat {
    if pts == [] then 0 else (if Apart(q, pts[0], dims) < r then 1 else 0) + Nearer(pts[1..], q, r, dims)
  }

  /** How many of the points are at most r from q. */
  function AsNear(pts: seq<Point>, q: Point, r: real, dims: nat): nat {
    if pts == [] then 0 else (if Apart(q, pts[0], dims) <= r then 1 else 0) + AsNear(pts[1..], q, r, dims)
  }

  // ---- The same counts in a list of neighbours ----

  function Below(b: seq<Neighbor>, r: real): nat {
    if b == [] then 0 else (if b[0].distance < r then 1 else 0) + Below(b[1..], r)
  }

  function Within(b: seq<Neighbor>, r: real): nat {
    if b == [] then 0 else (if b[0].distance <= r then 1 else 0) + Within(b[1..], r)
  }

  lemma {:induction false} CountsConcat(a: seq<Neighbor>, b: seq<Neighbor>, r: real)
    ensures Below(a + b, r) == Below(a, r) + Below(b, r) && Within(a + b, r) == Within(a, r) + Within(b, r)
  {
    if a == [] {
      assert a + b == b;
    } else {
      CountsConcat(a[1..], b, r);
      Tail(a, b);
    }
  }

  lemma CountsWithout(b: seq<Neighbor>, i: nat, r: real)
    requires i < |b|
    ensures var rest := b[..i] + b[i + 1..];
      && Below(b, r) == Below(rest, r) + (if b[i].distance < r then 1 else 0)
      && Within(b, r) == Within(rest, r) + (if b[i].distance <= r then 1 else 0)
  {
    assert b == b[..i] + b[i..] && b[i..][1..] == b[i + 1..];
    CountsConcat(b[..i], b[i..], r);
    CountsConcat(b[..i], b[i + 1..], r);
  }

  lemma {:induction false} SameCounts(a: seq<Neighbor>, b: seq<Neighbor>, r: real)
    requires multiset(a) == multiset(b)
    ensures Below(a, r) == Below(b, r) && Within(a, r) == Within(b, r)
    decreases |a|
  {
    if a == [] {
      assert |multiset(b)| == 0;
    } else {
      assert a[0] in multiset(b);
      var i :| 0 <= i < |b| && b[i] == a[0];
      RemoveFirst(a, b, i);
      SameCounts(a[1..], b[..i] + b[i + 1..], r);
      CountsWithout(b, i, r);
    }
  }

  lemma {:induction false} NoneBelow(b: seq<Neighbor>, r: real)
    requires forall i :: 0 <= i < |b| ==> b[i].distance >= r
    ensures Below(b, r) == 0
  {
    if b != [] {
      NoneBelow(b[1..], r);
    }
  }

  lemma {:induction false} AscendingRanks(b: seq<Neighbor>, j: nat)
    requires Ascending(b) && j < |b|
    ensures Below(b, b[j].distance) <= j < Within(b, b[j].distance)
  {
    if j == 0 {
      NoneBelow(b, b[0].distance);
    } else {
      AscendingRanks(b[1..], j - 1);
      assert b[1..][j - 1] == b[j];
    }
  }

  lemma {:induction false} ScanCounts(q: Query, pts: seq<Point>, r: real)
    requires Exact(q.rnd)
    ensures Below(Scan(q, pts), r) == Nearer(pts, q.point, r, q.dims)
    ensures Within(Scan(q, pts), r) == AsNear(pts, q.point, r, q.dims)
  {
    if pts == [] {
      assert Scan(q, pts) == [];
    } else {
      DistanceIsEuclidean(q, pts[0]);
      ScanCounts(q, pts[1..], r);
      assert Scan(q, pts)[1..] == Scan(q, pts[1..]);
    }
  }

  /** A point as near as the j-th of an ascending scan has at most j points nearer and more than j as near. */
  lemma RankOfResult(q: Query, pts: seq<Point>, b: seq<Neighbor>, j: nat, p: Point)
    requires Exact(q.rnd) && SortedScan(b, q, pts) && j < |b| && q.Key(p) == b[j].distance
    ensures Nearer(pts, q.point, Apart(q.point, p, q.dims), q.dims) <= j
    ensures j < AsNear(pts, q.point, Apart(q.point, p, q.dims), q.dims)
  {
    DistanceIsEuclidean(q, p);
    AscendingRanks(b, j);
    SameCounts(b, Scan(q, pts), b[j].distance);
    ScanCounts(q, pts, b[j].distance);
  }

  // ---- The points of a list of neighbours ----

  function PointsOf(r: seq<Neighbor>): seq<Point> {
    if r == [] then [] else [r[0].point] + PointsOf(r[1..])
  }

  lemma {:induction false} PointsOfAt(r: seq<Neighbor>)
    ensures |PointsOf(r)| == |r| && forall i :: 0 <= i < |r| ==> PointsOf(r)[i] == r[i].point
  {
    if r != [] {
      PointsOfAt(r[1..]);
    }
  }

  lemma {:induction false} PointCount(r: seq<Neighbor>, q: Query, p: Point)
    requires forall n :: n in r ==> n == q.At(n.point)
    ensures multiset(PointsOf(r))[p] == multiset(r)[q.At(p)]
  {
    if r != [] {
      PointCount(r[1..], q, p);
      Elements(r);
      Elements(PointsOf(r));
      assert PointsOf(r)[1..] == PointsOf(r[1..]);
    }
  }

  /** Neighbours taken from the training points, each at most as often as it is there. */
  lemma PointsTaken(r: seq<Neighbor>, q: Query, pts: seq<Point>)
    requires multiset(r) <= multiset(Scan(q, pts))
    ensures multiset(PointsOf(r)) <= multiset(pts)
  {
    forall n | n in r ensures n == q.At(n.point) {
      assert n in multiset(r);
      ScanCount(q, pts, n);
    }
    forall p ensures multiset(PointsOf(r))[p] <= multiset(pts)[p] {
      PointCount(r, q, p);
      ScanCount(q, pts, q.At(p));
    }
  }
}
