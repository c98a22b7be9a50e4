/** What the distance is: the squared Euclidean distance, with every operation rounded. */
module Euclid {
  import opened Points
  import opened Nearest

  /** Inner product over the first n coordinates. */
  function Dot(x: Point, y: Point, n: nat): real {
    if n == 0 then 0.0 else Dot(x, y, n - 1) + Coord(x, n - 1) * Coord(y, n - 1)
  }

  /** |x - y| squared, multiplied out. */
  function Apart(x: Point, y: Point, dims: nat): real {
    Dot(x, x, dims) - 2.0 * Dot(x, y, dims) + Dot(y, y, dims)
  }

  ghost predicate Exact(rnd: real -> real) {
    forall x :: rnd(x) == x
  }

  lemma SquareOfDifference(a: real, b: real)
    ensures (a - b) * (a - b) == a * a - 2.0 * (a * b) + b * b
  {
  }

  /** Without rounding the distance of p is |query - p| squared. */
  lemma {:induction false} DistanceIsEuclidean(q: Query, p: Point)
    requires Exact(q.rnd)
    ensures q.Key(p) == Dot(q.point, q.point, q.dims) - 2.0 * Dot(q.point, p, q.dims) + Dot(p, p, q.dims)
    decreases q.dims
  {
    if q.dims > 0 {
      DistanceIsEuclidean(q.(dims := q.dims - 1), p);
      OneMoreDimension(q.point, q.dims - 1, q.k, q.rnd, p);
      assert q == Query(q.point, q.dims - 1 + 1, q.k, q.rnd);
      SquareOfDifference(Coord(q.point, q.dims - 1), Coord(p, q.dims - 1));
    }
  }

  lemma {:induction false} SumOfFewer(q: Query, q': Query, p: Point, i: nat)
    requires q.point == q'.point && q.rnd == q'.rnd
    ensures q.Sum(p, i) == q'.Sum(p, i)
  {
    if i > 0 {
      SumOfFewer(q, q', p, i - 1);
    }
  }

  /** Where the rounding happens: each difference, each square and each partial sum is rounded, the
      dimensions being added one by one from the first. */
  lemma OneMoreDimension(point: Point, n: nat, k: nat, rnd: real -> real, p: Point)
    ensures Query(point, 0, k, rnd).Key(p) == 0.0
    ensures var x := rnd(Coord(point, n) - Coord(p, n));
      Query(point, n + 1, k, rnd).Key(p) == rnd(Query(point, n, k, rnd).Key(p) + rnd(x * x))
  {
    var q, q' := Query(point, n + 1, k, rnd), Query(point, n, k, rnd);
    SumOfFewer(q, q', p, n);
    var x := rnd(Coord(point, n) - Coord(p, n));
    assert Squared(x) == x * x;
    assert q.Square(n, Coord(p, n)) == rnd(x * x);
    assert q.Sum(p, n + 1) == rnd(q.Sum(p, n) + rnd(x * x));
  }

  // ---- The distance of a splitting plane ----

  lemma NoDifference(q: Query, d: nat)
    requires Rounding(q.rnd)
    ensures q.Square(d, Coord(q.point, d)) == 0.0
  {
  }

  lemma {:induction false} SumToPlane(q: Query, d: nat, median: real, i: nat)
    requires Rounding(q.rnd) && d < |q.point|
    ensures q.Sum(q.point[d := median], i) == if i <= d then 0.0 else q.Gap(d, median)
  {
    if i > 0 {
      SumToPlane(q, d, median, i - 1);
      SquareNonNegative(q, d, median);
      if i - 1 != d {
        NoDifference(q, i - 1);
      }
    }
  }

  /** dist_to_partition is the rounded distance of the query's projection on the splitting plane, so
      by FarSide the least rounded distance a point beyond the plane can have. */
  lemma PlaneDistance(q: Query, d: nat, median: real)
    requires Rounding(q.rnd) && d < q.dims == |q.point|
    ensures q.Gap(d, median) == q.Key(q.point[d := median])
  {
    SumToPlane(q, d, median, q.dims);
  }
}
