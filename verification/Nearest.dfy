/** Neighbours, distances in rounded arithmetic, and what "the k nearest" means. */
module Nearest {
  import opened Points
  import opened KdTree

  /** nearest_point: a training point and its distance from the query. */
  datatype Neighbor = Neighbor(point: Point, distance: real)

  /** What is assumed of a rounding mode: it is monotone, and it leaves 0 and its own results alone.
      Finite IEEE arithmetic qualifies, and so does exact arithmetic, with rnd the identity. */
  ghost predicate Rounding(rnd: real -> real) {
    && rnd(0.0) == 0.0
    && (forall x :: Settles(rnd, x))
    && (forall x, y :: Keeps(rnd, x, y))
  }

  /** A rounded value is not rounded again. */
  predicate Settles(rnd: real -> real, x: real) {
    rnd(rnd(x)) == rnd(x)
  }

  /** Rounding keeps the order of x and y. */
  predicate Keeps(rnd: real -> real, x: real, y: real) {
    x <= y ==> rnd(x) <= rnd(y)
  }

  /** square() before rounding. */
  function Squared(a: real): real { a * a }

  /** One query: its point, num_dimensions, k, and the rounding every operation is subject to. */
  datatype Query = Query(point: Point, dims: nat, k: nat, rnd: real -> real) {

    /** square(query[d] - c), each operation rounded. */
    function Square(d: nat, c: real): real {
      rnd(Squared(rnd(Coord(point, d) - c)))
    }

    /** The value of the accumulator in distance() after i rounds. */
    function Sum(p: Point, i: nat): real {
      if i == 0 then 0.0 else rnd(Sum(p, i - 1) + Square(i - 1, Coord(p, i - 1)))
    }

    /** distance(query, p). */
    function Key(p: Point): real {
      Sum(p, dims)
    }

    /** dist_to_partition: the squared distance to the splitting plane. */
    function Gap(d: nat, median: real): real {
      Square(d, median)
    }

    function First(t: Tree): Tree
      requires t.Split?
    {
      if Coord(point, t.dim) < t.median then t.left else t.right
    }

    function Second(t: Tree): Tree
      requires t.Split?
    {
      if Coord(point, t.dim) < t.median then t.right else t.left
    }

    function At(p: Point): Neighbor {
      Neighbor(p, Key(p))
    }

    /** The points of a subtree with their distances. */
    function Neighbors(t: Tree): multiset<Neighbor> {
      match t
      case Empty => multiset{}
      case Leaf(_, p) => multiset{At(p)}
      case Split(_, _, _, l, r) => Neighbors(l) + Neighbors(r)
    }
  }

  /** distance(), loop by loop. */
  method Distance(q: Query, p: Point) returns (distance: real)
    requires |q.point| == q.dims == |p|
    ensures distance == q.Key(p)
  {
    distance := 0.0;
    for i := 0 to q.dims
      invariant distance == q.Sum(p, i)
    {
      distance := q.rnd(distance + q.rnd(Squared(q.rnd(q.point[i] - p[i]))));
    }
  }

  // ---- Pruning ----

  lemma ProductSign(x: real, y: real)
    requires x >= 0.0 && y >= 0.0
    ensures x * y >= 0.0
  {
  }

  lemma SquareMonotone(a: real, b: real)
    requires 0.0 <= a <= b || b <= a <= 0.0
    ensures 0.0 <= Squared(a) <= Squared(b)
  {
    if 0.0 <= a <= b {
      ProductSign(a, a);
      ProductSign(b - a, b + a);
    } else {
      ProductSign(-a, -a);
      ProductSign(a - b, -(b + a));
    }
    assert Squared(b) - Squared(a) == (b - a) * (b + a);
  }

  lemma Monotone(rnd: real -> real, x: real, y: real)
    requires Rounding(rnd) && x <= y
    ensures rnd(x) <= rnd(y) && rnd(rnd(x)) == rnd(x) && rnd(rnd(y)) == rnd(y)
  {
    assert Keeps(rnd, x, y) && Settles(rnd, x) && Settles(rnd, y);
  }

  lemma SquareNonNegative(q: Query, d: nat, c: real)
    requires Rounding(q.rnd)
    ensures q.Square(d, c) >= 0.0 && q.rnd(q.Square(d, c)) == q.Square(d, c)
  {
    var a := q.rnd(Coord(q.point, d) - c);
    SquareMonotone(0.0, a);
    Monotone(q.rnd, 0.0, Squared(a));
  }

  /** One accumulation step: the rounded sum is at least each of its non-negative operands. */
  lemma AddAtLeast(rnd: real -> real, s: real, t: real)
    requires Rounding(rnd) && s >= 0.0 && t >= 0.0 && rnd(s) == s && rnd(t) == t
    ensures rnd(rnd(s + t)) == rnd(s + t) && rnd(s + t) >= s && rnd(s + t) >= t
  {
    Monotone(rnd, s, s + t);
    Monotone(rnd, t, s + t);
  }

  /** Accumulating can only grow, so the sum is at least each of its terms. */
  lemma {:induction false} SumAtLeastTerm(q: Query, p: Point, d: nat, i: nat)
    requires Rounding(q.rnd)
    ensures q.rnd(q.Sum(p, i)) == q.Sum(p, i) >= 0.0
    ensures d < i ==> q.Sum(p, i) >= q.Square(d, Coord(p, d))
  {
    if i > 0 {
      SumAtLeastTerm(q, p, d, i - 1);
      SquareNonNegative(q, i - 1, Coord(p, i - 1));
      AddAtLeast(q.rnd, q.Sum(p, i - 1), q.Square(i - 1, Coord(p, i - 1)));
    }
  }

  /** Pruning is sound under rounding: a point across the splitting plane is at least dist_to_partition away. */
  lemma FarSide(q: Query, p: Point, d: nat, median: real)
    requires Rounding(q.rnd) && d < q.dims
    requires Coord(q.point, d) < median <= Coord(p, d) || Coord(p, d) < median <= Coord(q.point, d)
    ensures q.Gap(d, median) <= q.Key(p)
  {
    var x, c := Coord(q.point, d), Coord(p, d);
    if x < median {
      Monotone(q.rnd, x - c, x - median);
      Monotone(q.rnd, x - median, 0.0);
    } else {
      Monotone(q.rnd, 0.0, x - median);
      Monotone(q.rnd, x - median, x - c);
    }
    SquareMonotone(q.rnd(x - median), q.rnd(x - c));
    Monotone(q.rnd, Squared(q.rnd(x - median)), Squared(q.rnd(x - c)));
    SumAtLeastTerm(q, p, d, q.dims);
  }

  lemma {:induction false} NeighborsOfPoints(q: Query, t: Tree, n: Neighbor)
    requires n in q.Neighbors(t)
    ensures n.point in t.Points() && n == q.At(n.point)
  {
    if t.Split? {
      if n in q.Neighbors(t.left) {
        NeighborsOfPoints(q, t.left, n);
      } else {
        NeighborsOfPoints(q, t.right, n);
      }
    }
  }

  lemma FarSubtree(q: Query, t: Tree, n: Neighbor)
    requires Rounding(q.rnd) && t.Split? && t.dim < q.dims && KdOrdered(t) && n in q.Neighbors(q.Second(t))
    ensures q.Gap(t.dim, t.median) <= n.distance
  {
    NeighborsOfPoints(q, q.Second(t), n);
    FarSide(q, n.point, t.dim, t.median);
  }

  // ---- The k nearest ----

  function Min(a: nat, b: nat): nat {
    if a < b then a else b
  }

  /** r is a choice of the k nearest of all: as many as there are up to k, and nothing left out is nearer. */
  ghost predicate KBest(r: multiset<Neighbor>, all: multiset<Neighbor>, k: nat) {
    && r <= all
    && |r| == Min(k, |all|)
    && forall x, y :: x in r && y in all - r ==> x.distance <= y.distance
  }

  lemma SubsetSize(a: multiset<Neighbor>, b: multiset<Neighbor>)
    requires a <= b
    ensures |b - a| == |b| - |a|
    ensures |a| == |b| ==> a == b
  {
    assert b == a + (b - a);
    if |a| == |b| {
      assert b - a == multiset{};
    }
  }

  /** KBest(KBest(A) + B) is KBest(A + B). */
  lemma KBestOfKBest(r: multiset<Neighbor>, a: multiset<Neighbor>, s: multiset<Neighbor>, b: multiset<Neighbor>, k: nat)
    requires KBest(r, a, k) && KBest(s, r + b, k)
    ensures KBest(s, a + b, k)
  {
    SubsetSize(r, a);
    assert |r + b| == |r| + |b| && |a + b| == |a| + |b|;
    forall x, y | x in s && y in a + b - s ensures x.distance <= y.distance {
      if y !in r + b - s {
        // y is one of those r left out, so r is full
        assert y in a - r by {
          assert (a + b)[y] > s[y] && (r + b)[y] <= s[y];
        }
        assert |r| == k == |s|;
        if x !in r {
          assert x in s - r;
          var z := LeftOut(r, s);
          assert z in r + b - s;
        }
      }
    }
  }

  /** Two choices of the same size: if one has an element the other lacks, the other has one too. */
  lemma LeftOut(r: multiset<Neighbor>, s: multiset<Neighbor>) returns (z: Neighbor)
    requires |r| == |s| && r != s
    ensures z in r && r[z] > s[z]
  {
    if r <= s {
      SubsetSize(r, s);
    }
    z :| r[z] > s[z];
  }

  ghost predicate IsTop(x: Neighbor, queue: multiset<Neighbor>) {
    x in queue && forall y :: y in queue ==> y.distance <= x.distance
  }

  /** A point offered to a queue that is not full. */
  lemma OfferToOpen(queue: multiset<Neighbor>, done: multiset<Neighbor>, n: Neighbor, k: nat)
    requires KBest(queue, done, k) && |queue| < k
    ensures KBest(queue + multiset{n}, done + multiset{n}, k)
  {
    SubsetSize(queue, done);
  }

  /** A point offered to a full queue, whose top it replaces if it is nearer. */
  lemma OfferToFull(queue: multiset<Neighbor>, done: multiset<Neighbor>, n: Neighbor, top: Neighbor, k: nat)
    requires KBest(queue, done, k) && |queue| == k && IsTop(top, queue)
    ensures KBest(if n.distance < top.distance then queue - multiset{top} + multiset{n} else queue, done + multiset{n}, k)
  {
    var next := if n.distance < top.distance then queue - multiset{top} + multiset{n} else queue;
    var both := queue + multiset{n};
    assert both - next == multiset{if n.distance < top.distance then top else n};
    assert KBest(next, both, k);
    KBestOfKBest(queue, done, next, multiset{n}, k);
  }

  /** Points at or beyond the top of a full queue change nothing. */
  lemma SkipFar(queue: multiset<Neighbor>, done: multiset<Neighbor>, far: multiset<Neighbor>, top: Neighbor, k: nat)
    requires KBest(queue, done, k) && |queue| == k && IsTop(top, queue)
    requires forall n :: n in far ==> top.distance <= n.distance
    ensures KBest(queue, done + far, k)
  {
    assert queue + far - queue == far;
    assert KBest(queue, queue + far, k);
    KBestOfKBest(queue, done, queue, far, k);
  }

  /** results[i] as do_queries leaves it: a choice of the k nearest, farthest first. */
  ghost predicate IsResult(r: seq<Neighbor>, all: multiset<Neighbor>, k: nat) {
    && |r| == k
    && (forall i, j :: 0 <= i < j < |r| ==> r[i].distance >= r[j].distance)
    && KBest(multiset(r), all, k)
  }

  /** The queue is full and holds nothing farther than d. */
  ghost predicate FullUpTo(queue: multiset<Neighbor>, k: nat, d: real) {
    |queue| >= k && forall n :: n in queue ==> n.distance <= d
  }
}
