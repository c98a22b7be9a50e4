/** The specification _test states: the results of a query are the first k of all training points sorted
    by distance. */
module BruteForce {
  import opened Points
  import opened Sequences
  import opened KdTree
  import opened Nearest
  import opened Search

  /** All training points with their distances, in file order. */
  function Scan(q: Query, pts: seq<Point>): seq<Neighbor> {
    seq(|pts|, i requires 0 <= i < |pts| => q.At(pts[i]))
  }

  predicate Ascending(s: seq<Neighbor>) {
    forall i, j :: 0 <= i < j < |s| ==> s[i].distance <= s[j].distance
  }

  /** b is what std::sort may make of the scan: some order by ascending distance. */
  ghost predicate SortedScan(b: seq<Neighbor>, q: Query, pts: seq<Point>) {
    Ascending(b) && multiset(b) == multiset(Scan(q, pts))
  }

  // ---- The tree holds exactly the scanned neighbours ----

  lemma {:induction false} TreeCount(q: Query, t: Tree, n: Neighbor)
    ensures q.Neighbors(t)[n] == if n == q.At(n.point) then t.Points()[n.point] else 0
  {
    if t.Split? {
      TreeCount(q, t.left, n);
      TreeCount(q, t.right, n);
    }
  }

  lemma {:induction false} ScanCount(q: Query, pts: seq<Point>, n: Neighbor)
    ensures multiset(Scan(q, pts))[n] == if n == q.At(n.point) then multiset(pts)[n.point] else 0
  {
    if pts == [] {
      assert Scan(q, pts) == [];
    } else {
      ScanCount(q, pts[1..], n);
      assert Scan(q, pts) == [q.At(pts[0])] + Scan(q, pts[1..]);
      assert pts == [pts[0]] + pts[1..];
    }
  }

  lemma ScanIsTree(q: Query, pts: seq<Point>, t: Tree)
    requires t.Points() == multiset(pts)
    ensures q.Neighbors(t) == multiset(Scan(q, pts)) && |q.Neighbors(t)| == |pts|
  {
    forall n ensures q.Neighbors(t)[n] == multiset(Scan(q, pts))[n] {
      TreeCount(q, t, n);
      ScanCount(q, pts, n);
    }
    assert |multiset(Scan(q, pts))| == |Scan(q, pts)|;
  }

  // ---- Sorted lists of the same elements have the same distances ----

  function Distances(s: seq<Neighbor>): seq<real> {
    if s == [] then [] else [s[0].distance] + Distances(s[1..])
  }

  lemma {:induction false} DistancesAt(s: seq<Neighbor>)
    ensures |Distances(s)| == |s| && forall i :: 0 <= i < |s| ==> Distances(s)[i] == s[i].distance
  {
    if s != [] {
      DistancesAt(s[1..]);
    }
  }

  lemma {:induction false} DistancesConcat(a: seq<Neighbor>, b: seq<Neighbor>)
    ensures Distances(a + b) == Distances(a) + Distances(b)
  {
    if a == [] {
      assert a + b == b;
    } else {
      DistancesConcat(a[1..], b);
      Tail(a, b);
      Associative([a[0].distance], Distances(a[1..]), Distances(b));
    }
  }

  lemma DistancesOne(n: Neighbor)
    ensures Distances([n]) == [n.distance]
  {
  }

  lemma RemoveFirst(a: seq<Neighbor>, b: seq<Neighbor>, i: nat)
    requires a != [] && multiset(a) == multiset(b) && i < |b| && b[i] == a[0]
    ensures multiset(a[1..]) == multiset(b[..i] + b[i + 1..])
  {
    Elements(a);
    assert b == b[..i] + [b[i]] + b[i + 1..];
    assert multiset(b) - multiset{a[0]} == multiset(b[..i] + b[i + 1..]);
  }

  lemma DistancesInserted(x: seq<Neighbor>, n: Neighbor, y: seq<Neighbor>)
    ensures multiset(Distances(x + ([n] + y))) == multiset(Distances(x + y)) + multiset{n.distance}
  {
    DistancesConcat(x, [n] + y);
    DistancesConcat(x, y);
    DistancesConcat([n], y);
    DistancesOne(n);
    Inserted(Distances(x), n.distance, Distances(y));
  }

  lemma DistancesHead(a: seq<Neighbor>)
    requires a != []
    ensures multiset(Distances(a)) == multiset(Distances(a[1..])) + multiset{a[0].distance}
  {
    assert Distances(a)[1..] == Distances(a[1..]);
    Elements(Distances(a));
  }

  lemma FirstDistance(a: seq<Neighbor>, b: seq<Neighbor>, i: nat)
    requires a != [] && i < |b| && b[i] == a[0]
    requires multiset(Distances(a[1..])) == multiset(Distances(b[..i] + b[i + 1..]))
    ensures multiset(Distances(a)) == multiset(Distances(b))
  {
    var x, y := b[..i], b[i + 1..];
    assert b == x + ([b[i]] + y);
    DistancesInserted(x, b[i], y);
    DistancesHead(a);
  }

  lemma {:induction false} SameDistances(a: seq<Neighbor>, b: seq<Neighbor>)
    requires multiset(a) == multiset(b)
    ensures multiset(Distances(a)) == multiset(Distances(b))
    decreases |a|
  {
    if a != [] {
      assert a[0] in multiset(b);
      var i :| 0 <= i < |b| && b[i] == a[0];
      RemoveFirst(a, b, i);
      SameDistances(a[1..], b[..i] + b[i + 1..]);
      FirstDistance(a, b, i);
    } else {
      assert |multiset(b)| == 0;
    }
  }

  predicate Rising(s: seq<real>) {
    forall i, j :: 0 <= i < j < |s| ==> s[i] <= s[j]
  }

  lemma RisingHead(a: seq<real>, b: seq<real>)
    requires Rising(a) && Rising(b) && multiset(a) == multiset(b) && a != []
    ensures b != [] && a[0] == b[0]
  {
    assert a[0] in multiset(b) && b[0] in multiset(a) by {
      assert |multiset(a)| == |multiset(b)|;
    }
  }

  lemma {:induction false} RisingUnique(a: seq<real>, b: seq<real>)
    requires Rising(a) && Rising(b) && multiset(a) == multiset(b)
    ensures a == b
    decreases |a|
  {
    if a == [] {
      assert |multiset(a)| == |multiset(b)|;
    } else {
      RisingHead(a, b);
      Elements(a);
      Elements(b);
      RisingUnique(a[1..], b[1..]);
    }
  }

  lemma AscendingUnique(a: seq<Neighbor>, b: seq<Neighbor>)
    requires Ascending(a) && Ascending(b) && multiset(a) == multiset(b)
    ensures |a| == |b| && forall i :: 0 <= i < |a| ==> a[i].distance == b[i].distance
  {
    SameDistances(a, b);
    DistancesAt(a);
    DistancesAt(b);
    RisingUnique(Distances(a), Distances(b));
  }

  lemma {:induction false} SortList(m: multiset<Neighbor>) returns (s: seq<Neighbor>)
    ensures multiset(s) == m && Ascending(s)
    decreases |m|
  {
    if |m| == 0 {
      s := [];
    } else {
      var x := TopExists(m);
      var r := SortList(m - multiset{x});
      s := r + [x];
      forall i | 0 <= i < |r| ensures r[i].distance <= x.distance {
        assert r[i] in multiset(r);
      }
    }
  }

  /** The written neighbours followed by all the others are one ascending list. */
  lemma Completion(r: seq<Neighbor>, all: multiset<Neighbor>, k: nat) returns (rest: seq<Neighbor>)
    requires IsResult(r, all, k)
    ensures Ascending(Reverse(r) + rest) && multiset(Reverse(r) + rest) == all
  {
    rest := SortList(all - multiset(r));
    ReverseFacts(r);
    NearerFirst(Reverse(r), rest, multiset(r), all);
  }

  lemma NearerFirst(out: seq<Neighbor>, rest: seq<Neighbor>, m: multiset<Neighbor>, all: multiset<Neighbor>)
    requires Ascending(out) && Ascending(rest) && multiset(out) == m <= all && multiset(rest) == all - m
    requires forall x, y :: x in m && y in all - m ==> x.distance <= y.distance
    ensures Ascending(out + rest) && multiset(out + rest) == all
  {
    var s := out + rest;
    forall i, j | 0 <= i < j < |s| ensures s[i].distance <= s[j].distance {
      if i < |out| <= j {
        assert s[i] in multiset(out) && s[j] in multiset(rest);
      }
    }
    assert m + (all - m) == all;
  }

  lemma FirstKOf(all: multiset<Neighbor>, k: nat, r: seq<Neighbor>, b: seq<Neighbor>)
    requires IsResult(r, all, k) && Ascending(b) && multiset(b) == all
    ensures |r| == k <= |b|
    ensures forall i :: 0 <= i < k ==> r[k - 1 - i].distance == b[i].distance
  {
    var rest := Completion(r, all, k);
    SamePrefix(r, rest, b);
  }

  lemma SamePrefix(r: seq<Neighbor>, rest: seq<Neighbor>, b: seq<Neighbor>)
    requires Ascending(Reverse(r) + rest) && Ascending(b) && multiset(b) == multiset(Reverse(r) + rest)
    ensures |r| <= |b|
    ensures forall i :: 0 <= i < |r| ==> r[|r| - 1 - i].distance == b[i].distance
  {
    ReverseFacts(r);
    var a := Reverse(r) + rest;
    AscendingUnique(a, b);
    forall i | 0 <= i < |r| ensures r[|r| - 1 - i].distance == b[i].distance {
      assert a[i] == Reverse(r)[i];
    }
  }

  /** For every query the k distances written are the first k of all training distances in ascending order. */
  lemma FirstK(q: Query, pts: seq<Point>, t: Tree, r: seq<Neighbor>, b: seq<Neighbor>)
    requires t.Points() == multiset(pts) && IsResult(r, q.Neighbors(t), q.k) && SortedScan(b, q, pts)
    ensures |r| == q.k <= |b| == |pts|
    ensures forall i :: 0 <= i < q.k ==> r[q.k - 1 - i].distance == b[i].distance
  {
    ScanIsTree(q, pts, t);
    FirstKOf(q.Neighbors(t), q.k, r, b);
    assert |multiset(b)| == |multiset(Scan(q, pts))|;
  }

  /** Where no other training point is at the same distance, the point itself is the one brute force finds. */
  lemma FirstKPoints(q: Query, pts: seq<Point>, t: Tree, r: seq<Neighbor>, b: seq<Neighbor>, i: nat)
    requires t.Points() == multiset(pts) && IsResult(r, q.Neighbors(t), q.k) && SortedScan(b, q, pts)
    requires i < q.k && i < |b| && Untied(b, i)
    ensures i < |r| && r[q.k - 1 - i] == b[i]
  {
    FirstK(q, pts, t, r, b);
    ScanIsTree(q, pts, t);
    var n := r[q.k - 1 - i];
    assert n in multiset(r);
    assert n in multiset(b);
    var j :| 0 <= j < |b| && b[j] == n;
  }

  /** No other element of b is at the distance of b[j]. */
  predicate Untied(b: seq<Neighbor>, j: nat)
    requires j < |b|
  {
    forall i :: 0 <= i < |b| && i != j ==> b[i].distance != b[j].distance
  }

  /** r, farthest first, agrees with the first k elements of b: same distances, and the same points
      wherever a distance is not tied. */
  predicate Matches(r: seq<Neighbor>, b: seq<Neighbor>, k: nat) {
    && |r| == k <= |b|
    && (forall j :: 0 <= j < k ==> r[k - 1 - j].distance == b[j].distance)
    && (forall j :: 0 <= j < k && Untied(b, j) ==> r[k - 1 - j] == b[j])
  }

  lemma ResultMatches(q: Query, pts: seq<Point>, t: Tree, r: seq<Neighbor>, b: seq<Neighbor>)
    requires t.Points() == multiset(pts) && IsResult(r, q.Neighbors(t), q.k) && SortedScan(b, q, pts)
    ensures Matches(r, b, q.k)
  {
    FirstK(q, pts, t, r, b);
    forall j | 0 <= j < q.k && Untied(b, j) ensures r[q.k - 1 - j] == b[j] {
      FirstKPoints(q, pts, t, r, b, j);
    }
  }
}
