/** The whole program: every interleaving of the build, then of the worker pool, then the pop loop and
    the result file, delivers what brute force delivers. */
module EndToEnd {
  import opened Points
  import opened Sequences
  import opened KdTree
  import opened KdBalance
  import opened Nearest
  import opened Search
  import opened ForkJoin
  import opened ForkJoinSlots
  import opened ForkJoinHeap
  import opened ForkJoinRuns
  import opened WorkerPool
  import opened KnnBuild
  import opened KnnQuery
  import opened BruteForce
  import opened Euclid
  import opened Ranking
  import opened Files
  import opened ResultFile

  /** The input of one run. bits is how a coordinate is stored in 32 bits, value what is read back. */
  datatype Setup = Setup(pts: seq<Point>, dims: nat, cores: nat, queries: seq<Point>, k: nat,
                         rnd: real -> real, bits: real -> Word, value: Word -> real)
  {
    function Query(i: nat): Query
      requires i < |queries|
    {
      Nearest.Query.Query(queries[i], dims, k, rnd)
    }

    function Queries(): seq<Query> {
      seq(|queries|, i requires 0 <= i < |queries| => Query(i))
    }

    /** What the program needs: a tree can be built, there are k points to report, rounding is sane, at least
        one worker is created, and storing a training coordinate loses nothing. */
    ghost predicate Ok() {
      && dims >= 1 && RootSplits(pts, dims) && Shaped(pts, dims) && Shaped(queries, dims)
      && 1 <= k <= |pts| && Rounding(rnd)
      && JobCores(cores) >= 1
      && forall p, d :: p in pts && 0 <= d < |p| ==> value(bits(p[d])) == p[d]
    }
  }

  // ---- The built tree can be searched ----

  lemma {:induction false} CyclesBelow(t: Tree, dim: nat, dims: nat)
    requires dim < dims && Cycles(t, dim, dims)
    ensures DimsBelow(t, dims)
    decreases t
  {
    if t.Split? {
      CyclesBelow(t.left, NextDim(dim, dims), dims);
      CyclesBelow(t.right, NextDim(dim, dims), dims);
    }
  }

  lemma BuiltTreeSearchable(pts: seq<Point>, dims: nat)
    requires dims >= 1 && RootSplits(pts, dims)
    ensures var t := BuildRoot(pts, dims);
      Searchable(t, dims) && !t.Empty? && t.Points() == multiset(pts)
  {
    BuildRootIsKdTree(pts, dims);
    CyclesBelow(BuildRoot(pts, dims), 0, dims);
  }

  // ---- The pop loop ----

  /** r is one way of popping the queue |r| times: each time some farthest element goes. */
  ghost predicate Pops(queue: multiset<Neighbor>, r: seq<Neighbor>)
    decreases |r|
  {
    r == [] || (IsTop(r[0], queue) && Pops(queue - multiset{r[0]}, r[1..]))
  }

  /** Output order: popping everything lists the queue, farthest first. */
  lemma {:induction false} PopsAll(queue: multiset<Neighbor>, r: seq<Neighbor>)
    requires Pops(queue, r) && |r| == |queue|
    ensures multiset(r) == queue
    ensures forall i, j :: 0 <= i < j < |r| ==> r[i].distance >= r[j].distance
    decreases |r|
  {
    if r != [] {
      var rest := queue - multiset{r[0]};
      PopsAll(rest, r[1..]);
      FarthestFirst(queue, r);
    }
  }

  lemma FarthestFirst(queue: multiset<Neighbor>, r: seq<Neighbor>)
    requires r != [] && IsTop(r[0], queue) && multiset(r[1..]) == queue - multiset{r[0]}
    requires forall i, j :: 0 <= i < j < |r[1..]| ==> r[1..][i].distance >= r[1..][j].distance
    ensures multiset(r) == queue
    ensures forall i, j :: 0 <= i < j < |r| ==> r[i].distance >= r[j].distance
  {
    Elements(r);
    forall i, j | 0 <= i < j < |r| ensures r[i].distance >= r[j].distance {
      assert r[1..][j - 1] == r[j];
      if i == 0 {
        assert r[j] in multiset(r);
      } else {
        assert r[1..][i - 1] == r[i];
      }
    }
  }

  // ---- One whole run ----

  /** ws, es: an interleaving of the build up to the return of make_tree. t: the tree its nodes form. ss: an
      interleaving of the pool until all workers have returned. results: what the pop loop makes of the
      queues. */
  ghost predicate WholeRun(s: Setup, ws: seq<World>, es: seq<Event>, t: Tree, ss: seq<Pool>, results: seq<seq<Neighbor>>) {
    && BuildRun(Config(s.dims, ThreadLimit(s.cores), ForkDepth(s.cores)), s.pts, ws, es) && ws[|es|].main.pc.Returned?
    && Nodes(t, []) == ws[|es|].heap
    && PoolTrace(s.Queries(), t, JobCores(s.cores), ss) && AllReturned(ss[|ss| - 1])
    && |results| == |s.queries| <= |ss[|ss| - 1].cells|
    && forall i :: 0 <= i < |results| ==> |results[i]| == s.k && Pops(ss[|ss| - 1].cells[i].queue, results[i])
  }

  /** The tree every interleaving ends with is the sequential one. */
  lemma SameTree(s: Setup, ws: seq<World>, es: seq<Event>, t: Tree, ss: seq<Pool>, results: seq<seq<Neighbor>>)
    requires s.Ok() && WholeRun(s, ws, es, t, ss, results)
    ensures t == BuildRoot(s.pts, s.dims)
  {
    PartialTree(Config(s.dims, ThreadLimit(s.cores), ForkDepth(s.cores)), s.pts, ws, es, |es|);
    NodesInjective(t, BuildRoot(s.pts, s.dims), []);
  }

  lemma QueriesOk(s: Setup, t: Tree)
    requires s.Ok() && t == BuildRoot(s.pts, s.dims)
    ensures |s.Queries()| == |s.queries|
    ensures forall j :: 0 <= j < |s.queries| ==> s.Queries()[j] == s.Query(j) && QueryOk(s.Queries()[j], t)
  {
    BuiltTreeSearchable(s.pts, s.dims);
  }

  lemma EnoughPoints(s: Setup, t: Tree, i: nat)
    requires s.Ok() && t == BuildRoot(s.pts, s.dims) && i < |s.queries|
    ensures t.Points() == multiset(s.pts) && s.k <= |s.Query(i).Neighbors(t)|
  {
    BuiltTreeSearchable(s.pts, s.dims);
    ScanIsTree(s.Query(i), s.pts, t);
  }

  /** The queues every interleaving of the pool ends with. */
  lemma PoolQueue(s: Setup, t: Tree, ss: seq<Pool>, i: nat)
    requires s.Ok() && t == BuildRoot(s.pts, s.dims) && i < |s.queries|
    requires PoolTrace(s.Queries(), t, JobCores(s.cores), ss) && AllReturned(ss[|ss| - 1])
    ensures t.Points() == multiset(s.pts) && |ss[|ss| - 1].cells| == |s.queries|
    ensures var queue := ss[|ss| - 1].cells[i].queue;
      |queue| == s.k && KBest(queue, s.Query(i).Neighbors(t), s.k)
  {
    QueriesOk(s, t);
    EnoughPoints(s, t, i);
    PoolResult(s.Queries(), t, JobCores(s.cores), ss, i);
  }

  /** Each query's results are a choice of its k nearest training points, farthest first. */
  lemma ResultsAreNearest(s: Setup, ws: seq<World>, es: seq<Event>, t: Tree, ss: seq<Pool>,
                          results: seq<seq<Neighbor>>, i: nat)
    requires s.Ok() && WholeRun(s, ws, es, t, ss, results) && i < |s.queries|
    ensures t.Points() == multiset(s.pts) && IsResult(results[i], s.Query(i).Neighbors(t), s.k)
  {
    SameTree(s, ws, es, t, ss, results);
    PoolQueue(s, t, ss, i);
    PopsAll(ss[|ss| - 1].cells[i].queue, results[i]);
  }

  /** Main theorem: over every interleaving of build and pool, whatever make_thread answers and however the
      queues break ties, the k distances of each query are the first k of all training distances in
      ascending order; and where a distance is not tied the point is brute force's too. */
  lemma EveryInterleavingIsBruteForce(s: Setup, ws: seq<World>, es: seq<Event>, t: Tree, ss: seq<Pool>,
                                      results: seq<seq<Neighbor>>, i: nat, b: seq<Neighbor>)
    requires s.Ok() && WholeRun(s, ws, es, t, ss, results) && i < |s.queries|
    requires SortedScan(b, Query(s.queries[i], s.dims, s.k, s.rnd), s.pts)
    ensures i < |results| && Matches(results[i], b, s.k)
  {
    ResultsAreNearest(s, ws, es, t, ss, results, i);
    ResultMatches(s.Query(i), s.pts, t, results[i], b);
  }

  /** Some way to pop a whole queue. */
  lemma {:induction false} CanPopAll(queue: multiset<Neighbor>) returns (r: seq<Neighbor>)
    ensures |r| == |queue| && Pops(queue, r)
    decreases |queue|
  {
    r := [];
    if |queue| > 0 {
      var x := TopExists(queue);
      var rest := CanPopAll(queue - multiset{x});
      r := [x] + rest;
      assert r[1..] == rest;
    }
  }

  lemma CanPopEach(cells: seq<Job>, n: nat, k: nat) returns (results: seq<seq<Neighbor>>)
    requires n <= |cells| && forall i :: 0 <= i < n ==> |cells[i].queue| == k
    ensures |results| == n
    ensures forall i :: 0 <= i < n ==> |results[i]| == k && Pops(cells[i].queue, results[i])
  {
    results := [];
    for m := 0 to n
      invariant |results| == m
      invariant forall i :: 0 <= i < m ==> |results[i]| == k && Pops(cells[i].queue, results[i])
    {
      var r := CanPopAll(cells[m].queue);
      results := results + [r];
    }
  }

  lemma PoolOfRun(s: Setup, t: Tree, ss0: seq<Pool>) returns (ss: seq<Pool>, cells: seq<Job>)
    requires s.Ok() && t == BuildRoot(s.pts, s.dims) && PoolTrace(s.Queries(), t, JobCores(s.cores), ss0)
    ensures PoolTrace(s.Queries(), t, JobCores(s.cores), ss) && ss0 <= ss && AllReturned(ss[|ss| - 1])
    ensures cells == ss[|ss| - 1].cells && |s.queries| <= |cells|
    ensures forall i :: 0 <= i < |s.queries| ==> |cells[i].queue| == s.k
  {
    QueriesOk(s, t);
    var qs, workers := s.Queries(), JobCores(s.cores);
    ss := PoolCanFinish(qs, t, workers, ss0);
    PoolSizes(qs, t, workers, ss, |ss| - 1);
    cells := ss[|ss| - 1].cells;
    forall i | 0 <= i < |qs| ensures |cells[i].queue| == s.k {
      PoolQueue(s, t, ss, i);
    }
  }

  /** Every interleaving of the build, at any point, can be completed, and every interleaving of a pool of
      twice as many workers as cores on the tree it builds, to a whole run of the program. */
  lemma WholeRunsExist(s: Setup, ws0: seq<World>, es0: seq<Event>, qs: seq<Query>, ss0: seq<Pool>)
    returns (ws: seq<World>, es: seq<Event>, t: Tree, ss: seq<Pool>, results: seq<seq<Neighbor>>)
    requires s.Ok() && BuildRun(Config(s.dims, ThreadLimit(s.cores), ForkDepth(s.cores)), s.pts, ws0, es0)
    requires |qs| == |s.queries| && forall i :: 0 <= i < |qs| ==> qs[i] == Query(s.queries[i], s.dims, s.k, s.rnd)
    requires PoolTrace(qs, BuildRoot(s.pts, s.dims), (2 * s.cores) % 0x1_0000_0000, ss0)
    ensures WholeRun(s, ws, es, t, ss, results) && ws0 <= ws && es0 <= es && ss0 <= ss
  {
    assert qs == s.Queries();
    ws, es := RunsCanFinish(Config(s.dims, ThreadLimit(s.cores), ForkDepth(s.cores)), s.pts, ws0, es0);
    t := BuildRoot(s.pts, s.dims);
    PartialTree(Config(s.dims, ThreadLimit(s.cores), ForkDepth(s.cores)), s.pts, ws, es, |es|);
    var cells;
    ss, cells := PoolOfRun(s, t, ss0);
    results := CanPopEach(cells, |s.queries|, s.k);
  }

  /** What the program needs, in terms of its input: training points that differ pairwise in some
      coordinate, one or at least four of them, k of them at least, and a number of cores that leaves
      some workers. Arithmetic may be exact. */
  lemma InputIsOk(s: Setup, e: nat)
    requires s.dims >= 1 && Shaped(s.pts, s.dims) && Shaped(s.queries, s.dims)
    requires (|s.pts| == 1 || |s.pts| >= 4) && 1 <= s.k <= |s.pts|
    requires e < s.dims && forall i, j :: 0 <= i < j < |s.pts| ==> s.pts[i][e] != s.pts[j][e]
    requires 0 < s.cores < 0x8000_0000
    requires Rounding(s.rnd) && forall p, d :: p in s.pts && 0 <= d < s.dims ==> s.value(s.bits(p[d])) == p[d]
    ensures s.Ok()
  {
    assert Distinct(s.pts, e);
    DistinctRootSplits(s.pts, e, s.dims);
    JobCoresPositive(s.cores);
  }

  // ---- The file ----

  function Bits(s: Setup, x: real): Word {
    s.bits(x)
  }

  function StorePointBits(s: Setup, p: Point): FloatPoint {
    seq(|p|, d requires 0 <= d < |p| => Bits(s, p[d]))
  }

  function LoadPoint(s: Setup, p: FloatPoint): Point {
    seq(|p|, d requires 0 <= d < |p| => s.value(p[d]))
  }

  function StoreResult(s: Setup, r: seq<Neighbor>): Row {
    seq(|r|, j requires 0 <= j < |r| => StorePointBits(s, r[j].point))
  }

  function StoreResults(s: Setup, results: seq<seq<Neighbor>>): seq<Row> {
    seq(|results|, i requires 0 <= i < |results| => StoreResult(s, results[i]))
  }

  lemma LoadStored(s: Setup, p: Point)
    requires s.Ok() && p in s.pts
    ensures LoadPoint(s, StorePointBits(s, p)) == p
  {
  }

  lemma StoredNeighbor(s: Setup, t: Tree, i: nat, n: Neighbor, r: seq<Neighbor>)
    requires s.Ok() && t.Points() == multiset(s.pts) && i < |s.queries|
    requires n in r && multiset(r) <= s.Query(i).Neighbors(t)
    ensures n.point in s.pts && n == s.Query(i).At(n.point)
    ensures LoadPoint(s, StorePointBits(s, n.point)) == n.point
  {
    assert n in multiset(r);
    NeighborsOfPoints(s.Query(i), t, n);
    assert n.point in multiset(s.pts);
    LoadStored(s, n.point);
  }

  lemma FileNeighbor(s: Setup, t: Tree, results: seq<seq<Neighbor>>, ids: Ids, r: ResultInfo, i: nat, j: nat, b: seq<Neighbor>)
    requires s.Ok() && t.Points() == multiset(s.pts) && i < |s.queries| == |results|
    requires IsResult(results[i], s.Query(i).Neighbors(t), s.k) && Matches(results[i], b, s.k)
    requires Reads(r, ids, s.dims, s.k, StoreResults(s, results)) && j < s.k
    ensures FilePointOk(s, r, i, j, b)
  {
    StoredNeighbor(s, t, i, results[i][s.k - 1 - j], results[i]);
    ReadBack(s, results, ids, r, i, j);
  }

  lemma ReadBack(s: Setup, results: seq<seq<Neighbor>>, ids: Ids, r: ResultInfo, i: nat, j: nat)
    requires Reads(r, ids, s.dims, s.k, StoreResults(s, results)) && j < s.k && i < |results|
    ensures i < |r.neighbors| && j < |r.neighbors[i]| && |results[i]| == s.k
    ensures r.neighbors[i][j] == StorePointBits(s, results[i][s.k - 1 - j].point)
  {
    assert StoreResults(s, results)[i] == StoreResult(s, results[i]);
  }

  /** Neighbour j of query i in the file is a training point, as near as b's j-th, and b's own if that one
      is not tied. */
  ghost predicate FilePointOk(s: Setup, r: ResultInfo, i: nat, j: nat, b: seq<Neighbor>)
    requires i < |s.queries|
  {
    && i < |r.neighbors| && j < |r.neighbors[i]| && j < |b|
    && var p := LoadPoint(s, r.neighbors[i][j]);
       && p in s.pts
       && Query(s.queries[i], s.dims, s.k, s.rnd).Key(p) == b[j].distance
       && (Untied(b, j) ==> p == b[j].point)
  }

  /** Every result row has k points of dims coordinates, as results_to_file takes for granted. */
  lemma StoredRows(s: Setup, t: Tree, results: seq<seq<Neighbor>>)
    requires s.Ok() && t.Points() == multiset(s.pts) && |results| == |s.queries|
    requires forall i :: 0 <= i < |results| ==> IsResult(results[i], s.Query(i).Neighbors(t), s.k)
    ensures Rectangular(StoreResults(s, results), s.k, s.dims)
  {
    forall i | 0 <= i < |results| ensures |StoreResult(s, results[i])| == s.k && Even(StoreResult(s, results[i]), s.dims) {
      assert IsResult(results[i], s.Query(i).Neighbors(t), s.k);
      StoredRow(s, t, i, results[i]);
    }
  }

  lemma StoredRow(s: Setup, t: Tree, i: nat, r: seq<Neighbor>)
    requires s.Ok() && t.Points() == multiset(s.pts) && i < |s.queries| && multiset(r) <= s.Query(i).Neighbors(t)
    ensures Even(StoreResult(s, r), s.dims)
  {
    forall j | 0 <= j < |r| ensures |StorePointBits(s, r[j].point)| == s.dims {
      StoredNeighbor(s, t, i, r[j], r);
    }
  }

  /** Neighbours as a caller finds them in the file: each of the k of query i is a training point at
      the same distance as in any ascending order b, and b's own point where that is not tied. */
  ghost predicate FileOk(s: Setup, r: ResultInfo) {
    forall i: nat, j: nat, b :: i < |s.queries| && j < s.k && SortedScan(b, s.Query(i), s.pts) ==> FilePointOk(s, r, i, j, b)
  }

  lemma FileFromResults(s: Setup, t: Tree, results: seq<seq<Neighbor>>, ids: Ids, r: ResultInfo)
    requires s.Ok() && t.Points() == multiset(s.pts) && |results| == |s.queries|
    requires forall i :: 0 <= i < |results| ==> IsResult(results[i], s.Query(i).Neighbors(t), s.k)
    requires Reads(r, ids, s.dims, s.k, StoreResults(s, results))
    ensures FileOk(s, r)
  {
    forall i: nat, j: nat, b | i < |s.queries| && j < s.k && SortedScan(b, s.Query(i), s.pts)
      ensures FilePointOk(s, r, i, j, b)
    {
      assert IsResult(results[i], s.Query(i).Neighbors(t), s.k);
      ResultMatches(s.Query(i), s.pts, t, results[i], b);
      FileNeighbor(s, t, results, ids, r, i, j, b);
    }
  }

  /** The sizes in the header are unsigned longs. */
  predicate FitsFile(s: Setup, ids: Ids) {
    ids.Fits() && |s.queries| < LONG && s.dims < LONG && s.k < LONG
  }

  /** results_to_file on the results of a search, and the file read back. */
  method WriteAndRead(s: Setup, ghost t: Tree, results: seq<seq<Neighbor>>, ids: Ids) returns (r: ResultInfo)
    requires s.Ok() && FitsFile(s, ids) && t.Points() == multiset(s.pts) && |results| == |s.queries|
    requires forall i :: 0 <= i < |results| ==> IsResult(results[i], s.Query(i).Neighbors(t), s.k)
    ensures FileOk(s, r) && r.ids == ids && r.fileType == RESULT && RowSizes(s, r)
    ensures RowsTaken(s, r)
    ensures r.numQueries == |s.queries| && r.numDimensions == s.dims && r.k == s.k
  {
    StoredRows(s, t, results);
    r := ResultRoundTrip(ids, s.dims, s.k, StoreResults(s, results));
    FileFromResults(s, t, results, ids, r);
    RowsComplete(s, t, results, ids, r);
  }

  predicate RowSizes(s: Setup, r: ResultInfo) {
    |r.neighbors| == |s.queries| && forall i :: 0 <= i < |s.queries| ==> |r.neighbors[i]| == s.k
  }

  /** The points of one row of the file. */
  function LoadRow(s: Setup, row: Row): seq<Point> {
    seq(|row|, j requires 0 <= j < |row| => LoadPoint(s, row[j]))
  }

  /** No point is listed for a query more often than it occurs among the training points. */
  ghost predicate RowsTaken(s: Setup, r: ResultInfo) {
    && |r.neighbors| == |s.queries|
    && forall i :: 0 <= i < |s.queries| ==> multiset(LoadRow(s, r.neighbors[i])) <= multiset(s.pts)
  }

  lemma RowsComplete(s: Setup, t: Tree, results: seq<seq<Neighbor>>, ids: Ids, r: ResultInfo)
    requires s.Ok() && t.Points() == multiset(s.pts) && |results| == |s.queries|
    requires forall i :: 0 <= i < |results| ==> IsResult(results[i], s.Query(i).Neighbors(t), s.k)
    requires Reads(r, ids, s.dims, s.k, StoreResults(s, results))
    ensures RowSizes(s, r) && RowsTaken(s, r)
  {
    forall i | 0 <= i < |s.queries|
      ensures |r.neighbors[i]| == s.k && multiset(LoadRow(s, r.neighbors[i])) <= multiset(s.pts)
    {
      assert IsResult(results[i], s.Query(i).Neighbors(t), s.k);
      RowTaken(s, t, results, ids, r, i);
    }
  }

  lemma RowTaken(s: Setup, t: Tree, results: seq<seq<Neighbor>>, ids: Ids, r: ResultInfo, i: nat)
    requires s.Ok() && t.Points() == multiset(s.pts) && |results| == |s.queries| && i < |results|
    requires IsResult(results[i], s.Query(i).Neighbors(t), s.k)
    requires Reads(r, ids, s.dims, s.k, StoreResults(s, results))
    ensures |r.neighbors| == |results| && |r.neighbors[i]| == s.k
    ensures multiset(LoadRow(s, r.neighbors[i])) <= multiset(s.pts)
  {
    RowReversed(s, t, results, ids, r, i);
    ReverseFacts(PointsOf(results[i]));
    ScanIsTree(s.Query(i), s.pts, t);
    PointsTaken(results[i], s.Query(i), s.pts);
  }

  /** A row of the file is a result list from its end. */
  lemma RowReversed(s: Setup, t: Tree, results: seq<seq<Neighbor>>, ids: Ids, r: ResultInfo, i: nat)
    requires s.Ok() && t.Points() == multiset(s.pts) && |results| == |s.queries| && i < |results|
    requires multiset(results[i]) <= s.Query(i).Neighbors(t)
    requires Reads(r, ids, s.dims, s.k, StoreResults(s, results))
    ensures |r.neighbors| == |results| && |r.neighbors[i]| == s.k
    ensures LoadRow(s, r.neighbors[i]) == Reverse(PointsOf(results[i]))
  {
    RowLength(s, results, ids, r, i);
    var row, list := r.neighbors[i], results[i];
    forall j | 0 <= j < s.k ensures LoadPoint(s, row[j]) == list[s.k - 1 - j].point {
      PointReadBack(s, t, results, ids, r, i, j);
    }
    LoadReversed(s, row, list);
  }

  lemma LoadReversed(s: Setup, row: Row, list: seq<Neighbor>)
    requires |row| == |list| && forall j :: 0 <= j < |row| ==> LoadPoint(s, row[j]) == list[|row| - 1 - j].point
    ensures LoadRow(s, row) == Reverse(PointsOf(list))
  {
    var points := PointsOf(list);
    PointsOfAt(list);
    ReverseFacts(points);
    SameElements(LoadRow(s, row), Reverse(points), points);
  }

  lemma SameElements(a: seq<Point>, b: seq<Point>, points: seq<Point>)
    requires |a| == |b| == |points|
    requires forall j :: 0 <= j < |a| ==> a[j] == points[|points| - 1 - j]
    requires forall j :: 0 <= j < |b| ==> b[j] == points[|points| - 1 - j]
    ensures a == b
  {
  }

  lemma PointReadBack(s: Setup, t: Tree, results: seq<seq<Neighbor>>, ids: Ids, r: ResultInfo, i: nat, j: nat)
    requires s.Ok() && t.Points() == multiset(s.pts) && |results| == |s.queries| && i < |results| && j < s.k
    requires multiset(results[i]) <= s.Query(i).Neighbors(t)
    requires Reads(r, ids, s.dims, s.k, StoreResults(s, results))
    ensures i < |r.neighbors| && j < |r.neighbors[i]| && |results[i]| == s.k
    ensures LoadPoint(s, r.neighbors[i][j]) == results[i][s.k - 1 - j].point
  {
    ReadBack(s, results, ids, r, i, j);
    StoredNeighbor(s, t, i, results[i][s.k - 1 - j], results[i]);
  }

  lemma RowLength(s: Setup, results: seq<seq<Neighbor>>, ids: Ids, r: ResultInfo, i: nat)
    requires Reads(r, ids, s.dims, s.k, StoreResults(s, results)) && i < |results|
    ensures |r.neighbors| == |results| && |r.neighbors[i]| == |results[i]| == s.k
  {
    assert StoreResults(s, results)[i] == StoreResult(s, results[i]);
    assert RowReads(r.neighbors[i], StoreResults(s, results)[i], s.k);
  }

  /** Main theorem, file: what results_to_file writes after any interleaving of build and pool holds, for
      every query, its k nearest training points in ascending distance, and brute force's own wherever a
      distance is not tied. */
  method FileIsBruteForce(s: Setup, ghost ws: seq<World>, ghost es: seq<Event>, ghost t: Tree, ghost ss: seq<Pool>,
                          results: seq<seq<Neighbor>>, ids: Ids) returns (r: ResultInfo)
    requires s.Ok() && WholeRun(s, ws, es, t, ss, results) && FitsFile(s, ids)
    ensures r.fileType == RESULT && r.ids == ids
    ensures r.numQueries == |s.queries| && r.numDimensions == s.dims && r.k == s.k && RowSizes(s, r)
    ensures forall i: nat, j: nat, b ::
      i < |s.queries| && j < s.k && SortedScan(b, Query(s.queries[i], s.dims, s.k, s.rnd), s.pts) ==> FilePointOk(s, r, i, j, b)
  {
    RunIsNearest(s, ws, es, t, ss, results);
    r := WriteAndRead(s, t, results, ids);
  }

  /** Main theorem, geometry: without rounding, and without reference to any sorting or to the program's own
      distance, the file lists k training points for every query, none more often than it occurs, and of
      the j-th at most j training points are strictly nearer to the query and more than j as near. */
  method FileIsNearest(s: Setup, ghost ws: seq<World>, ghost es: seq<Event>, ghost t: Tree, ghost ss: seq<Pool>,
                       results: seq<seq<Neighbor>>, ids: Ids) returns (r: ResultInfo)
    requires s.Ok() && WholeRun(s, ws, es, t, ss, results) && FitsFile(s, ids) && Exact(s.rnd)
    ensures |r.neighbors| == |s.queries|
    ensures forall i :: 0 <= i < |s.queries| ==>
      |r.neighbors[i]| == s.k && multiset(LoadRow(s, r.neighbors[i])) <= multiset(s.pts)
    ensures forall i, j :: 0 <= i < |s.queries| && 0 <= j < s.k ==>
      var (q, p) := (s.queries[i], LoadPoint(s, r.neighbors[i][j]));
      && p in s.pts
      && Nearer(s.pts, q, Apart(q, p, s.dims), s.dims) <= j < AsNear(s.pts, q, Apart(q, p, s.dims), s.dims)
  {
    RunIsNearest(s, ws, es, t, ss, results);
    r := WriteAndRead(s, t, results, ids);
    forall i, j | 0 <= i < |s.queries| && 0 <= j < s.k
      ensures var (q, p) := (s.queries[i], LoadPoint(s, r.neighbors[i][j]));
        && p in s.pts
        && Nearer(s.pts, q, Apart(q, p, s.dims), s.dims) <= j < AsNear(s.pts, q, Apart(q, p, s.dims), s.dims)
    {
      PointRanked(s, r, i, j);
    }
  }

  lemma PointRanked(s: Setup, r: ResultInfo, i: nat, j: nat)
    requires s.Ok() && Exact(s.rnd) && FileOk(s, r) && RowSizes(s, r) && i < |s.queries| && j < s.k
    ensures var (q, p) := (s.queries[i], LoadPoint(s, r.neighbors[i][j]));
      && p in s.pts
      && Nearer(s.pts, q, Apart(q, p, s.dims), s.dims) <= j < AsNear(s.pts, q, Apart(q, p, s.dims), s.dims)
  {
    var b := SortList(multiset(Scan(s.Query(i), s.pts)));
    assert SortedScan(b, s.Query(i), s.pts);
    assert FilePointOk(s, r, i, j, b);
    RankOfResult(s.Query(i), s.pts, b, j, LoadPoint(s, r.neighbors[i][j]));
  }

  lemma RunIsNearest(s: Setup, ws: seq<World>, es: seq<Event>, t: Tree, ss: seq<Pool>, results: seq<seq<Neighbor>>)
    requires s.Ok() && WholeRun(s, ws, es, t, ss, results)
    ensures t.Points() == multiset(s.pts) && |results| == |s.queries|
    ensures forall i :: 0 <= i < |results| ==> IsResult(results[i], s.Query(i).Neighbors(t), s.k)
  {
    SameTree(s, ws, es, t, ss, results);
    BuiltTreeSearchable(s.pts, s.dims);
    forall i | 0 <= i < |results| ensures IsResult(results[i], s.Query(i).Neighbors(t), s.k) {
      ResultsAreNearest(s, ws, es, t, ss, results, i);
    }
  }

  // ---- The sequential program ----

  lemma SetupQueryable(s: Setup, t: Tree)
    requires s.Ok() && t == BuildRoot(s.pts, s.dims)
    ensures Answerable(s.Queries(), t)
  {
    BuiltTreeSearchable(s.pts, s.dims);
    forall p | p in t.Points() ensures |p| == s.dims {
      assert p in multiset(s.pts);
      assert p in s.pts;
    }
    forall i | 0 <= i < |s.queries|
      ensures Queryable(s.Query(i), t) && s.k <= |s.Query(i).Neighbors(t)|
    {
      EnoughPoints(s, t, i);
    }
  }

  method BuildSequentially(s: Setup) returns (root: Node)
    requires s.Ok()
    ensures Shows(root, BuildRoot(s.pts, s.dims), null, root.Repr)
    ensures BuildRoot(s.pts, s.dims).Points() == multiset(s.pts)
  {
    BuiltTreeSearchable(s.pts, s.dims);
    var knn := new Knn(s.cores, s.dims, s.pts);
    var built := knn.MakeTree();
    root := knn.root;
  }

  /** The program run with threads that finish at once and a single worker: built on the heap, searched
      there, written and read back, with brute force's answers again. */
  method RunSequentially(s: Setup, ids: Ids) returns (results: seq<seq<Neighbor>>, r: ResultInfo)
    requires s.Ok() && FitsFile(s, ids)
    ensures |results| == |s.queries|
    ensures forall i, b :: 0 <= i < |results| && SortedScan(b, Query(s.queries[i], s.dims, s.k, s.rnd), s.pts) ==>
      Matches(results[i], b, s.k)
    ensures forall i: nat, j: nat, b ::
      i < |s.queries| && j < s.k && SortedScan(b, Query(s.queries[i], s.dims, s.k, s.rnd), s.pts) ==> FilePointOk(s, r, i, j, b)
  {
    var root := BuildSequentially(s);
    ghost var t := BuildRoot(s.pts, s.dims);
    SetupQueryable(s, t);
    results := DoQueries(s.Queries(), root, t);
    AnsweredResults(s, t, results);
    AllMatch(s, t, results);
    r := WriteAndRead(s, t, results, ids);
  }

  lemma AnsweredResults(s: Setup, t: Tree, results: seq<seq<Neighbor>>)
    requires Answered(s.Queries(), t, results, 0)
    ensures |results| == |s.queries|
    ensures forall i :: 0 <= i < |results| ==> IsResult(results[i], s.Query(i).Neighbors(t), s.k)
  {
    forall i | 0 <= i < |results| ensures IsResult(results[i], s.Query(i).Neighbors(t), s.k) {
      assert s.Queries()[i] == s.Query(i) && results[i - 0] == results[i];
      assert IsResult(results[i - 0], s.Queries()[i].Neighbors(t), s.Queries()[i].k);
    }
  }

  lemma AllMatch(s: Setup, t: Tree, results: seq<seq<Neighbor>>)
    requires t.Points() == multiset(s.pts) && |results| == |s.queries|
    requires forall i :: 0 <= i < |results| ==> IsResult(results[i], s.Query(i).Neighbors(t), s.k)
    ensures forall i, b: seq<Neighbor> :: 0 <= i < |results| && SortedScan(b, s.Query(i), s.pts) ==>
      Matches(results[i], b, s.k)
  {
    forall i, b: seq<Neighbor> | 0 <= i < |results| && SortedScan(b, s.Query(i), s.pts)
      ensures Matches(results[i], b, s.k)
    {
      assert IsResult(results[i], s.Query(i).Neighbors(t), s.k);
      ResultMatches(s.Query(i), s.pts, t, results[i], b);
    }
  }
}
