/** The query as the program writes it: query_nodes on the heap-allocated tree, feeding a shared queue
    and counter, and do_queries with a single worker. */
module KnnQuery {
  import opened Points
  import opened KdTree
  import opened Nearest
  import opened Euclid
  import opened Search
  import opened KnnBuild

  /** std::priority_queue<nearest_point, ..., priority_compare>. Which of several farthest elements is on
      top is left open. */
  class ResultQueue {
    var elems: multiset<Neighbor>

    constructor ()
      ensures elems == multiset{}
    {
      elems := multiset{};
    }

    method Push(n: Neighbor)
      modifies this
      ensures elems == old(elems) + multiset{n}
    {
      elems := elems + multiset{n};
    }

    method Top() returns (n: Neighbor)
      requires |elems| > 0
      ensures IsTop(n, elems)
    {
      ghost var x := TopExists(elems);
      n :| n in elems && forall y :: y in elems ==> y.distance <= n.distance;
    }

    /** pop(), returning what it removes. */
    method Pop() returns (n: Neighbor)
      requires |elems| > 0
      modifies this
      ensures IsTop(n, old(elems)) && elems == old(elems) - multiset{n}
    {
      n := Top();
      elems := elems - multiset{n};
    }
  }

  /** The num_found a query and all its recursive calls share. calls counts these calls, for the record. */
  class Counter {
    var n: nat
    ghost var calls: nat

    constructor ()
      ensures n == 0 && calls == 0
    {
      n, calls := 0, 0;
    }
  }

  /** query_nodes at a leaf: a point no nearer than all of a full queue does not get in, any other does. */
  method Offer(q: Query, point: Point, found: Counter, queue: ResultQueue)
    requires q.k >= 1 && found.n == |queue.elems| <= q.k && |q.point| == q.dims == |point|
    modifies found, queue
    ensures found.n == |queue.elems| <= q.k
    ensures KBest(queue.elems, old(queue.elems) + multiset{q.At(point)}, q.k)
    ensures if FullUpTo(old(queue.elems), q.k, q.Key(point)) then queue.elems == old(queue.elems) else q.At(point) in queue.elems
    ensures found.calls == old(found.calls)
  {
    var distance := Distance(q, point);
    var n := Neighbor(point, distance);
    if found.n < q.k {
      OfferToOpen(queue.elems, queue.elems, n, q.k);
      queue.Push(n);
      found.n := found.n + 1;
    } else {
      var top := queue.Top();
      if distance < top.distance {
        ghost var before := queue.elems;
        var gone := queue.Pop();
        queue.Push(n);
        OfferToFull(before, before, n, gone, q.k);
      } else {
        OfferToFull(queue.elems, queue.elems, n, top, q.k);
      }
    }
  }

  /** What query_nodes expects of the tree below a node. */
  ghost predicate Queryable(q: Query, t: Tree) {
    && q.k >= 1 && Rounding(q.rnd) && |q.point| == q.dims
    && Searchable(t, q.dims)
    && forall p :: p in t.Points() ==> |p| == q.dims
  }

  lemma QueryableChildren(q: Query, t: Tree)
    requires Queryable(q, t) && t.Split?
    ensures Queryable(q, q.First(t)) && Queryable(q, q.Second(t)) && t.dim < q.dims && t.numPts != 1
  {
  }

  lemma EmptySide(q: Query, queue: multiset<Neighbor>)
    requires |queue| <= q.k
    ensures KBest(queue, queue + q.Neighbors(Empty), q.k)
  {
    assert queue + multiset{} == queue;
  }

  /** The call for a child, if there is one. */
  method VisitChild(q: Query, child: Node?, found: Counter, queue: ResultQueue, ghost t: Tree, ghost parent: Node?)
    requires Shows(child, t, parent, ReprOf(child)) && Queryable(q, t)
    requires found.n == |queue.elems| <= q.k
    modifies found, queue
    ensures found.n == |queue.elems| <= q.k
    ensures KBest(queue.elems, old(queue.elems) + q.Neighbors(t), q.k)
    ensures if t.Empty? then found.calls == old(found.calls) else found.calls > old(found.calls)
    decreases t, 3
  {
    if child != null {
      QueryNodes(q, child, found, queue, t, parent);
    } else {
      EmptySide(q, queue.elems);
    }
  }

  /** The decision of query_nodes after its first child: not to go on exactly if the queue is full and
      nothing in it is farther than the query's projection on the splitting plane. */
  method GoesOn(q: Query, node: Node, found: Counter, queue: ResultQueue, ghost t: Tree) returns (goesOn: bool)
    requires t.Split? && Queryable(q, t) && node.dimension == t.dim && node.median == t.median
    requires found.n == |queue.elems| <= q.k
    ensures !goesOn <==> FullUpTo(queue.elems, q.k, q.Key(q.point[t.dim := t.median]))
    ensures !goesOn ==> KBest(queue.elems, queue.elems + q.Neighbors(q.Second(t)), q.k)
  {
    QueryableChildren(q, t);
    PlaneDistance(q, t.dim, t.median);
    goesOn := found.n < q.k;
    if !goesOn {
      var distToPartition := q.rnd(q.point[node.dimension] - node.median);
      distToPartition := q.rnd(Squared(distToPartition));
      var top := queue.Top();
      goesOn := distToPartition < top.distance;
      if !goesOn {
        SkipSecond(q, t, queue.elems, top);
      }
    }
  }

  /** The second half of query_nodes: the far child is visited, or skipped. */
  method VisitSecond(q: Query, node: Node, second: Node?, found: Counter, queue: ResultQueue, ghost t: Tree,
                     ghost before: multiset<Neighbor>)
    requires t.Split? && Queryable(q, t) && node.dimension == t.dim && node.median == t.median
    requires Shows(second, q.Second(t), node, ReprOf(second))
    requires found.n == |queue.elems| <= q.k && KBest(queue.elems, before + q.Neighbors(q.First(t)), q.k)
    modifies found, queue
    ensures found.n == |queue.elems| <= q.k
    ensures KBest(queue.elems, before + q.Neighbors(t), q.k)
    ensures found.calls == old(found.calls) <==>
      FullUpTo(old(queue.elems), q.k, q.Key(q.point[t.dim := t.median])) || q.Second(t).Empty?
    ensures found.calls >= old(found.calls)
    decreases t, 0
  {
    QueryableChildren(q, t);
    ghost var middle := queue.elems;
    var goesOn := GoesOn(q, node, found, queue, t);
    if goesOn {
      VisitChild(q, second, found, queue, q.Second(t), node);
    }
    BothSides(q, t, before, middle, queue.elems);
  }

  lemma ShowsLeaf(node: Node, t: Tree, parent: Node?, q: Query)
    requires Shows(node, t, parent, node.Repr) && Queryable(q, t)
    ensures node.numPts == 1 <==> t.Leaf?
    ensures t.Leaf? ==> node.point == Some(t.point)
    ensures !t.Empty?
  {
  }

  /** Which child comes first: the one on the query's side of the splitting plane. */
  method Sides(q: Query, node: Node, ghost t: Tree, ghost parent: Node?) returns (first: Node?, second: Node?)
    requires Shows(node, t, parent, node.Repr) && Queryable(q, t) && t.Split?
    ensures Shows(first, q.First(t), node, ReprOf(first)) && Shows(second, q.Second(t), node, ReprOf(second))
    ensures node.dimension == t.dim && node.median == t.median
  {
    if q.point[node.dimension] < node.median {
      first, second := node.lChild, node.rChild;
    } else {
      first, second := node.rChild, node.lChild;
    }
  }

  /** query_nodes at an inner node. */
  method VisitBoth(q: Query, node: Node, found: Counter, queue: ResultQueue, ghost t: Tree, ghost parent: Node?)
    requires Shows(node, t, parent, node.Repr) && Queryable(q, t) && t.Split?
    requires found.n == |queue.elems| <= q.k
    modifies found, queue
    ensures found.n == |queue.elems| <= q.k
    ensures KBest(queue.elems, old(queue.elems) + q.Neighbors(t), q.k)
    ensures found.calls >= old(found.calls)
    decreases t, 1
  {
    var first, second := Sides(q, node, t, parent);
    QueryableChildren(q, t);
    ghost var before := queue.elems;
    VisitChild(q, first, found, queue, q.First(t), node);
    assert Shows(second, q.Second(t), node, ReprOf(second));
    VisitSecond(q, node, second, found, queue, t, before);
  }

  /** query_nodes: the queue ends up with the k nearest of what it held and all points of the subtree,
      those of skipped subtrees included. */
  method QueryNodes(q: Query, node: Node, found: Counter, queue: ResultQueue, ghost t: Tree, ghost parent: Node?)
    requires Shows(node, t, parent, node.Repr) && Queryable(q, t)
    requires found.n == |queue.elems| <= q.k
    modifies found, queue
    ensures found.n == |queue.elems| <= q.k
    ensures KBest(queue.elems, old(queue.elems) + q.Neighbors(t), q.k)
    ensures found.calls > old(found.calls)
    decreases t, 2
  {
    found.calls := found.calls + 1;
    ShowsLeaf(node, t, parent, q);
    if node.numPts == 1 {
      Offer(q, node.point.value, found, queue);
    } else {
      VisitBoth(q, node, found, queue, t, parent);
    }
  }

  lemma SkipSecond(q: Query, t: Tree, queue: multiset<Neighbor>, top: Neighbor)
    requires Queryable(q, t) && t.Split? && |queue| == q.k && IsTop(top, queue) && q.Gap(t.dim, t.median) >= top.distance
    ensures KBest(queue, queue + q.Neighbors(q.Second(t)), q.k)
  {
    forall n | n in q.Neighbors(q.Second(t)) ensures top.distance <= n.distance {
      FarSubtree(q, t, n);
    }
    SkipFar(queue, queue, q.Neighbors(q.Second(t)), top, q.k);
  }

  lemma BothSides(q: Query, t: Tree, before: multiset<Neighbor>, middle: multiset<Neighbor>, after: multiset<Neighbor>)
    requires t.Split?
    requires KBest(middle, before + q.Neighbors(q.First(t)), q.k)
    requires KBest(after, middle + q.Neighbors(q.Second(t)), q.k)
    ensures KBest(after, before + q.Neighbors(t), q.k)
  {
    KBestOfKBest(middle, before + q.Neighbors(q.First(t)), after, q.Neighbors(q.Second(t)), q.k);
    assert before + q.Neighbors(q.First(t)) + q.Neighbors(q.Second(t)) == before + q.Neighbors(t);
  }

  // ---- do_queries ----

  /** r has been popped off, farthest first, and rest is left. */
  ghost predicate Popped(r: seq<Neighbor>, rest: multiset<Neighbor>, whole: multiset<Neighbor>) {
    && multiset(r) + rest == whole
    && (forall a, b :: 0 <= a < b < |r| ==> r[a].distance >= r[b].distance)
    && (forall a, y :: 0 <= a < |r| && y in rest ==> r[a].distance >= y.distance)
  }

  lemma PoppedMore(r: seq<Neighbor>, rest: multiset<Neighbor>, whole: multiset<Neighbor>, n: Neighbor)
    requires Popped(r, rest, whole) && IsTop(n, rest)
    ensures Popped(r + [n], rest - multiset{n}, whole)
  {
  }

  /** Popping a queue k times. */
  method PopAll(queue: ResultQueue, k: nat, ghost all: multiset<Neighbor>) returns (r: seq<Neighbor>)
    requires KBest(queue.elems, all, k) && k <= |all|
    modifies queue
    ensures IsResult(r, all, k)
  {
    r := [];
    ghost var whole := queue.elems;
    for j := 0 to k
      invariant |r| == j && |queue.elems| == k - j
      invariant Popped(r, queue.elems, whole)
    {
      ghost var rest := queue.elems;
      var n := queue.Pop();
      PoppedMore(r, rest, whole, n);
      r := r + [n];
    }
    assert multiset(r) == whole;
  }

  /** One job of a worker, and the emptying of its queue. */
  method RunJob(q: Query, root: Node, ghost t: Tree) returns (r: seq<Neighbor>)
    requires Shows(root, t, null, root.Repr) && Queryable(q, t) && q.k <= |q.Neighbors(t)|
    ensures IsResult(r, q.Neighbors(t), q.k)
  {
    var found := new Counter();
    var queue := new ResultQueue();
    QueryNodes(q, root, found, queue, t, null);
    assert multiset{} + q.Neighbors(t) == q.Neighbors(t);
    r := PopAll(queue, q.k, q.Neighbors(t));
  }

  ghost predicate Answerable(qs: seq<Query>, t: Tree) {
    forall i :: 0 <= i < |qs| ==> Queryable(qs[i], t) && qs[i].k <= |qs[i].Neighbors(t)|
  }

  /** The queries from n on have their results. */
  ghost predicate Answered(qs: seq<Query>, t: Tree, results: seq<seq<Neighbor>>, n: nat) {
    n + |results| == |qs| && forall i :: n <= i < |qs| ==> IsResult(results[i - n], qs[i].Neighbors(t), qs[i].k)
  }

  lemma AnsweredMore(qs: seq<Query>, t: Tree, results: seq<seq<Neighbor>>, n: nat, r: seq<Neighbor>)
    requires Answered(qs, t, results, n + 1) && IsResult(r, qs[n].Neighbors(t), qs[n].k)
    ensures Answered(qs, t, [r] + results, n)
  {
    var more := [r] + results;
    forall i | n <= i < |qs| ensures IsResult(more[i - n], qs[i].Neighbors(t), qs[i].k) {
      assert i > n ==> more[i - n] == results[i - (n + 1)];
    }
  }

  /** do_queries up to results_to_file, run by one worker, which takes the last job of the vector first.
      There are at least k points, as the pop loop demands. */
  method DoQueries(qs: seq<Query>, root: Node, ghost t: Tree) returns (results: seq<seq<Neighbor>>)
    requires Shows(root, t, null, root.Repr) && Answerable(qs, t)
    ensures Answered(qs, t, results, 0)
  {
    results := [];
    var n := |qs|;
    while n > 0
      invariant 0 <= n <= |qs| && Answered(qs, t, results, n)
    {
      n := n - 1;
      AnswerableAt(qs, t, n);
      var r := RunJob(qs[n], root, t);
      AnsweredMore(qs, t, results, n, r);
      results := [r] + results;
    }
  }

  lemma AnswerableAt(qs: seq<Query>, t: Tree, i: nat)
    requires Answerable(qs, t) && i < |qs|
    ensures Queryable(qs[i], t) && qs[i].k <= |qs[i].Neighbors(t)|
  {
  }
}
