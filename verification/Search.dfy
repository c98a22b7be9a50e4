/** query_nodes as a step machine on an explicit call stack, so that searches can be interleaved. */
module Search {
  import opened KdTree
  import opened Nearest

  /** A call of query_nodes: just entered, or back from its first child. */
  datatype Frame = Visit(t: Tree) | Back(t: Tree)

  /** The state of one job: its queue, its num_found counter, and its calls in progress, innermost last. */
  datatype Job = Job(queue: multiset<Neighbor>, found: nat, stack: seq<Frame>)

  function NewJob(root: Tree): Job {
    Job(multiset{}, 0, [Visit(root)])
  }

  /** A call for the subtree, unless the child pointer is null. */
  function Down(t: Tree): seq<Frame> {
    if t.Empty? then [] else [Visit(t)]
  }

  function Rest(stack: seq<Frame>): seq<Frame>
    requires stack != []
  {
    stack[..|stack| - 1]
  }

  function Innermost(stack: seq<Frame>): Frame
    requires stack != []
  {
    stack[|stack| - 1]
  }

  /** What a call for a leaf does to the queue and the counter. top is the element the full queue
      presents: any of its farthest. */
  ghost predicate Offered(k: nat, s: Job, n: Neighbor, top: Neighbor, s': Job) {
    if s.found < k then s'.queue == s.queue + multiset{n} && s'.found == s.found + 1
    else
      && IsTop(top, s.queue) && s'.found == s.found
      && s'.queue == if n.distance < top.distance then s.queue - multiset{top} + multiset{n} else s.queue
  }

  /** Whether a call goes on to its second child. */
  ghost predicate GoesOn(q: Query, s: Job, t: Tree, top: Neighbor)
    requires t.Split?
  {
    s.found < q.k || q.Gap(t.dim, t.median) < top.distance
  }

  /** One step of a search. */
  ghost predicate JobStep(q: Query, s: Job, top: Neighbor, s': Job) {
    s.stack != [] &&
    var t := Innermost(s.stack).t;
    match Innermost(s.stack)
    case Visit(_) =>
      if t.NumPts() == 1 then t.Leaf? && s'.stack == Rest(s.stack) && Offered(q.k, s, q.At(t.point), top, s')
      else t.Split? && s' == s.(stack := Rest(s.stack) + [Back(t)] + Down(q.First(t)))
    case Back(_) =>
      && t.Split?
      && (s.found < q.k || IsTop(top, s.queue))
      && s' == s.(stack := Rest(s.stack) + if GoesOn(q, s, t, top) then Down(q.Second(t)) else [])
  }

  ghost predicate JobMoves(q: Query, s: Job, s': Job) {
    exists top :: JobStep(q, s, top, s')
  }

  // ---- What a search has still to look at ----

  function FramePending(q: Query, f: Frame): multiset<Neighbor> {
    match f
    case Visit(t) => q.Neighbors(t)
    case Back(t) => if t.Split? then q.Neighbors(q.Second(t)) else multiset{}
  }

  function Pending(q: Query, stack: seq<Frame>): multiset<Neighbor> {
    if stack == [] then multiset{}
    else Pending(q, Rest(stack)) + FramePending(q, Innermost(stack))
  }

  /** A subtree the search may meet: ordered, told from a leaf by num_pts, with dimensions in range. */
  ghost predicate Searchable(t: Tree, dims: nat) {
    KdOrdered(t) && LeafTest(t) && DimsBelow(t, dims)
  }

  predicate DimsBelow(t: Tree, dims: nat) {
    t.Split? ==> t.dim < dims && DimsBelow(t.left, dims) && DimsBelow(t.right, dims)
  }

  ghost predicate FrameOk(f: Frame, dims: nat) {
    Searchable(f.t, dims) && !f.t.Empty? && (f.Back? ==> f.t.Split?)
  }

  ghost predicate StackOk(stack: seq<Frame>, dims: nat) {
    forall i :: 0 <= i < |stack| ==> FrameOk(stack[i], dims)
  }

  /** The queue holds k nearest of everything that is not pending. */
  ghost predicate JobOk(q: Query, s: Job, all: multiset<Neighbor>) {
    && q.k >= 1 && Rounding(q.rnd)
    && s.found == |s.queue|
    && StackOk(s.stack, q.dims)
    && Pending(q, s.stack) <= all
    && KBest(s.queue, all - Pending(q, s.stack), q.k)
  }

  lemma NewJobOk(q: Query, root: Tree)
    requires q.k >= 1 && Rounding(q.rnd) && Searchable(root, q.dims) && !root.Empty?
    ensures JobOk(q, NewJob(root), q.Neighbors(root))
  {
    var st := NewJob(root).stack;
    assert st[..0] == [];
    assert Pending(q, st) == q.Neighbors(root);
    assert q.Neighbors(root) - Pending(q, st) == multiset{};
  }

  lemma PendingPush(q: Query, rest: seq<Frame>, t: Tree)
    ensures Pending(q, rest + Down(t)) == Pending(q, rest) + q.Neighbors(t)
  {
    if t.Empty? {
      assert rest + Down(t) == rest;
    } else {
      assert (rest + [Visit(t)])[..|rest|] == rest;
    }
  }

  lemma PendingDescend(q: Query, rest: seq<Frame>, t: Tree)
    requires t.Split?
    ensures Pending(q, rest + [Back(t)] + Down(q.First(t))) == Pending(q, rest) + q.Neighbors(t)
  {
    PendingPush(q, rest + [Back(t)], q.First(t));
    assert (rest + [Back(t)])[..|rest|] == rest;
    assert q.Neighbors(t) == q.Neighbors(q.Second(t)) + q.Neighbors(q.First(t));
  }

  /** What is no longer pending is done. */
  lemma DoneGrows(all: multiset<Neighbor>, p: multiset<Neighbor>, p': multiset<Neighbor>, x: multiset<Neighbor>)
    requires p <= all && p == p' + x
    ensures p' <= all && all - p' == all - p + x
  {
  }

  lemma OfferedOk(k: nat, s: Job, n: Neighbor, top: Neighbor, s': Job, done: multiset<Neighbor>)
    requires k >= 1 && s.found == |s.queue| && KBest(s.queue, done, k) && Offered(k, s, n, top, s')
    ensures s'.found == |s'.queue| && KBest(s'.queue, done + multiset{n}, k)
  {
    if s.found < k {
      OfferToOpen(s.queue, done, n, k);
    } else {
      OfferToFull(s.queue, done, n, top, k);
    }
  }

  lemma StackOkPush(stack: seq<Frame>, f: seq<Frame>, dims: nat)
    requires StackOk(stack, dims) && StackOk(f, dims)
    ensures StackOk(stack + f, dims)
  {
  }

  lemma StepStackOk(q: Query, s: Job, top: Neighbor, s': Job)
    requires StackOk(s.stack, q.dims) && JobStep(q, s, top, s')
    ensures StackOk(s'.stack, q.dims)
  {
    var rest, t := Rest(s.stack), Innermost(s.stack).t;
    assert FrameOk(Innermost(s.stack), q.dims);
    if t.Split? {
      StackOkPush(rest, [Back(t)], q.dims);
      StackOkPush(rest + [Back(t)], Down(q.First(t)), q.dims);
      StackOkPush(rest, Down(q.Second(t)), q.dims);
    }
    assert rest + [] == rest;
  }

  /** The step of a call for a leaf. */
  lemma LeafStep(q: Query, s: Job, top: Neighbor, s': Job, all: multiset<Neighbor>)
    requires JobOk(q, s, all) && s.stack != [] && StackOk(s'.stack, q.dims)
    requires Innermost(s.stack).Visit? && Innermost(s.stack).t.Leaf? && s'.stack == Rest(s.stack)
    requires Offered(q.k, s, q.At(Innermost(s.stack).t.point), top, s')
    ensures JobOk(q, s', all)
  {
    var n := q.At(Innermost(s.stack).t.point);
    DoneGrows(all, Pending(q, s.stack), Pending(q, s'.stack), multiset{n});
    OfferedOk(q.k, s, n, top, s', all - Pending(q, s.stack));
  }

  /** Skipping the second child when the splitting plane is no nearer than the farthest of a full queue. */
  lemma SkipStep(q: Query, s: Job, t: Tree, top: Neighbor, all: multiset<Neighbor>)
    requires JobOk(q, s, all) && s.stack != [] && Innermost(s.stack) == Back(t) && t.Split?
    requires !GoesOn(q, s, t, top) && IsTop(top, s.queue)
    ensures Pending(q, Rest(s.stack)) <= all
    ensures KBest(s.queue, all - Pending(q, Rest(s.stack)), q.k)
  {
    var far := q.Neighbors(q.Second(t));
    assert FrameOk(Innermost(s.stack), q.dims);
    forall n | n in far ensures top.distance <= n.distance {
      FarSubtree(q, t, n);
    }
    SkipFar(s.queue, all - Pending(q, s.stack), far, top, q.k);
    DoneGrows(all, Pending(q, s.stack), Pending(q, Rest(s.stack)), far);
  }

  lemma JobStepOk(q: Query, s: Job, top: Neighbor, s': Job, all: multiset<Neighbor>)
    requires JobOk(q, s, all) && JobStep(q, s, top, s')
    ensures JobOk(q, s', all)
  {
    var f := Innermost(s.stack);
    assert FrameOk(f, q.dims);
    StepStackOk(q, s, top, s');
    if f.Back? {
      PendingPush(q, Rest(s.stack), q.Second(f.t));
      assert Rest(s.stack) + [] == Rest(s.stack);
      if !GoesOn(q, s, f.t, top) {
        SkipStep(q, s, f.t, top, all);
      }
    } else if f.t.Leaf? {
      LeafStep(q, s, top, s', all);
    } else {
      PendingDescend(q, Rest(s.stack), f.t);
    }
  }

  /** A search with calls in progress can always go on. */
  lemma JobCanStep(q: Query, s: Job, all: multiset<Neighbor>) returns (top: Neighbor, s': Job)
    requires JobOk(q, s, all) && s.stack != []
    ensures JobStep(q, s, top, s')
  {
    var rest, f := Rest(s.stack), Innermost(s.stack);
    assert FrameOk(f, q.dims);
    if s.found >= q.k {
      top := TopExists(s.queue);
    } else {
      top := q.At([]);
    }
    var t := f.t;
    if f.Back? {
      s' := s.(stack := rest + if GoesOn(q, s, t, top) then Down(q.Second(t)) else []);
    } else if t.Split? {
      s' := s.(stack := rest + [Back(t)] + Down(q.First(t)));
    } else {
      var n := q.At(t.point);
      if s.found < q.k {
        s' := Job(s.queue + multiset{n}, s.found + 1, rest);
      } else {
        s' := Job(if n.distance < top.distance then s.queue - multiset{top} + multiset{n} else s.queue, s.found, rest);
      }
    }
  }

  lemma {:induction false} TopExists(queue: multiset<Neighbor>) returns (x: Neighbor)
    requires |queue| > 0
    ensures IsTop(x, queue)
    decreases |queue|
  {
    var y :| y in queue;
    var rest := queue - multiset{y};
    if |rest| == 0 {
      x := y;
      assert queue == multiset{y} + rest;
    } else {
      var z := TopExists(rest);
      x := if z.distance < y.distance then y else z;
      assert queue == multiset{y} + rest;
    }
  }

  // ---- A search ends ----

  function VisitWork(t: Tree): nat {
    if t.Split? then 2 + VisitWork(t.left) + VisitWork(t.right) else 1
  }

  function FrameWork(q: Query, f: Frame): nat {
    match f
    case Visit(t) => VisitWork(t)
    case Back(t) => if t.Split? then 1 + VisitWork(q.Second(t)) else 0
  }

  function StackWork(q: Query, stack: seq<Frame>): nat {
    if stack == [] then 0 else StackWork(q, Rest(stack)) + FrameWork(q, Innermost(stack))
  }

  lemma WorkPush(q: Query, rest: seq<Frame>, t: Tree)
    ensures StackWork(q, rest + Down(t)) <= StackWork(q, rest) + VisitWork(t)
  {
    if t.Empty? {
      assert rest + Down(t) == rest;
    } else {
      assert (rest + [Visit(t)])[..|rest|] == rest;
    }
  }

  lemma JobWorkShrinks(q: Query, s: Job, top: Neighbor, s': Job)
    requires JobStep(q, s, top, s')
    ensures StackWork(q, s'.stack) < StackWork(q, s.stack)
  {
    var rest, f := Rest(s.stack), Innermost(s.stack);
    if f.Back? {
      WorkPush(q, rest, q.Second(f.t));
      assert rest + [] == rest;
    } else if f.t.Split? && f.t.NumPts() != 1 {
      assert Rest(rest + [Back(f.t)]) == rest;
      WorkPush(q, rest + [Back(f.t)], q.First(f.t));
    }
  }

  // ---- The queue over a whole search ----

  /** A run of one search. */
  ghost predicate JobRun(q: Query, root: Tree, ss: seq<Job>) {
    && q.k >= 1 && Rounding(q.rnd) && Searchable(root, q.dims) && !root.Empty?
    && ss != [] && ss[0] == NewJob(root)
    && forall i :: 0 <= i < |ss| - 1 ==> JobStepAt(q, ss, i)
  }

  ghost predicate JobStepAt(q: Query, ss: seq<Job>, i: int)
    requires 0 <= i < |ss| - 1
  {
    JobMoves(q, ss[i], ss[i + 1])
  }

  lemma MoveOk(q: Query, s: Job, s': Job, all: multiset<Neighbor>)
    requires JobOk(q, s, all) && JobMoves(q, s, s')
    ensures JobOk(q, s', all)
  {
    var top :| JobStep(q, s, top, s');
    JobStepOk(q, s, top, s', all);
  }

  lemma JobSize(q: Query, s: Job, all: multiset<Neighbor>)
    requires JobOk(q, s, all)
    ensures s.found == |s.queue| <= q.k
  {
  }

  /** At every moment the counter is the queue size and at most k, and the queue holds the k nearest of
      all points not still pending, those of skipped subtrees included. */
  lemma {:induction false} JobRunOk(q: Query, root: Tree, ss: seq<Job>, i: nat)
    requires JobRun(q, root, ss) && i < |ss|
    ensures JobOk(q, ss[i], q.Neighbors(root))
    ensures ss[i].found == |ss[i].queue| <= q.k
    decreases i
  {
    if i == 0 {
      NewJobOk(q, root);
    } else {
      JobRunOk(q, root, ss, i - 1);
      assert JobStepAt(q, ss, i - 1);
      MoveOk(q, ss[i - 1], ss[i], q.Neighbors(root));
    }
    JobSize(q, ss[i], q.Neighbors(root));
  }

  /** A finished search holds the k nearest points of the whole tree: min(k, n) of them. */
  lemma FinishedJob(q: Query, root: Tree, s: Job)
    requires JobOk(q, s, q.Neighbors(root)) && s.stack == []
    ensures KBest(s.queue, q.Neighbors(root), q.k)
    ensures s.found == |s.queue| == Min(q.k, |q.Neighbors(root)|)
  {
    assert q.Neighbors(root) - Pending(q, s.stack) == q.Neighbors(root);
  }

  /** One step of a search whose queue is full. */
  lemma TopStep(q: Query, s: Job, top: Neighbor, s': Job, z: Neighbor)
    requires JobStep(q, s, top, s') && s.found == |s.queue| == q.k && q.k >= 1 && IsTop(z, s.queue)
    ensures |s'.queue| == q.k
    ensures forall y :: y in s'.queue ==> y.distance <= z.distance
  {
  }

  ghost predicate FullWithin(s: Job, k: nat, d: real) {
    |s.queue| == k && forall y :: y in s.queue ==> y.distance <= d
  }

  lemma StepOfRun(q: Query, root: Tree, ss: seq<Job>, i: nat, d: real)
    requires JobRun(q, root, ss) && i + 1 < |ss| && FullWithin(ss[i], q.k, d)
    ensures FullWithin(ss[i + 1], q.k, d)
  {
    JobRunOk(q, root, ss, i);
    var z := TopExists(ss[i].queue);
    assert JobStepAt(q, ss, i);
    var top :| JobStep(q, ss[i], top, ss[i + 1]);
    TopStep(q, ss[i], top, ss[i + 1], z);
  }

  /** Once the queue is full, its farthest distance never grows, so a subtree that could be skipped
      once can be skipped for the rest of the search. */
  lemma {:induction false} TopNeverGrows(q: Query, root: Tree, ss: seq<Job>, i: nat, j: nat, d: real)
    requires JobRun(q, root, ss) && i <= j < |ss| && FullWithin(ss[i], q.k, d)
    ensures FullWithin(ss[j], q.k, d)
    decreases j
  {
    if i < j {
      TopNeverGrows(q, root, ss, i, j - 1, d);
      StepOfRun(q, root, ss, j - 1, d);
    }
  }
}
