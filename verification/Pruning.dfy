/** What each step of a search does, told by distances of points: which child comes first, when the other
    is skipped, and when a leaf enters the queue. */
module Pruning {
  import opened Points
  import opened KdTree
  import opened Nearest
  import opened Euclid
  import opened Search

  function Near(q: Query, t: Tree): Tree
    requires t.Split?
  {
    if Coord(q.point, t.dim) < t.median then t.left else t.right
  }

  function Far(q: Query, t: Tree): Tree
    requires t.Split?
  {
    if Coord(q.point, t.dim) < t.median then t.right else t.left
  }

  lemma TopDecides(queue: multiset<Neighbor>, k: nat, d: real, top: Neighbor)
    requires IsTop(top, queue) && |queue| >= k
    ensures FullUpTo(queue, k, d) <==> top.distance <= d
  {
  }

  lemma StateOfRun(q: Query, root: Tree, ss: seq<Job>, i: nat)
    requires JobRun(q, root, ss) && i + 1 < |ss|
    ensures JobMoves(q, ss[i], ss[i + 1]) && ss[i].found == |ss[i].queue| && StackOk(ss[i].stack, q.dims)
  {
    JobRunOk(q, root, ss, i);
    assert JobStepAt(q, ss, i);
  }

  /** An inner node is entered: the child on the query's side of the plane is searched first. */
  lemma NearSideFirst(q: Query, root: Tree, ss: seq<Job>, i: nat, t: Tree)
    requires JobRun(q, root, ss) && i + 1 < |ss| && ss[i].stack != [] && Innermost(ss[i].stack) == Visit(t) && t.Split?
    ensures ss[i + 1].queue == ss[i].queue
    ensures ss[i + 1].stack == Rest(ss[i].stack) + [Back(t)] + if Near(q, t).Empty? then [] else [Visit(Near(q, t))]
  {
    StateOfRun(q, root, ss, i);
    assert FrameOk(ss[i].stack[|ss[i].stack| - 1], q.dims);
    var top :| JobStep(q, ss[i], top, ss[i + 1]);
  }

  /** Back from the first child, the other one is skipped exactly when the queue is full and nothing in it
      is farther than the query's projection on the splitting plane. */
  lemma FarSideSkippedExactly(q: Query, root: Tree, ss: seq<Job>, i: nat, t: Tree)
    requires JobRun(q, root, ss) && i + 1 < |ss| && ss[i].stack != [] && Innermost(ss[i].stack) == Back(t)
    requires |q.point| == q.dims
    ensures t.Split? && t.dim < q.dims && ss[i + 1].queue == ss[i].queue
    ensures ss[i + 1].stack
         == Rest(ss[i].stack)
            + if FullUpTo(ss[i].queue, q.k, q.Key(q.point[t.dim := t.median])) || Far(q, t).Empty? then [] else [Visit(Far(q, t))]
  {
    StateOfRun(q, root, ss, i);
    assert FrameOk(ss[i].stack[|ss[i].stack| - 1], q.dims);
    PlaneDistance(q, t.dim, t.median);
    var top :| JobStep(q, ss[i], top, ss[i + 1]);
    if ss[i].found >= q.k {
      TopDecides(ss[i].queue, q.k, q.Gap(t.dim, t.median), top);
    }
  }

  /** A leaf: its point enters the queue exactly when the queue is not full or holds something farther, of
      which one that is farthest then goes. Points at the same distance do not displace each other. */
  lemma LeafEntersExactly(q: Query, root: Tree, ss: seq<Job>, i: nat, t: Tree) returns (gone: Neighbor)
    requires JobRun(q, root, ss) && i + 1 < |ss| && ss[i].stack != [] && Innermost(ss[i].stack) == Visit(t) && t.Leaf?
    ensures ss[i + 1].stack == Rest(ss[i].stack)
    ensures |ss[i].queue| < q.k ==> ss[i + 1].queue == ss[i].queue + multiset{q.At(t.point)}
    ensures FullUpTo(ss[i].queue, q.k, q.Key(t.point)) ==> ss[i + 1].queue == ss[i].queue
    ensures |ss[i].queue| >= q.k && !FullUpTo(ss[i].queue, q.k, q.Key(t.point)) ==>
      IsTop(gone, ss[i].queue) && ss[i + 1].queue == ss[i].queue - multiset{gone} + multiset{q.At(t.point)}
  {
    StateOfRun(q, root, ss, i);
    var top :| JobStep(q, ss[i], top, ss[i + 1]);
    gone := top;
    if ss[i].found >= q.k {
      TopDecides(ss[i].queue, q.k, q.Key(t.point), top);
    }
  }
}
