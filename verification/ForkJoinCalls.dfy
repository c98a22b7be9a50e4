/** One call of merge_sort or populate_nodes on its own, with all the threads it creates, in every
    interleaving and for every sequence of answers make_thread may give it. */
module ForkJoinCalls {
  import opened Points
  import opened StableSort
  import opened KdTree
  import opened ForkJoin
  import opened ForkJoinState
  import opened ForkJoinHeap
  import opened ForkJoinProgress

  /** Threads created less threads joined. */
  function Outstanding(es: seq<Event>): int {
    if es == [] then 0 else Outstanding(es[..|es| - 1]) + UnjoinedChange(es[|es| - 1])
  }

  /** Slots taken less slots given back or kept. */
  function Taken(es: seq<Event>): int {
    if es == [] then 0 else Taken(es[..|es| - 1]) + HeldChange(es[|es| - 1])
  }

  /** All nodes assigned. */
  function Writes(es: seq<Event>): map<Path, Cell> {
    if es == [] then map[] else Writes(es[..|es| - 1]) + Written(es[|es| - 1])
  }

  lemma OneMore(es: seq<Event>, i: nat)
    requires 0 < i <= |es|
    ensures Outstanding(es[..i]) == Outstanding(es[..i - 1]) + UnjoinedChange(es[i - 1])
    ensures Taken(es[..i]) == Taken(es[..i - 1]) + HeldChange(es[i - 1])
    ensures Writes(es[..i]) == Writes(es[..i - 1]) + Written(es[i - 1])
  {
    assert es[..i][..i - 1] == es[..i - 1];
  }

  // ---- merge_sort ----

  /** ts: the states of the call merge_sort(s) and of everything below it; es: what its steps do. */
  ghost predicate SortRun(cfg: Config, s: seq<Point>, d: nat, depth: nat, isThread: bool, ts: seq<Sort>, es: seq<Event>) {
    && s != [] && |ts| == |es| + 1 && ts[0] == NewSort(s, d, depth, isThread)
    && forall i :: 0 <= i < |es| ==> SortStepAt(cfg, ts, es, i)
  }

  predicate SortStepAt(cfg: Config, ts: seq<Sort>, es: seq<Event>, i: int)
    requires |ts| == |es| + 1 && 0 <= i < |es|
  {
    SortStep(cfg, ts[i], es[i], ts[i + 1])
  }

  lemma {:induction false} SortReached(cfg: Config, s: seq<Point>, d: nat, depth: nat, isThread: bool, ts: seq<Sort>,
                                       es: seq<Event>, i: nat)
    requires SortRun(cfg, s, d, depth, isThread, ts, es) && i < |ts|
    ensures SortOk(ts[i], s, d, depth, isThread)
    ensures SortWork(ts[i]) + i <= 8 * |s| - 7
    ensures SortUnjoined(ts[i]) == Outstanding(es[..i])
    ensures SortHeld(ts[i]) == Taken(es[..i]) + if isThread then 1 else 0
    decreases i
  {
    if i == 0 {
      NewSortOk(s, d, depth, isThread);
      NewThreads(s, d, depth, isThread, [], false);
    } else {
      SortReached(cfg, s, d, depth, isThread, ts, es, i - 1);
      assert SortStepAt(cfg, ts, es, i - 1);
      SortPreserved(cfg, ts[i - 1], es[i - 1], ts[i], s, d, depth, isThread);
      SortWorkShrinks(cfg, ts[i - 1], es[i - 1], ts[i], s, d, depth, isThread);
      SortThreads(cfg, ts[i - 1], es[i - 1], ts[i], s, d, depth, isThread);
      OneMore(es, i);
    }
  }

  /** Parallel merge sort equals the unique stable sort: for every non-empty range, every interleaving and
      every sequence of answers, the call ends within 8 * n - 7 steps, what it returns is a stable sort of
      its range and the only one there is, by then every thread it created has been joined, and all slots
      taken below it, and its own, have been given back or kept. */
  lemma ParallelSort(cfg: Config, s: seq<Point>, d: nat, depth: nat, isThread: bool, ts: seq<Sort>, es: seq<Event>)
    requires SortRun(cfg, s, d, depth, isThread, ts, es)
    ensures |es| <= 8 * |s| - 7
    ensures var t := ts[|es|]; t.SortDone? ==>
      && Outstanding(es) == 0 && Taken(es) == (if isThread then -1 else 0)
      && forall out :: StableSortOf(out, s, d) <==> out == t.out
  {
    SortReached(cfg, s, d, depth, isThread, ts, es, |es|);
    assert es[..|es|] == es;
    MergeSortIsStable(s, d);
    forall out | StableSortOf(out, s, d) ensures out == MergeSort(s, d) {
      StableSortUnique(out, MergeSort(s, d), d);
    }
  }

  /** Until it returns, the call can always go on, whatever the counter stands at. */
  lemma SortGoesOn(cfg: Config, s: seq<Point>, d: nat, depth: nat, isThread: bool, ts: seq<Sort>, es: seq<Event>, count: nat)
    returns (e: Event, t: Sort)
    requires SortRun(cfg, s, d, depth, isThread, ts, es) && ts[|es|].SortCall?
    ensures SortRun(cfg, s, d, depth, isThread, ts + [t], es + [e]) && Fits(cfg, e, count)
  {
    SortReached(cfg, s, d, depth, isThread, ts, es, |es|);
    e, t := SortCanStep(cfg, ts[|es|], s, d, depth, isThread, count);
    var ts', es' := ts + [t], es + [e];
    forall i | 0 <= i < |es'| ensures SortStepAt(cfg, ts', es', i) {
      if i < |es| {
        assert SortStepAt(cfg, ts, es, i);
        assert ts'[i] == ts[i] && ts'[i + 1] == ts[i + 1] && es'[i] == es[i];
      }
    }
  }

  // ---- populate_nodes ----

  /** A call populate_nodes(pts) for the slot at path. */
  datatype Call = Call(path: Path, pts: seq<Point>, dim: nat, depth: nat, isThread: bool, spawned: bool)

  ghost predicate CallRun(cfg: Config, c: Call, ts: seq<Build>, es: seq<Event>) {
    && c.dim < cfg.dims && Splits(c.pts, c.dim, cfg.dims) && (c.spawned ==> c.isThread)
    && |ts| == |es| + 1 && ts[0] == NewBuild(c.path, c.pts, c.dim, c.depth, c.isThread, c.spawned)
    && forall i :: 0 <= i < |es| ==> CallStepAt(cfg, ts, es, i)
  }

  predicate CallStepAt(cfg: Config, ts: seq<Build>, es: seq<Event>, i: int)
    requires |ts| == |es| + 1 && 0 <= i < |es|
  {
    BuildStep(cfg, ts[i], es[i], ts[i + 1])
  }

  ghost predicate CallOk(cfg: Config, c: Call, t: Build) {
    BuildOk(cfg, t, c.path, c.pts, c.dim, c.depth, c.isThread, c.spawned)
  }

  lemma {:induction false} CallState(cfg: Config, c: Call, ts: seq<Build>, es: seq<Event>, i: nat)
    requires CallRun(cfg, c, ts, es) && i < |ts|
    ensures CallOk(cfg, c, ts[i])
    ensures i < |es| ==> BuildStep(cfg, ts[i], es[i], ts[i + 1])
    decreases i
  {
    assert i < |es| ==> CallStepAt(cfg, ts, es, i);
    if i == 0 {
      NewBuildOk(cfg, c.path, c.pts, c.dim, c.depth, c.isThread, c.spawned);
    } else {
      CallState(cfg, c, ts, es, i - 1);
      BuildPreserved(cfg, ts[i - 1], es[i - 1], ts[i], c.path, c.pts, c.dim, c.depth, c.isThread, c.spawned);
    }
  }

  lemma {:induction false} CallThreads(cfg: Config, c: Call, ts: seq<Build>, es: seq<Event>, i: nat)
    requires CallRun(cfg, c, ts, es) && i < |ts|
    ensures BuildUnjoined(ts[i]) == Outstanding(es[..i])
    decreases i
  {
    if i == 0 {
      NewThreads(c.pts, c.dim, c.depth, c.isThread, c.path, c.spawned);
    } else {
      CallThreads(cfg, c, ts, es, i - 1);
      CallState(cfg, c, ts, es, i - 1);
      BuildThreads(cfg, ts[i - 1], es[i - 1], ts[i], c.path, c.pts, c.dim, c.depth, c.isThread, c.spawned);
      OneMore(es, i);
    }
  }

  lemma {:induction false} CallWrites(cfg: Config, c: Call, ts: seq<Build>, es: seq<Event>, i: nat)
    requires CallRun(cfg, c, ts, es) && i < |ts|
    ensures Owned(cfg, ts[i], c.path, c.pts, c.dim) == Writes(es[..i])
    decreases i
  {
    if i > 0 {
      CallWrites(cfg, c, ts, es, i - 1);
      CallState(cfg, c, ts, es, i - 1);
      OwnedGrows(cfg, ts[i - 1], es[i - 1], ts[i], c.path, c.pts, c.dim, c.depth, c.isThread, c.spawned);
      OneMore(es, i);
    }
  }

  /** Every call is a correct frame: what it and its threads write lies below its own slot, each slot is
      written once, and when the call returns it has written exactly the sequential kd-tree of its points
      and joined every thread created below it, so no thread is left holding its vectors. */
  lemma CallBuildsItsTree(cfg: Config, c: Call, ts: seq<Build>, es: seq<Event>, i: nat)
    requires CallRun(cfg, c, ts, es) && i < |es|
    ensures es[i].Write? ==> c.path <= es[i].path && es[i].path !in Writes(es[..i])
    ensures ts[i + 1].BuildDone? ==>
      && Writes(es[..i + 1]) == Nodes(BuildTree(c.pts, c.dim, cfg.dims), c.path)
      && Outstanding(es[..i + 1]) == 0
  {
    CallState(cfg, c, ts, es, i);
    CallWrites(cfg, c, ts, es, i);
    CallWrites(cfg, c, ts, es, i + 1);
    CallThreads(cfg, c, ts, es, i + 1);
    OwnedGrows(cfg, ts[i], es[i], ts[i + 1], c.path, c.pts, c.dim, c.depth, c.isThread, c.spawned);
  }
}
