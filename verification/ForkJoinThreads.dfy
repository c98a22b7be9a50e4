/** Threads and slots over whole runs: who is asked for, who gets a thread, and where its slot goes. */
module ForkJoinThreads {
  import opened Points
  import opened StableSort
  import opened KdTree
  import opened ForkJoin
  import opened ForkJoinState
  import opened ForkJoinSlots
  import opened ForkJoinHeap
  import opened ForkJoinRuns
  import opened ForkJoinCalls
  import opened Asks
  import opened ForkJoinAsks

  // ---- Counting events ----

  function Count(es: seq<Event>, e: Event): nat {
    if es == [] then 0 else Count(es[..|es| - 1], e) + if es[|es| - 1] == e then 1 else 0
  }

  /** Grants that raised the number of threads at work, one number for each state. */
  function Grants(live: seq<nat>, es: seq<Event>): nat
    requires |live| == |es| + 1
  {
    if es == [] then 0
    else
      var n := |es| - 1;
      Grants(live[..n + 1], es[..n]) + if es[n].Grant? && live[n + 1] > live[n] then 1 else 0
  }

  predicate LiveAt(ones: seq<nat>, others: seq<nat>, es: seq<Event>, i: int)
    requires |ones| == |others| == |es| + 1 && 0 <= i < |es|
  {
    LiveStep(ones[i], others[i], es[i], ones[i + 1], others[i + 1])
  }

  /** Every granted slot is kept if its thread has one element, and given back otherwise, when the thread
      ends. */
  lemma {:induction false} SlotsOfThreads(ones: seq<nat>, others: seq<nat>, es: seq<Event>)
    requires |ones| == |others| == |es| + 1 && forall i :: 0 <= i < |es| ==> LiveAt(ones, others, es, i)
    ensures ones[0] + Grants(ones, es) == ones[|es|] + Count(es, Keep)
    ensures others[0] + Grants(others, es) == others[|es|] + Count(es, Release(true))
    ensures Grants(ones, es) + Grants(others, es) == Count(es, Grant)
    decreases |es|
  {
    if es != [] {
      var n := |es| - 1;
      var o, p, s := ones[..n + 1], others[..n + 1], es[..n];
      forall i | 0 <= i < |s| ensures LiveAt(o, p, s, i) {
        assert LiveAt(ones, others, es, i);
      }
      SlotsOfThreads(o, p, s);
      assert LiveAt(ones, others, es, n);
    }
  }

  function Ended(isThread: bool, n: nat, one: bool): nat {
    if isThread && (n == 1) == one then 1 else 0
  }

  // ---- merge_sort ----

  function SortLives(ts: seq<Sort>, one: bool): seq<nat> {
    seq(|ts|, i requires 0 <= i < |ts| => SortLive(ts[i], one))
  }

  lemma {:induction false} SortAsked(cfg: Config, s: seq<Point>, d: nat, depth: nat, isThread: bool, ts: seq<Sort>,
                                     es: seq<Event>, i: nat)
    requires SortRun(cfg, s, d, depth, isThread, ts, es) && i < |ts|
    ensures Count(es[..i], Grant) + Count(es[..i], Refuse) + SortAsksLeft(cfg, ts[i]) == SortAsks(|s|, depth, cfg.forkDepth)
    decreases i
  {
    if i > 0 {
      SortAsked(cfg, s, d, depth, isThread, ts, es, i - 1);
      SortReached(cfg, s, d, depth, isThread, ts, es, i - 1);
      assert SortStepAt(cfg, ts, es, i - 1);
      SortStepAsks(cfg, ts[i - 1], es[i - 1], ts[i], s, d, depth, isThread);
      assert es[..i][..i - 1] == es[..i - 1];
    }
  }

  lemma NewSortLives(s: seq<Point>, d: nat, depth: nat, isThread: bool, one: bool)
    ensures SortLive(NewSort(s, d, depth, isThread), one) == Ended(isThread, |s|, one)
  {
    QuietHalf(Idle, one);
  }

  /** A whole sort: every call at a depth below static_depth asked twice, the slots kept are those granted
      to calls on one element, and the slots given back those granted to calls on more, each time
      counting the sort itself if it is a thread. */
  lemma SortSlots(cfg: Config, s: seq<Point>, d: nat, depth: nat, isThread: bool, ts: seq<Sort>, es: seq<Event>)
    requires SortRun(cfg, s, d, depth, isThread, ts, es) && ts[|es|].SortDone?
    ensures Count(es, Grant) + Count(es, Refuse) == SortAsks(|s|, depth, cfg.forkDepth)
    ensures Count(es, Keep) == Grants(SortLives(ts, true), es) + if isThread && |s| == 1 then 1 else 0
    ensures Count(es, Release(true)) == Grants(SortLives(ts, false), es) + if isThread && |s| != 1 then 1 else 0
    ensures Grants(SortLives(ts, true), es) + Grants(SortLives(ts, false), es) == Count(es, Grant)
  {
    SortAsked(cfg, s, d, depth, isThread, ts, es, |es|);
    assert es[..|es|] == es;
    var ones, others := SortLives(ts, true), SortLives(ts, false);
    forall i | 0 <= i < |es| ensures LiveAt(ones, others, es, i) {
      SortReached(cfg, s, d, depth, isThread, ts, es, i);
      assert SortStepAt(cfg, ts, es, i);
      SortStepLive(cfg, ts[i], es[i], ts[i + 1], s, d, depth, isThread);
    }
    SlotsOfThreads(ones, others, es);
    NewSortLives(s, d, depth, isThread, true);
    NewSortLives(s, d, depth, isThread, false);
  }

  // ---- populate_nodes ----

  function CallLives(ts: seq<Build>, one: bool): seq<nat> {
    seq(|ts|, i requires 0 <= i < |ts| => BuildLive(ts[i], one))
  }

  lemma {:induction false} CallAsked(cfg: Config, c: Call, ts: seq<Build>, es: seq<Event>, i: nat)
    requires CallRun(cfg, c, ts, es) && i < |ts|
    ensures var tree := BuildTree(c.pts, c.dim, cfg.dims);
      Count(es[..i], Grant) + Count(es[..i], Refuse) + BuildAsksLeft(cfg, ts[i], tree) == TreeAsks(tree, c.depth, cfg.forkDepth)
    decreases i
  {
    if i == 0 {
      NewCallAsks(cfg, Running(ts[0], c.spawned), BuildTree(c.pts, c.dim, cfg.dims));
    } else {
      CallAsked(cfg, c, ts, es, i - 1);
      CallState(cfg, c, ts, es, i - 1);
      BuildStepAsks(cfg, ts[i - 1], es[i - 1], ts[i], c.path, c.pts, c.dim, c.depth, c.isThread, c.spawned,
                    BuildTree(c.pts, c.dim, cfg.dims));
      assert es[..i][..i - 1] == es[..i - 1];
    }
  }

  lemma CallStepLive(cfg: Config, c: Call, ts: seq<Build>, es: seq<Event>, i: nat)
    requires CallRun(cfg, c, ts, es) && i < |es|
    ensures LiveStep(BuildLive(ts[i], true), BuildLive(ts[i], false), es[i], BuildLive(ts[i + 1], true), BuildLive(ts[i + 1], false))
  {
    CallState(cfg, c, ts, es, i);
    BuildStepLive(cfg, ts[i], es[i], ts[i + 1], c.path, c.pts, c.dim, c.depth, c.isThread, c.spawned);
  }

  lemma NewCallLives(c: Call, one: bool)
    ensures BuildLive(NewBuild(c.path, c.pts, c.dim, c.depth, c.isThread, c.spawned), one) == Ended(c.spawned, |c.pts|, one)
  {
    NewCallLive(Running(NewBuild(c.path, c.pts, c.dim, c.depth, c.isThread, c.spawned), c.spawned), one);
  }

  /** A whole call of populate_nodes: likewise, the sort of each inner node included, with the questions
      counted on the sequential subtree. */
  lemma CallSlots(cfg: Config, c: Call, ts: seq<Build>, es: seq<Event>)
    requires CallRun(cfg, c, ts, es) && ts[|es|].BuildDone?
    ensures Count(es, Grant) + Count(es, Refuse) == TreeAsks(BuildTree(c.pts, c.dim, cfg.dims), c.depth, cfg.forkDepth)
    ensures Count(es, Keep) == Grants(CallLives(ts, true), es) + if c.spawned && |c.pts| == 1 then 1 else 0
    ensures Count(es, Release(true)) == Grants(CallLives(ts, false), es) + if c.spawned && |c.pts| != 1 then 1 else 0
    ensures Grants(CallLives(ts, true), es) + Grants(CallLives(ts, false), es) == Count(es, Grant)
  {
    CallAsked(cfg, c, ts, es, |es|);
    assert es[..|es|] == es;
    var ones, others := CallLives(ts, true), CallLives(ts, false);
    forall i | 0 <= i < |es| ensures LiveAt(ones, others, es, i) {
      CallStepLive(cfg, c, ts, es, i);
    }
    SlotsOfThreads(ones, others, es);
    NewCallLives(c, true);
    NewCallLives(c, false);
  }

  // ---- make_tree ----

  function WorldLives(ws: seq<World>, one: bool): seq<nat> {
    seq(|ws|, i requires 0 <= i < |ws| => MainLive(ws[i].main, one))
  }

  lemma InitialAsks(cfg: Config, pts: seq<Point>)
    requires cfg.dims >= 1 && RootSplits(pts, cfg.dims)
    ensures var tree := BuildRoot(pts, cfg.dims);
      MainAsksLeft(cfg, InitialWorld(pts).main, tree) == RootAsks(tree, cfg.forkDepth)
  {
  }

  ghost predicate StepOk(cfg: Config, w: World, e: Event, w': World) {
    MainOk(cfg, w.main) && MainOk(cfg, w'.main) && WorldStep(cfg, w, e, w')
  }

  lemma StatesOf(cfg: Config, pts: seq<Point>, ws: seq<World>, es: seq<Event>, i: nat)
    requires BuildRun(cfg, pts, ws, es) && 0 < i < |ws|
    ensures StepOk(cfg, ws[i - 1], es[i - 1], ws[i])
  {
    MainOkAt(cfg, pts, ws, es, i - 1);
    MainOkAt(cfg, pts, ws, es, i);
    ForkJoinRuns.StepOfRun(cfg, pts, ws, es, i);
  }

  lemma MainOkAt(cfg: Config, pts: seq<Point>, ws: seq<World>, es: seq<Event>, i: nat)
    requires BuildRun(cfg, pts, ws, es) && i < |ws|
    ensures MainOk(cfg, ws[i].main) && ws[i].main.pts == pts
  {
    Reached(cfg, pts, ws, es, i);
  }

  lemma StepAsks(cfg: Config, w: World, e: Event, w': World, tree: Tree)
    requires StepOk(cfg, w, e, w') && tree == BuildRoot(w.main.pts, cfg.dims)
    ensures MainAsksLeft(cfg, w.main, tree) == MainAsksLeft(cfg, w'.main, tree) + Question(e)
    ensures w'.forked == w.forked + if e == Grant then 1 else 0
  {
    MainStepAsks(cfg, w.main, e, w'.main, tree);
  }

  lemma NoneLeft(cfg: Config, t: Main, tree: Tree)
    requires MainOk(cfg, t) && t.pc.Returned? && tree == BuildRoot(t.pts, cfg.dims)
    ensures MainAsksLeft(cfg, t, tree) == 0
  {
    RootShape(t.pts, cfg.dims, tree);
    QuietCallAsks(cfg, t.l, if tree.Split? then tree.left else Empty);
    QuietCallAsks(cfg, t.r, if tree.Split? then tree.right else Empty);
  }

  /** In every state: threads granted, questions refused, and questions still to come make up the number
      that the sequential tree and static_depth fix. */
  lemma {:induction false} EveryQuestionAsked(cfg: Config, pts: seq<Point>, ws: seq<World>, es: seq<Event>, i: nat)
    requires BuildRun(cfg, pts, ws, es) && i < |ws|
    ensures ws[i].forked == Count(es[..i], Grant)
    ensures var tree := BuildRoot(pts, cfg.dims);
      ws[i].forked + Count(es[..i], Refuse) + MainAsksLeft(cfg, ws[i].main, tree) == RootAsks(tree, cfg.forkDepth)
    decreases i
  {
    if i == 0 {
      InitialAsks(cfg, pts);
    } else {
      EveryQuestionAsked(cfg, pts, ws, es, i - 1);
      NextAsks(cfg, pts, ws, es, i);
      assert es[..i][..i - 1] == es[..i - 1];
    }
  }

  lemma NextAsks(cfg: Config, pts: seq<Point>, ws: seq<World>, es: seq<Event>, i: nat)
    requires BuildRun(cfg, pts, ws, es) && 0 < i < |ws|
    ensures var tree := BuildRoot(pts, cfg.dims);
      MainAsksLeft(cfg, ws[i - 1].main, tree) == MainAsksLeft(cfg, ws[i].main, tree) + Question(es[i - 1])
    ensures ws[i].forked == ws[i - 1].forked + if es[i - 1] == Grant then 1 else 0
    ensures es[i - 1] == Refuse ==> ws[i - 1].count >= cfg.limit
  {
    StatesOf(cfg, pts, ws, es, i);
    MainOkAt(cfg, pts, ws, es, i - 1);
    StepAsks(cfg, ws[i - 1], es[i - 1], ws[i], BuildRoot(pts, cfg.dims));
  }

  /** A whole build has asked exactly that often. */
  lemma AllAsked(cfg: Config, pts: seq<Point>, ws: seq<World>, es: seq<Event>, i: nat)
    requires BuildRun(cfg, pts, ws, es) && i < |ws| && ws[i].main.pc.Returned?
    ensures ws[i].forked + Count(es[..i], Refuse) == RootAsks(BuildRoot(pts, cfg.dims), cfg.forkDepth)
  {
    EveryQuestionAsked(cfg, pts, ws, es, i);
    MainOkAt(cfg, pts, ws, es, i);
    NoneLeft(cfg, ws[i].main, BuildRoot(pts, cfg.dims));
  }

  lemma ReleaseLowers(cfg: Config, pts: seq<Point>, ws: seq<World>, es: seq<Event>, i: nat)
    requires BuildRun(cfg, pts, ws, es) && 0 < i < |ws| && cfg.limit >= 2
    ensures es[i - 1].Release? ==> ws[i].count == ws[i - 1].count - 1
  {
    SlotAccounting(cfg, pts, ws, es, i);
  }

  lemma CountStep(cfg: Config, w: World, e: Event, w': World)
    requires WorldStep(cfg, w, e, w') && w.count <= w.forked && (e.Release? ==> w'.count == w.count - 1)
    ensures w'.count <= w'.forked
  {
  }

  /** The counter never exceeds the number of grants. */
  lemma {:induction false} CountWithinGrants(cfg: Config, pts: seq<Point>, ws: seq<World>, es: seq<Event>, i: nat)
    requires BuildRun(cfg, pts, ws, es) && i < |ws| && cfg.limit >= 2
    ensures ws[i].count <= ws[i].forked
    decreases i
  {
    if i > 0 {
      CountWithinGrants(cfg, pts, ws, es, i - 1);
      ReleaseLowers(cfg, pts, ws, es, i);
      ForkJoinRuns.StepOfRun(cfg, pts, ws, es, i);
      CountStep(cfg, ws[i - 1], es[i - 1], ws[i]);
    }
  }

  /** With a limit no smaller than the number of questions no thread is refused, and the build ends
      having created exactly that many. */
  lemma {:induction false} AllGranted(cfg: Config, pts: seq<Point>, ws: seq<World>, es: seq<Event>, i: nat)
    requires BuildRun(cfg, pts, ws, es) && i < |ws| && cfg.limit >= 2
    requires cfg.limit >= RootAsks(BuildRoot(pts, cfg.dims), cfg.forkDepth)
    ensures Count(es[..i], Refuse) == 0
    ensures ws[i].main.pc.Returned? ==> ws[i].forked == RootAsks(BuildRoot(pts, cfg.dims), cfg.forkDepth)
    decreases i
  {
    if i > 0 {
      AllGranted(cfg, pts, ws, es, i - 1);
      EveryQuestionAsked(cfg, pts, ws, es, i - 1);
      CountWithinGrants(cfg, pts, ws, es, i - 1);
      NextAsks(cfg, pts, ws, es, i);
      assert es[..i][..i - 1] == es[..i - 1];
    }
    if ws[i].main.pc.Returned? {
      AllAsked(cfg, pts, ws, es, i);
    }
  }

  lemma {:induction false} KeptIsKeeps(cfg: Config, pts: seq<Point>, ws: seq<World>, es: seq<Event>, i: nat)
    requires BuildRun(cfg, pts, ws, es) && i < |ws|
    ensures ws[i].kept == Count(es[..i], Keep)
    decreases i
  {
    if i > 0 {
      KeptIsKeeps(cfg, pts, ws, es, i - 1);
      StatesOf(cfg, pts, ws, es, i);
      assert es[..i][..i - 1] == es[..i - 1];
    }
  }

  lemma {:induction false} SortHeldIsLive(t: Sort)
    ensures SortHeld(t) == SortLive(t, true) + SortLive(t, false)
    decreases t
  {
    if t.SortCall? {
      if t.l.Running? { SortHeldIsLive(t.l.task); }
      if t.r.Running? { SortHeldIsLive(t.r.task); }
    }
  }

  lemma {:induction false} BuildHeldIsLive(t: Build)
    ensures BuildHeld(t) == BuildLive(t, true) + BuildLive(t, false)
    decreases t
  {
    if t.BuildCall? {
      if t.pc.Sorting? { SortHeldIsLive(t.pc.sort); }
      if t.l.Running? { BuildHeldIsLive(t.l.task); }
      if t.r.Running? { BuildHeldIsLive(t.r.task); }
    }
  }

  lemma HeldIsLive(t: Main)
    ensures Held(t) == MainLive(t, true) + MainLive(t, false)
  {
    if t.pc.RootSort? { SortHeldIsLive(t.pc.sort); }
    if t.l.Running? { BuildHeldIsLive(t.l.task); }
    if t.r.Running? { BuildHeldIsLive(t.r.task); }
  }

  lemma LivesOfRun(cfg: Config, pts: seq<Point>, ws: seq<World>, es: seq<Event>, i: nat)
    requires BuildRun(cfg, pts, ws, es) && i < |ws|
    ensures MainLive(ws[i].main, true) + Count(es[..i], Keep) == Grants(WorldLives(ws[..i + 1], true), es[..i])
    ensures MainLive(ws[i].main, false) + Count(es[..i], Release(true)) == Grants(WorldLives(ws[..i + 1], false), es[..i])
  {
    var v, f := ws[..i + 1], es[..i];
    var ones, others := WorldLives(v, true), WorldLives(v, false);
    forall j | 0 <= j < |f| ensures LiveAt(ones, others, f, j) {
      StatesOf(cfg, pts, ws, es, j + 1);
      MainStepLive(cfg, ws[j].main, es[j], ws[j + 1].main);
    }
    SlotsOfThreads(ones, others, f);
  }

  /** The counter exactly: one for every call on one element that was ever granted a thread, and one for
      every other one granted and still at work, less the releases by root tasks without a slot. */
  lemma CounterExactly(cfg: Config, pts: seq<Point>, ws: seq<World>, es: seq<Event>, i: nat)
    requires BuildRun(cfg, pts, ws, es) && i < |ws| && cfg.limit >= 2
    ensures ws[i].count + ws[i].early == Grants(WorldLives(ws[..i + 1], true), es[..i]) + MainLive(ws[i].main, false)
    ensures ws[i].kept + MainLive(ws[i].main, true) == Grants(WorldLives(ws[..i + 1], true), es[..i])
  {
    SlotAccounting(cfg, pts, ws, es, i);
    KeptIsKeeps(cfg, pts, ws, es, i);
    HeldIsLive(ws[i].main);
    LivesOfRun(cfg, pts, ws, es, i);
  }
}
