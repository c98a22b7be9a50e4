/** The results on the parallel build: what holds in every state of every interleaving. */
module ForkJoinRuns {
  import opened Points
  import opened KdTree
  import opened KdBalance
  import opened ForkJoin
  import opened ForkJoinState
  import opened ForkJoinSlots
  import opened ForkJoinHeap
  import opened ForkJoinProgress

  ghost predicate StateOk(cfg: Config, pts: seq<Point>, w: World) {
    && w.main.pts == pts && MainOk(cfg, w.main)
    && w.heap == Heap(cfg, w.main)
    && w.forked == w.joined + Unjoined(w.main)
  }

  lemma ThreadsBalance(cfg: Config, w: World, e: Event, w': World)
    requires MainOk(cfg, w.main) && WorldStep(cfg, w, e, w')
    ensures Held(w'.main) == Held(w.main) + HeldChange(e)
    ensures Unjoined(w'.main) == Unjoined(w.main) + UnjoinedChange(e)
  {
    var t, t' := w.main, w'.main;
    if MainOwn(cfg, t, e, t') {
      MainOwnThreads(cfg, t, e, t');
    } else if t' == t.(l := t'.l) && BuildChildStep(cfg, t.l, e, t'.l) {
      RootChildThreads(cfg, t.l, e, t'.l, t.pts, false, t.pc.median);
    } else {
      RootChildThreads(cfg, t.r, e, t'.r, t.pts, true, t.pc.median);
    }
  }

  lemma NextStateOk(cfg: Config, pts: seq<Point>, w: World, e: Event, t': Main)
    requires StateOk(cfg, pts, w) && MainOk(cfg, t') && t'.pts == pts
    requires Grows([], Heap(cfg, w.main), e, Heap(cfg, t'))
    requires Unjoined(t') == Unjoined(w.main) + UnjoinedChange(e)
    ensures StateOk(cfg, pts, Effect(w, e).(main := t'))
  {
    assert Effect(w, e).heap == w.heap + Written(e);
  }

  lemma StepKeepsState(cfg: Config, pts: seq<Point>, w: World, e: Event, w': World)
    requires StateOk(cfg, pts, w) && WorldStep(cfg, w, e, w')
    ensures StateOk(cfg, pts, w')
    ensures MainWork(cfg, w'.main) < MainWork(cfg, w.main)
  {
    MainPreserved(cfg, w.main, e, w'.main);
    HeapGrows(cfg, w.main, e, w'.main);
    ThreadsBalance(cfg, w, e, w');
    MainWorkShrinks(cfg, w.main, e, w'.main);
    SamePoints(cfg, w.main, e, w'.main);
    NextStateOk(cfg, pts, w, e, w'.main);
  }

  lemma SamePoints(cfg: Config, t: Main, e: Event, t': Main)
    requires MainStep(cfg, t, e, t')
    ensures t'.pts == t.pts
  {
  }

  lemma StepOfRun(cfg: Config, pts: seq<Point>, ws: seq<World>, es: seq<Event>, i: nat)
    requires BuildRun(cfg, pts, ws, es) && 0 < i < |ws|
    ensures WorldStep(cfg, ws[i - 1], es[i - 1], ws[i])
  {
    assert StepAt(cfg, ws, es, i - 1);
  }

  lemma {:induction false} Reached(cfg: Config, pts: seq<Point>, ws: seq<World>, es: seq<Event>, i: nat)
    requires BuildRun(cfg, pts, ws, es) && i < |ws|
    ensures StateOk(cfg, pts, ws[i])
    ensures MainWork(cfg, ws[i].main) + i <= MainWork(cfg, ws[0].main)
    decreases i
  {
    if i > 0 {
      Reached(cfg, pts, ws, es, i - 1);
      StepOfRun(cfg, pts, ws, es, i);
      StepKeepsState(cfg, pts, ws[i - 1], es[i - 1], ws[i]);
    }
  }

  /** Whatever the interleaving and whatever make_thread answers, the nodes assigned so far are a part
      of the sequential kd-tree, and all of it once make_tree has returned. */
  lemma PartialTree(cfg: Config, pts: seq<Point>, ws: seq<World>, es: seq<Event>, i: nat)
    requires BuildRun(cfg, pts, ws, es) && i < |ws|
    ensures PartOf(ws[i].heap, Nodes(BuildRoot(pts, cfg.dims), []))
    ensures ws[i].main.pc.Returned? ==> ws[i].heap == Nodes(BuildRoot(pts, cfg.dims), [])
  {
    Reached(cfg, pts, ws, es, i);
    HeapPart(cfg, ws[i].main);
  }

  /** Every slot is assigned at most once, with the node of the sequential tree. */
  lemma WriteOnce(cfg: Config, pts: seq<Point>, ws: seq<World>, es: seq<Event>, i: nat)
    requires BuildRun(cfg, pts, ws, es) && i < |es| && es[i].Write?
    ensures es[i].path !in ws[i].heap
    ensures var tree := Nodes(BuildRoot(pts, cfg.dims), []);
      es[i].path in tree && tree[es[i].path] == es[i].cell
  {
    Reached(cfg, pts, ws, es, i);
    Reached(cfg, pts, ws, es, i + 1);
    assert StepAt(cfg, ws, es, i);
    HeapGrows(cfg, ws[i].main, es[i], ws[i + 1].main);
    PartialTree(cfg, pts, ws, es, i + 1);
    assert es[i].path in ws[i + 1].heap;
  }

  /** Threads created are threads joined plus threads still running, and when make_tree returns every
      thread has been joined and nobody holds a slot. */
  lemma ForkJoinBalance(cfg: Config, pts: seq<Point>, ws: seq<World>, es: seq<Event>, i: nat)
    requires BuildRun(cfg, pts, ws, es) && i < |ws|
    ensures ws[i].forked == ws[i].joined + Unjoined(ws[i].main)
    ensures ws[i].main.pc.Returned? ==> ws[i].forked == ws[i].joined && Held(ws[i].main) == 0
  {
    Reached(cfg, pts, ws, es, i);
    BuildDoneThreads(ws[i].main.l);
    BuildDoneThreads(ws[i].main.r);
  }

  /** No reachable state is a deadlock. */
  lemma RunsCanContinue(cfg: Config, pts: seq<Point>, ws: seq<World>, es: seq<Event>) returns (e: Event, w: World)
    requires BuildRun(cfg, pts, ws, es) && !ws[|es|].main.pc.Returned?
    ensures BuildRun(cfg, pts, ws + [w], es + [e])
  {
    Reached(cfg, pts, ws, es, |es|);
    e, w := NoDeadlock(cfg, ws[|es|]);
    var ws', es' := ws + [w], es + [e];
    forall i | 0 <= i < |es'| ensures StepAt(cfg, ws', es', i) {
      if i < |es| {
        assert StepAt(cfg, ws, es, i);
        assert ws'[i] == ws[i] && ws'[i + 1] == ws[i + 1] && es'[i] == es[i];
      }
    }
  }

  /** Steps of a whole build: fixed by the sequential tree, whatever the interleaving. */
  ghost function TotalWork(pts: seq<Point>, dims: nat): nat
    requires dims >= 1 && RootSplits(pts, dims)
  {
    var t := BuildRoot(pts, dims);
    if t.Leaf? then 1 else 8 * (|pts| / 4) + 1 + TreeWork(t.left) + TreeWork(t.right)
  }

  /** Every interleaving terminates: no run is longer than TotalWork. */
  lemma RunsAreBounded(cfg: Config, pts: seq<Point>, ws: seq<World>, es: seq<Event>)
    requires BuildRun(cfg, pts, ws, es)
    ensures |es| <= TotalWork(pts, cfg.dims)
  {
    Reached(cfg, pts, ws, es, |es|);
    assert MainWork(cfg, ws[0].main) == TotalWork(pts, cfg.dims);
  }

  /** Every interleaving, at any point, can be continued until make_tree returns. */
  lemma {:induction false} RunsCanFinish(cfg: Config, pts: seq<Point>, ws: seq<World>, es: seq<Event>)
    returns (ws': seq<World>, es': seq<Event>)
    requires BuildRun(cfg, pts, ws, es)
    ensures BuildRun(cfg, pts, ws', es') && ws <= ws' && es <= es'
    ensures ws'[|es'|].main.pc.Returned?
    decreases TotalWork(pts, cfg.dims) - |es|
  {
    ws', es' := ws, es;
    if !ws[|es|].main.pc.Returned? {
      var e, w := RunsCanContinue(cfg, pts, ws, es);
      RunsAreBounded(cfg, pts, ws + [w], es + [e]);
      ws', es' := RunsCanFinish(cfg, pts, ws + [w], es + [e]);
    }
  }

  // ---- An empty sample ----

  /** merge_sort fails its assertion on an empty range. */
  lemma EmptySortBlocks(cfg: Config, d: nat, depth: nat, isThread: bool, e: Event, t: Sort)
    ensures !SortStep(cfg, NewSort([], d, depth, isThread), e, t)
  {
  }

  /** A quarter of two or three points is an empty sample, so make_tree is stopped by the assertion in
      merge_sort right after its first step; with any other number of points it gets past it. */
  lemma FirstSortStartsExactly(cfg: Config, pts: seq<Point>, e: Event, w: World)
    requires WorldStep(cfg, InitialWorld(pts), e, w)
    ensures w.main.pc.Returned? || (exists e', w' :: WorldStep(cfg, w, e', w')) <==> |pts| == 1 || |pts| >= 4
  {
    if 2 <= |pts| <= 3 {
      assert pts[..|pts| / 4] == [];
      forall e', w' ensures !WorldStep(cfg, w, e', w') {
        if WorldStep(cfg, w, e', w') && w'.main.pc.RootSort? {
          EmptySortBlocks(cfg, 0, 0, false, e', w'.main.pc.sort);
        }
      }
    } else if |pts| >= 4 {
      var s := pts[..|pts| / 4];
      var sort := if |s| == 1 then SortDone([s[0]]) else NewSort(s, 0, 0, false).(pc := SortForkL);
      assert SortOwn(cfg, w.main.pc.sort, Tau, sort);
      assert WorldStep(cfg, w, Tau, w.(main := w.main.(pc := RootSort(sort))));
    }
  }

  // ---- Slots ----

  /** Main result on slots: with a limit of at least 2, over every interleaving the counter equals
      slots held + slots kept - early releases, stays within the limit without wrapping, and so do
      the unreleased spawned tasks. */
  lemma {:induction false} SlotAccounting(cfg: Config, pts: seq<Point>, ws: seq<World>, es: seq<Event>, i: nat)
    requires BuildRun(cfg, pts, ws, es) && i < |ws| && cfg.limit >= 2
    ensures var w := ws[i];
      && SlotsOk(cfg, w)
      && w.count + w.early == Held(w.main) + w.kept
      && w.count <= cfg.limit && Held(w.main) <= cfg.limit
    ensures i > 0 && es[i - 1].Release? ==> ws[i].count == ws[i - 1].count - 1
    decreases i
  {
    if i == 0 {
      InitialSlotsOk(cfg, pts);
    } else {
      SlotAccounting(cfg, pts, ws, es, i - 1);
      StepOfRun(cfg, pts, ws, es, i);
      StepKeepsSlots(cfg, ws[i - 1], es[i - 1], ws[i]);
    }
  }

  lemma StepKeepsSlots(cfg: Config, w: World, e: Event, w': World)
    requires cfg.limit >= 2 && SlotsOk(cfg, w) && WorldStep(cfg, w, e, w')
    ensures SlotsOk(cfg, w') && (e.Release? ==> w.count > 0)
  {
    if MainOwn(cfg, w.main, e, w'.main) {
      OwnStepKeepsSlots(cfg, w, e, w');
    } else {
      ChildStepKeepsSlots(cfg, w, e, w');
    }
  }

  predicate WithinLimit(limit: nat, ws: seq<World>) {
    forall i :: 0 <= i < |ws| ==> ws[i].count <= limit
  }

  /** Over all machines: tmp_thread_count stays within thread_limit in every interleaving of every
      build exactly when the number of cores is not 0 and 30 + 2 * cores does not wrap to 0. */
  lemma SlotsSafeExactly(cores: nat)
    requires cores <= UINT_MAX
    ensures (forall dims: nat, pts, ws, es ::
               BuildRun(Config(dims, ThreadLimit(cores), ForkDepth(cores)), pts, ws, es) ==> WithinLimit(ThreadLimit(cores), ws))
       <==> cores != 0 && cores != 0x7FFF_FFF1 && cores != 0xFFFF_FFF1
  {
    var limit, depth := ThreadLimit(cores), ForkDepth(cores);
    ThreadLimitAtLeastTwo(cores);
    if limit >= 2 {
      forall dims: nat, pts, ws: seq<World>, es | BuildRun(Config(dims, limit, depth), pts, ws, es) ensures WithinLimit(limit, ws) {
        forall i | 0 <= i < |ws| ensures ws[i].count <= limit {
          SlotAccounting(Config(dims, limit, depth), pts, ws, es, i);
        }
      }
    } else {
      assert limit == 0;
      var pts, ws, es := RunWithoutSlots(depth);
      assert !WithinLimit(0, ws);
    }
  }

  // With no slots both root tasks run inline, and the first release of a slot nobody had takes the
  // counter from 0 to UINT_MAX.

  const STEPS: seq<Event> := [Tau, Tau, Write([], SplitCell(0, 0.0, 4)), Refuse, Refuse, Tau, Tau, Release(false)]

  function AtRoot(pts: seq<Point>, heap: map<Path, Cell>, pc: MainPc): World {
    InitialWorld(pts).(main := Main(pts, pc, Idle, Idle), heap := heap)
  }

  /** make_tree is at its left root task, which has no points. */
  function AtLeft(pts: seq<Point>, pc: BuildPc): World {
    AtRoot(pts, map[[] := SplitCell(0, 0.0, 4)], RunL(0.0)).(
      main := Main(pts, RunL(0.0), Running(NewBuild([false], [], 0, 1, true, false).(pc := pc), false), Idle))
  }

  function Wrapped(pts: seq<Point>): World {
    AtLeft(pts, Exit).(main := Main(pts, RunL(0.0), Running(BuildDone, false), Idle), count := UINT_MAX, early := 1)
  }

  function Stages(pts: seq<Point>): seq<World>
    requires |pts| == 4
  {
    var heap: map<Path, Cell> := map[[] := SplitCell(0, 0.0, 4)];
    [InitialWorld(pts),
     AtRoot(pts, map[], RootSort(NewSort(pts[..1], 0, 0, false))),
     AtRoot(pts, map[], RootSort(SortDone([pts[0]]))),
     AtRoot(pts, heap, AskL(0.0)),
     AtRoot(pts, heap, AskR(0.0)),
     AtRoot(pts, heap, RunL(0.0)),
     AtLeft(pts, Enter),
     AtLeft(pts, Exit),
     Wrapped(pts)]
  }

  lemma SortStages(cfg: Config, pts: seq<Point>)
    requires |pts| == 4 && Coord(pts[0], 0) == 0.0
    ensures var sort := NewSort(pts[..1], 0, 0, false);
      && WorldStep(cfg, InitialWorld(pts), Tau, AtRoot(pts, map[], RootSort(sort)))
      && WorldStep(cfg, AtRoot(pts, map[], RootSort(sort)), Tau, AtRoot(pts, map[], RootSort(SortDone([pts[0]]))))
      && WorldStep(cfg, AtRoot(pts, map[], RootSort(SortDone([pts[0]]))), Write([], SplitCell(0, 0.0, 4)),
                   AtRoot(pts, map[[] := SplitCell(0, 0.0, 4)], AskL(0.0)))
  {
    assert SortOwn(cfg, NewSort(pts[..1], 0, 0, false), Tau, SortDone([pts[0]]));
  }

  lemma AskStages(cfg: Config, pts: seq<Point>, heap: map<Path, Cell>)
    requires cfg.dims == 1 && cfg.limit == 0
    ensures WorldStep(cfg, AtRoot(pts, heap, AskL(0.0)), Refuse, AtRoot(pts, heap, AskR(0.0)))
    ensures WorldStep(cfg, AtRoot(pts, heap, AskR(0.0)), Refuse, AtRoot(pts, heap, RunL(0.0)))
  {
  }

  lemma LeftStages(cfg: Config, pts: seq<Point>)
    requires cfg.dims == 1 && Lower(pts, 0, 0.0) == []
    ensures WorldStep(cfg, AtRoot(pts, map[[] := SplitCell(0, 0.0, 4)], RunL(0.0)), Tau, AtLeft(pts, Enter))
    ensures WorldStep(cfg, AtLeft(pts, Enter), Tau, AtLeft(pts, Exit))
    ensures WorldStep(cfg, AtLeft(pts, Exit), Release(false), Wrapped(pts))
  {
    var task := NewBuild([false], [], 0, 1, true, false);
    assert BuildOwn(cfg, task, Tau, task.(pc := Exit)) && BuildOwn(cfg, task.(pc := Exit), Release(false), BuildDone);
  }

  lemma StageSteps(cfg: Config, pts: seq<Point>, i: nat)
    requires |pts| == 4 && Coord(pts[0], 0) == 0.0 && cfg.dims == 1 && cfg.limit == 0 && Lower(pts, 0, 0.0) == [] && i < 8
    ensures StepAt(cfg, Stages(pts), STEPS, i)
  {
    if i < 3 {
      SortStages(cfg, pts);
    } else if i < 5 {
      AskStages(cfg, pts, map[[] := SplitCell(0, 0.0, 4)]);
    } else {
      LeftStages(cfg, pts);
    }
  }

  lemma NothingLeft(pts: seq<Point>)
    requires forall i :: 0 <= i < |pts| ==> Coord(pts[i], 0) >= 0.0
    ensures Lower(pts, 0, 0.0) == []
  {
    PartitionMultiset(pts, 0, 0.0);
    EmptyByMembers(Lower(pts, 0, 0.0));
  }

  lemma FourSplit(pts: seq<Point>)
    requires pts == [[0.0], [1.0], [2.0], [3.0]]
    ensures RootSplits(pts, 1)
  {
    assert Distinct(pts, 0);
    DistinctRootSplits(pts, 0, 1);
  }

  lemma StagesEnds(pts: seq<Point>)
    requires |pts| == 4
    ensures |Stages(pts)| == |STEPS| + 1 == 9
    ensures Stages(pts)[0] == InitialWorld(pts) && Stages(pts)[8].count == UINT_MAX
  {
  }

  lemma RunWithoutSlots(depth: nat) returns (pts: seq<Point>, ws: seq<World>, es: seq<Event>)
    ensures BuildRun(Config(1, 0, depth), pts, ws, es)
    ensures !WithinLimit(0, ws)
  {
    var cfg := Config(1, 0, depth);
    pts := [[0.0], [1.0], [2.0], [3.0]];
    ws, es := Stages(pts), STEPS;
    NothingLeft(pts);
    FourSplit(pts);
    forall i | 0 <= i < |es| ensures StepAt(cfg, ws, es, i) {
      StageSteps(cfg, pts, i);
    }
    StagesEnds(pts);
    assert ws[8].count > 0;
  }
}
