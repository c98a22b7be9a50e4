/** When a thread is asked for: by every call that is not too deep, each time it makes a call of its own.
    And what that means for the counter when make_tree asks for its two threads. */
module ForkJoinForks {
  import opened Points
  import opened StableSort
  import opened KdTree
  import opened ForkJoin
  import opened ForkJoinState
  import opened ForkJoinSlots
  import opened ForkJoinRuns
  import opened Asks
  import opened ForkJoinAsks
  import opened ForkJoinThreads

  // ---- Steps that make a call ----

  /** Between t and t' a call of merge_sort at this depth has made its next call. */
  predicate SortCalls(t: Sort, t': Sort, depth: nat, spawned: bool)
    decreases t
  {
    t.SortCall? && t'.SortCall? && (
      || (t.depth == depth && t.l.Idle? && t'.l.Running? && t'.l.spawned == spawned)
      || (t.depth == depth && t.r.Idle? && t'.r.Running? && t'.r.spawned == spawned)
      || (t.l.Running? && t'.l.Running? && SortCalls(t.l.task, t'.l.task, depth, spawned))
      || (t.r.Running? && t'.r.Running? && SortCalls(t.r.task, t'.r.task, depth, spawned)))
  }

  /** Between t and t' a call of populate_nodes, or of merge_sort in one, at this depth has made its next call. */
  predicate BuildCalls(t: Build, t': Build, depth: nat, spawned: bool)
    decreases t
  {
    t.BuildCall? && t'.BuildCall? && (
      || (t.depth == depth && t.l.Idle? && t'.l.Running? && t'.l.spawned == spawned)
      || (t.depth == depth && t.r.Idle? && t'.r.Running? && t'.r.spawned == spawned)
      || (t.pc.Sorting? && t'.pc.Sorting? && SortCalls(t.pc.sort, t'.pc.sort, depth, spawned))
      || (t.l.Running? && t'.l.Running? && BuildCalls(t.l.task, t'.l.task, depth, spawned))
      || (t.r.Running? && t'.r.Running? && BuildCalls(t.r.task, t'.r.task, depth, spawned)))
  }

  /** The same for all calls below make_tree. */
  predicate MainCalls(t: Main, t': Main, depth: nat, spawned: bool) {
    || (t.pc.RootSort? && t'.pc.RootSort? && SortCalls(t.pc.sort, t'.pc.sort, depth, spawned))
    || (t.l.Running? && t'.l.Running? && BuildCalls(t.l.task, t'.l.task, depth, spawned))
    || (t.r.Running? && t'.r.Running? && BuildCalls(t.r.task, t'.r.task, depth, spawned))
  }

  lemma {:induction false} NoSortCalls(t: Sort, depth: nat, spawned: bool)
    ensures !SortCalls(t, t, depth, spawned)
    decreases t
  {
    if t.SortCall? {
      if t.l.Running? { NoSortCalls(t.l.task, depth, spawned); }
      if t.r.Running? { NoSortCalls(t.r.task, depth, spawned); }
    }
  }

  lemma {:induction false} NoBuildCalls(t: Build, depth: nat, spawned: bool)
    ensures !BuildCalls(t, t, depth, spawned)
    decreases t
  {
    if t.BuildCall? {
      if t.pc.Sorting? { NoSortCalls(t.pc.sort, depth, spawned); }
      if t.l.Running? { NoBuildCalls(t.l.task, depth, spawned); }
      if t.r.Running? { NoBuildCalls(t.r.task, depth, spawned); }
    }
  }

  /** The event of a step that makes a call. */
  predicate Asked(cfg: Config, depth: nat, e: Event, spawned: bool) {
    if depth < cfg.forkDepth then (if spawned then e == Grant else e == Refuse) else e == Tau && !spawned
  }

  lemma {:induction false} SortCallAsks(cfg: Config, t: Sort, e: Event, t': Sort, depth: nat, spawned: bool)
    requires SortStep(cfg, t, e, t') && SortCalls(t, t', depth, spawned)
    ensures Asked(cfg, depth, e, spawned)
    decreases t
  {
    if t.l.Running? { NoSortCalls(t.l.task, depth, spawned); }
    if t.r.Running? { NoSortCalls(t.r.task, depth, spawned); }
    if !SortOwn(cfg, t, e, t') {
      if t'.SortCall? && t' == t.(l := t'.l) && SortChildStep(cfg, t.l, e, t'.l) {
        SortCallAsks(cfg, t.l.task, e, t'.l.task, depth, spawned);
      } else {
        SortCallAsks(cfg, t.r.task, e, t'.r.task, depth, spawned);
      }
    }
  }

  lemma BuildOwnCallAsks(cfg: Config, t: Build, e: Event, t': Build, depth: nat, spawned: bool)
    requires t.BuildCall? && BuildOwn(cfg, t, e, t') && BuildCalls(t, t', depth, spawned)
    ensures Asked(cfg, depth, e, spawned)
  {
    if t.l.Running? { NoBuildCalls(t.l.task, depth, spawned); }
    if t.r.Running? { NoBuildCalls(t.r.task, depth, spawned); }
    if t.pc.Sorting? && t'.pc.Sorting? {
      SortCallAsks(cfg, t.pc.sort, e, t'.pc.sort, depth, spawned);
    }
  }

  lemma {:induction false} BuildCallAsks(cfg: Config, t: Build, e: Event, t': Build, depth: nat, spawned: bool)
    requires BuildStep(cfg, t, e, t') && BuildCalls(t, t', depth, spawned)
    ensures Asked(cfg, depth, e, spawned)
    decreases t
  {
    if BuildOwn(cfg, t, e, t') {
      BuildOwnCallAsks(cfg, t, e, t', depth, spawned);
    } else {
      if t.l.Running? { NoBuildCalls(t.l.task, depth, spawned); }
      if t.r.Running? { NoBuildCalls(t.r.task, depth, spawned); }
      if t.pc.Sorting? { NoSortCalls(t.pc.sort, depth, spawned); }
      if t'.BuildCall? && t' == t.(l := t'.l) && BuildChildStep(cfg, t.l, e, t'.l) {
        BuildCallAsks(cfg, t.l.task, e, t'.l.task, depth, spawned);
      } else {
        BuildCallAsks(cfg, t.r.task, e, t'.r.task, depth, spawned);
      }
    }
  }

  lemma MainCallAsks(cfg: Config, t: Main, e: Event, t': Main, depth: nat, spawned: bool)
    requires MainStep(cfg, t, e, t') && MainCalls(t, t', depth, spawned)
    ensures Asked(cfg, depth, e, spawned)
  {
    if t.l.Running? { NoBuildCalls(t.l.task, depth, spawned); }
    if t.r.Running? { NoBuildCalls(t.r.task, depth, spawned); }
    if MainOwn(cfg, t, e, t') {
      SortCallAsks(cfg, t.pc.sort, e, t'.pc.sort, depth, spawned);
    } else if t' == t.(l := t'.l) && BuildChildStep(cfg, t.l, e, t'.l) {
      BuildCallAsks(cfg, t.l.task, e, t'.l.task, depth, spawned);
    } else {
      BuildCallAsks(cfg, t.r.task, e, t'.r.task, depth, spawned);
    }
  }

  /** Whenever a call of merge_sort or populate_nodes at a depth below static_depth makes its next call, it
      gets a thread for it if and only if the counter is below the limit, and takes a slot then; deeper
      calls never ask. */
  lemma ThreadExactly(cfg: Config, pts: seq<Point>, ws: seq<World>, es: seq<Event>, i: nat, depth: nat, spawned: bool)
    requires BuildRun(cfg, pts, ws, es) && i < |es| && MainCalls(ws[i].main, ws[i + 1].main, depth, spawned)
    ensures depth < cfg.forkDepth ==>
      && spawned == (ws[i].count < cfg.limit)
      && es[i] == (if ws[i].count < cfg.limit then Grant else Refuse)
      && ws[i + 1].count == ws[i].count + (if spawned then 1 else 0)
    ensures depth >= cfg.forkDepth ==> !spawned && es[i] == Tau && ws[i + 1].count == ws[i].count
  {
    StatesOf(cfg, pts, ws, es, i + 1);
    MainCallAsks(cfg, ws[i].main, es[i], ws[i + 1].main, depth, spawned);
  }

  /** make_tree asks for both its threads, whatever static_depth, and before it creates either. */
  lemma RootThreadExactly(cfg: Config, pts: seq<Point>, ws: seq<World>, es: seq<Event>, i: nat)
    requires BuildRun(cfg, pts, ws, es) && i < |es| && (ws[i].main.pc.AskL? || ws[i].main.pc.AskR?)
    ensures es[i] == if ws[i].count < cfg.limit then Grant else Refuse
    ensures var (c, c') := if ws[i].main.pc.AskL? then (ws[i].main.l, ws[i + 1].main.l) else (ws[i].main.r, ws[i + 1].main.r);
      c.Idle? && if ws[i].count < cfg.limit then c'.Running? && c'.spawned else c'.Idle?
  {
    StatesOf(cfg, pts, ws, es, i + 1);
  }

  // ---- The counter when make_tree asks ----

  function SinglesLeft(cfg: Config, t: Sort): nat
    decreases t
  {
    match t
    case SortDone(_) => 0
    case SortCall(s, _, depth, _, pc, l, r) =>
      var n, fd := |s|, cfg.forkDepth;
      var own := if depth < fd then One(n - n / 2) else 0;
      match pc
      case SortEnter => SingleAsks(n, depth, fd)
      case SortForkL =>
        (if depth < fd then One(n / 2) else 0) + own + SingleAsks(n / 2, depth + 1, fd) + SingleAsks(n - n / 2, depth + 1, fd)
      case SortForkR => own + HalfSinglesLeft(cfg, l) + SingleAsks(n - n / 2, depth + 1, fd)
      case SortJoin => HalfSinglesLeft(cfg, l) + HalfSinglesLeft(cfg, r)
      case SortExit(_) => 0
  }

  function HalfSinglesLeft(cfg: Config, c: Child<Sort>): nat
    decreases c
  {
    if c.Running? then SinglesLeft(cfg, c.task) else 0
  }

  /** A question about a call on one element is used up, and if granted a thread on one element starts. */
  predicate SinglesStep(left: nat, live: nat, e: Event, left': nat, live': nat) {
    match e
    case Grant => left + live == left' + live'
    case Refuse => left' <= left
    case _ => left' == left
  }

  lemma NewHalfSingles(cfg: Config, s: seq<Point>, d: nat, depth: nat, spawned: bool)
    ensures HalfSinglesLeft(cfg, Running(NewSort(s, d, depth, spawned), spawned)) == SingleAsks(|s|, depth, cfg.forkDepth)
  {
  }

  lemma QuietHalfSingles(cfg: Config, c: Child<Sort>)
    ensures !c.Running? || c.task.SortDone? ==> HalfSinglesLeft(cfg, c) == 0 && HalfLive(c, true) == 0
  {
  }

  lemma ForkLeftSingles(cfg: Config, t: Sort, e: Event, t': Sort, s: seq<Point>, d: nat, depth: nat, isThread: bool)
    requires SortOk(t, s, d, depth, isThread) && t.SortCall? && SortOwn(cfg, t, e, t')
    requires t.pc.SortForkL?
    ensures SinglesStep(SinglesLeft(cfg, t), SortLive(t, true), e, SinglesLeft(cfg, t'), SortLive(t', true))
  {
    QuietHalfSingles(cfg, t.l);
    QuietHalfSingles(cfg, t.r);
    NewHalfSingles(cfg, LeftHalf(s), d, depth + 1, t'.l.spawned);
    NewHalfLive(LeftHalf(s), d, depth + 1, t'.l.spawned, true);
  }

  lemma ForkRightSingles(cfg: Config, t: Sort, e: Event, t': Sort, s: seq<Point>, d: nat, depth: nat, isThread: bool)
    requires SortOk(t, s, d, depth, isThread) && t.SortCall? && SortOwn(cfg, t, e, t')
    requires t.pc.SortForkR?
    ensures SinglesStep(SinglesLeft(cfg, t), SortLive(t, true), e, SinglesLeft(cfg, t'), SortLive(t', true))
  {
    QuietHalfSingles(cfg, t.l);
    QuietHalfSingles(cfg, t'.l);
    QuietHalfSingles(cfg, t.r);
    if t'.r.Running? {
      NewHalfSingles(cfg, RightHalf(s), d, depth + 1, t'.r.spawned);
      NewHalfLive(RightHalf(s), d, depth + 1, t'.r.spawned, true);
    }
  }

  lemma SortOwnSingles(cfg: Config, t: Sort, e: Event, t': Sort, s: seq<Point>, d: nat, depth: nat, isThread: bool)
    requires SortOk(t, s, d, depth, isThread) && t.SortCall? && SortOwn(cfg, t, e, t')
    ensures SinglesStep(SinglesLeft(cfg, t), SortLive(t, true), e, SinglesLeft(cfg, t'), SortLive(t', true))
  {
    if t.pc.SortForkL? {
      ForkLeftSingles(cfg, t, e, t', s, d, depth, isThread);
    } else if t.pc.SortForkR? {
      ForkRightSingles(cfg, t, e, t', s, d, depth, isThread);
    } else if t.pc.SortJoin? {
      QuietHalfSingles(cfg, t.l);
      QuietHalfSingles(cfg, t'.l);
      QuietHalfSingles(cfg, t.r);
      QuietHalfSingles(cfg, t'.r);
    }
  }

  lemma HalfChangesSingles(cfg: Config, t: Sort, e: Event, right: bool, task: Sort)
    requires t.SortCall? && ((t.pc.SortForkR? && !right) || t.pc.SortJoin?)
    requires var was := if right then t.r else t.l;
      was.Running? && SinglesStep(SinglesLeft(cfg, was.task), SortLive(was.task, true), e, SinglesLeft(cfg, task), SortLive(task, true))
    ensures var t' := if right then t.(r := t.r.(task := task)) else t.(l := t.l.(task := task));
      SinglesStep(SinglesLeft(cfg, t), SortLive(t, true), e, SinglesLeft(cfg, t'), SortLive(t', true))
  {
  }

  lemma {:induction false} SortStepSingles(cfg: Config, t: Sort, e: Event, t': Sort, s: seq<Point>, d: nat, depth: nat,
                                           isThread: bool)
    requires SortOk(t, s, d, depth, isThread) && SortStep(cfg, t, e, t')
    ensures SinglesStep(SinglesLeft(cfg, t), SortLive(t, true), e, SinglesLeft(cfg, t'), SortLive(t', true))
    decreases t
  {
    if SortOwn(cfg, t, e, t') {
      SortOwnSingles(cfg, t, e, t', s, d, depth, isThread);
    } else if t'.SortCall? && t' == t.(l := t'.l) && SortChildStep(cfg, t.l, e, t'.l) {
      SortStepSingles(cfg, t.l.task, e, t'.l.task, LeftHalf(s), d, depth + 1, t.l.spawned);
      HalfChangesSingles(cfg, t, e, false, t'.l.task);
    } else {
      SortStepSingles(cfg, t.r.task, e, t'.r.task, RightHalf(s), d, depth + 1, t.r.spawned);
      HalfChangesSingles(cfg, t, e, true, t'.r.task);
    }
  }

  /** make_tree has not forked yet. */
  predicate Sorting(t: Main) {
    |t.pts| >= 4 && (t.pc.RootEnter? || t.pc.RootSort? || t.pc.AskL?)
  }

  function RootSinglesLeft(cfg: Config, t: Main): nat {
    match t.pc
    case RootEnter => SingleAsks(|t.pts| / 4, 0, cfg.forkDepth)
    case RootSort(sort) => SinglesLeft(cfg, sort)
    case _ => 0
  }

  lemma RootStepSingles(cfg: Config, t: Main, e: Event, t': Main)
    requires MainOk(cfg, t) && MainStep(cfg, t, e, t') && Sorting(t) && Sorting(t')
    ensures SinglesStep(RootSinglesLeft(cfg, t), MainLive(t, true), e, RootSinglesLeft(cfg, t'), MainLive(t', true))
    ensures MainLive(t, false) == 0 || t.pc.RootSort?
  {
    QuietCall(t.l, true);
    QuietCall(t.r, true);
    QuietCall(t.l, false);
    QuietCall(t.r, false);
    if t.pc.RootSort? && t'.pc.RootSort? {
      SortStepSingles(cfg, t.pc.sort, e, t'.pc.sort, t.pts[..|t.pts| / 4], 0, 0, false);
    }
  }

  lemma SortingBefore(cfg: Config, t: Main, e: Event, t': Main)
    requires MainOk(cfg, t) && MainStep(cfg, t, e, t') && Sorting(t')
    ensures Sorting(t) && !t.pc.AskL?
  {
  }

  /** As long as make_tree only sorts, with enough slots for that, nothing is refused. */
  lemma {:induction false} SortGranted(cfg: Config, pts: seq<Point>, ws: seq<World>, es: seq<Event>, i: nat)
    requires BuildRun(cfg, pts, ws, es) && i < |ws| && Sorting(ws[i].main)
    requires cfg.limit >= 2 && cfg.limit >= SortAsks(|pts| / 4, 0, cfg.forkDepth)
    ensures Count(es[..i], Refuse) == 0
    ensures ws[i].kept + MainLive(ws[i].main, true) + RootSinglesLeft(cfg, ws[i].main) == SingleAsks(|pts| / 4, 0, cfg.forkDepth)
    decreases i
  {
    if i > 0 {
      StatesOf(cfg, pts, ws, es, i);
      SortingBefore(cfg, ws[i - 1].main, es[i - 1], ws[i].main);
      SortGranted(cfg, pts, ws, es, i - 1);
      SortStepGranted(cfg, pts, ws, es, i);
      RootStepSingles(cfg, ws[i - 1].main, es[i - 1], ws[i].main);
      MainStepLive(cfg, ws[i - 1].main, es[i - 1], ws[i].main);
      assert es[..i][..i - 1] == es[..i - 1];
    }
  }

  lemma SortStepGranted(cfg: Config, pts: seq<Point>, ws: seq<World>, es: seq<Event>, i: nat)
    requires BuildRun(cfg, pts, ws, es) && 0 < i < |ws| && Sorting(ws[i].main)
    requires cfg.limit >= 2 && cfg.limit >= SortAsks(|pts| / 4, 0, cfg.forkDepth) && Count(es[..i - 1], Refuse) == 0
    ensures es[i - 1] != Refuse
  {
    EveryQuestionAsked(cfg, pts, ws, es, i - 1);
    CountWithinGrants(cfg, pts, ws, es, i - 1);
    NextAsks(cfg, pts, ws, es, i);
    MainOkAt(cfg, pts, ws, es, i);
    OnlySortAsks(cfg, ws[i].main, BuildRoot(pts, cfg.dims));
  }

  /** Until make_tree forks, all questions but those of its sort are still to come. */
  lemma OnlySortAsks(cfg: Config, t: Main, tree: Tree)
    requires MainOk(cfg, t) && Sorting(t) && tree == BuildRoot(t.pts, cfg.dims)
    ensures RootAsks(tree, cfg.forkDepth) <= MainAsksLeft(cfg, t, tree) + SortAsks(|t.pts| / 4, 0, cfg.forkDepth)
  {
    RootShape(t.pts, cfg.dims, tree);
  }

  /** With slots enough for its sort, make_tree finds the counter at the number of single points for which
      the sort was granted a thread: those threads never give their slot back. */
  lemma CounterWhenMakeTreeAsks(cfg: Config, pts: seq<Point>, ws: seq<World>, es: seq<Event>, i: nat)
    requires BuildRun(cfg, pts, ws, es) && i < |ws| && ws[i].main.pc.AskL?
    requires cfg.limit >= 2 && cfg.limit >= SortAsks(|pts| / 4, 0, cfg.forkDepth)
    ensures ws[i].count == SingleAsks(|pts| / 4, 0, cfg.forkDepth)
  {
    MainOkAt(cfg, pts, ws, es, i);
    SortGranted(cfg, pts, ws, es, i);
    SlotAccounting(cfg, pts, ws, es, i);
    HeldIsLive(ws[i].main);
    QuietCall(ws[i].main.l, true);
    QuietCall(ws[i].main.r, true);
    QuietCall(ws[i].main.l, false);
    QuietCall(ws[i].main.r, false);
  }

  /** One core and eight points: the sample has two, each is sorted by a thread that keeps its slot, and
      make_tree is refused both its threads, in every interleaving. */
  lemma OneCoreEightPoints(dims: nat, pts: seq<Point>, ws: seq<World>, es: seq<Event>, i: nat)
    requires BuildRun(Config(dims, ThreadLimit(1), ForkDepth(1)), pts, ws, es) && |pts| == 8 && i + 2 < |ws|
    requires ws[i].main.pc.AskL?
    ensures ws[i].count == 2 && es[i] == Refuse && es[i + 1] == Refuse
  {
    var cfg := Config(dims, ThreadLimit(1), ForkDepth(1));
    assert SortAsks(1, 1, 1) == 0 && SingleAsks(1, 1, 1) == 0;
    assert SortAsks(2, 0, 1) == 2 && SingleAsks(2, 0, 1) == 2;
    CounterWhenMakeTreeAsks(cfg, pts, ws, es, i);
    RootThreadExactly(cfg, pts, ws, es, i);
    StatesOf(cfg, pts, ws, es, i + 1);
    RootThreadExactly(cfg, pts, ws, es, i + 1);
  }
}
