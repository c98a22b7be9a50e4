/** What every reachable state of the parallel build looks like, task by task. */
module ForkJoinState {
  import opened Points
  import opened StableSort
  import opened KdTree
  import opened ForkJoin

  // ---- Data: every task works on, and returns, what the sequential call would ----

  /** t is a call merge_sort(s) at this depth, at some point of its body. */
  ghost predicate SortOk(t: Sort, s: seq<Point>, d: nat, depth: nat, isThread: bool)
    decreases t
  {
    && s != []
    && match t
       case SortDone(out) => out == MergeSort(s, d)
       case SortCall(s', d', depth', isThread', pc, l, r) =>
         && s' == s && d' == d && depth' == depth && isThread' == isThread
         && match pc
            case SortEnter => l.Idle? && r.Idle?
            case SortForkL => |s| >= 2 && l.Idle? && r.Idle?
            case SortForkR => |s| >= 2 && SortChildOk(l, LeftHalf(s), d, depth + 1) && r.Idle?
            case SortJoin =>
              |s| >= 2 && SortChildOk(l, LeftHalf(s), d, depth + 1) && SortChildOk(r, RightHalf(s), d, depth + 1)
              && !Inline(l)
            case SortExit(out) => |s| >= 2 && out == MergeSort(s, d) && l.Joined? && r.Joined?
  }

  ghost predicate SortChildOk(c: Child<Sort>, s: seq<Point>, d: nat, depth: nat)
    decreases c
  {
    match c
    case Idle => false
    case Running(task, spawned) => SortOk(task, s, d, depth, spawned)
    case Joined(task) => s != [] && task == SortDone(MergeSort(s, d))
  }

  lemma NewSortOk(s: seq<Point>, d: nat, depth: nat, isThread: bool)
    requires s != []
    ensures SortOk(NewSort(s, d, depth, isThread), s, d, depth, isThread)
    ensures SortChildOk(Running(NewSort(s, d, depth, isThread), isThread), s, d, depth)
  {
  }

  lemma SortOwnPreserved(cfg: Config, t: Sort, e: Event, t': Sort, s: seq<Point>, d: nat, depth: nat, isThread: bool)
    requires SortOk(t, s, d, depth, isThread) && t.SortCall? && SortOwn(cfg, t, e, t')
    ensures SortOk(t', s, d, depth, isThread)
  {
    match t.pc
    case SortEnter =>
    case SortForkL =>
      NewSortOk(LeftHalf(s), d, depth + 1, t'.l.spawned);
    case SortForkR =>
      ReturnedOk(t.l, LeftHalf(s), d, depth + 1);
      if t'.r.Running? {
        NewSortOk(RightHalf(s), d, depth + 1, t'.r.spawned);
      }
    case SortJoin =>
      ReturnedOk(t.l, LeftHalf(s), d, depth + 1);
      ReturnedOk(t.r, RightHalf(s), d, depth + 1);
    case SortExit(_) =>
  }

  lemma ReturnedOk(c: Child<Sort>, s: seq<Point>, d: nat, depth: nat)
    requires SortChildOk(c, s, d, depth)
    ensures !c.Idle? && (c.task.SortDone? ==> SortChildOk(Joined(c.task), s, d, depth))
  {
  }

  lemma {:induction false} SortPreserved(cfg: Config, t: Sort, e: Event, t': Sort,
                                         s: seq<Point>, d: nat, depth: nat, isThread: bool)
    requires SortOk(t, s, d, depth, isThread) && SortStep(cfg, t, e, t')
    ensures SortOk(t', s, d, depth, isThread)
    decreases t
  {
    if SortOwn(cfg, t, e, t') {
      SortOwnPreserved(cfg, t, e, t', s, d, depth, isThread);
    } else if t'.SortCall? && t' == t.(l := t'.l) && SortChildStep(cfg, t.l, e, t'.l) {
      SortPreserved(cfg, t.l.task, e, t'.l.task, LeftHalf(s), d, depth + 1, t.l.spawned);
    } else {
      SortPreserved(cfg, t.r.task, e, t'.r.task, RightHalf(s), d, depth + 1, t.r.spawned);
    }
  }

  /** t is a call populate_nodes(pts) for the slot at path, at some point of its body. */
  ghost predicate BuildOk(cfg: Config, t: Build, path: Path, pts: seq<Point>, dim: nat, depth: nat,
                          isThread: bool, spawned: bool)
    decreases t
  {
    && dim < cfg.dims && Splits(pts, dim, cfg.dims) && (spawned ==> isThread)
    && match t
       case BuildDone => true
       case BuildCall(path', pts', dim', depth', isThread', spawned', pc, l, r) =>
         && path' == path && pts' == pts && dim' == dim && depth' == depth
         && isThread' == isThread && spawned' == spawned
         && match pc
            case Enter => l.Idle? && r.Idle?
            case LeafReturn => |pts| == 1 && l.Idle? && r.Idle?
            case Sorting(sort) =>
              |pts| >= 2 && l.Idle? && r.Idle? && SortOk(sort, pts[..SampleEnd(|pts|)], dim, depth, false)
            case ForkL(m) =>
              |pts| >= 2 && l.Idle? && r.Idle? && m == SampleMedian(pts, SampleEnd(|pts|), dim)
            case ForkR(m) =>
              |pts| >= 2 && LeftOk(cfg, l, path, pts, dim, depth) && r.Idle?
              && m == SampleMedian(pts, SampleEnd(|pts|), dim)
            case Joining =>
              |pts| >= 2 && LeftOk(cfg, l, path, pts, dim, depth) && RightOk(cfg, r, path, pts, dim, depth)
              && !Inline(l)
            case Exit => |pts| != 1 && if pts == [] then l.Idle? && r.Idle? else l.Joined? && r.Joined?
  }

  ghost predicate LeftOk(cfg: Config, c: Child<Build>, path: Path, pts: seq<Point>, dim: nat, depth: nat)
    requires |pts| >= 2
    decreases c
  {
    match c
    case Idle => false
    case Running(task, spawned) =>
      BuildOk(cfg, task, path + [false], LeftPart(pts, dim), NextDim(dim, cfg.dims), depth + 1, spawned, spawned)
    case Joined(task) => task.BuildDone?
  }

  ghost predicate RightOk(cfg: Config, c: Child<Build>, path: Path, pts: seq<Point>, dim: nat, depth: nat)
    requires |pts| >= 2
    decreases c
  {
    match c
    case Idle => false
    case Running(task, spawned) =>
      BuildOk(cfg, task, path + [true], RightPart(pts, dim), NextDim(dim, cfg.dims), depth + 1, spawned, spawned)
    case Joined(task) => task.BuildDone?
  }

  lemma NewBuildOk(cfg: Config, path: Path, pts: seq<Point>, dim: nat, depth: nat, isThread: bool, spawned: bool)
    requires dim < cfg.dims && Splits(pts, dim, cfg.dims) && (spawned ==> isThread)
    ensures BuildOk(cfg, NewBuild(path, pts, dim, depth, isThread, spawned), path, pts, dim, depth, isThread, spawned)
  {
  }

  lemma BeforeForkPreserved(cfg: Config, t: Build, e: Event, t': Build, path: Path, pts: seq<Point>,
                            dim: nat, depth: nat, isThread: bool, spawned: bool)
    requires BuildOk(cfg, t, path, pts, dim, depth, isThread, spawned) && t.BuildCall? && BuildOwn(cfg, t, e, t')
    requires t.pc.Enter? || t.pc.LeafReturn? || t.pc.Sorting?
    ensures BuildOk(cfg, t', path, pts, dim, depth, isThread, spawned)
  {
    if t.pc.Enter? && |pts| >= 2 {
      NewSortOk(pts[..SampleEnd(|pts|)], dim, depth, false);
    } else if t.pc.Sorting? && t'.pc.Sorting? {
      SortPreserved(cfg, t.pc.sort, e, t'.pc.sort, pts[..SampleEnd(|pts|)], dim, depth, false);
    }
  }

  lemma ForkPreserved(cfg: Config, t: Build, e: Event, t': Build, path: Path, pts: seq<Point>,
                      dim: nat, depth: nat, isThread: bool, spawned: bool)
    requires BuildOk(cfg, t, path, pts, dim, depth, isThread, spawned) && t.BuildCall? && BuildOwn(cfg, t, e, t')
    requires t.pc.ForkL? || t.pc.ForkR?
    ensures BuildOk(cfg, t', path, pts, dim, depth, isThread, spawned)
  {
    var next := NextDim(dim, cfg.dims);
    if t.pc.ForkL? {
      NewBuildOk(cfg, path + [false], LeftPart(pts, dim), next, depth + 1, t'.l.spawned, t'.l.spawned);
    } else if t'.r.Running? {
      NewBuildOk(cfg, path + [true], RightPart(pts, dim), next, depth + 1, t'.r.spawned, t'.r.spawned);
    }
  }

  lemma BuildOwnPreserved(cfg: Config, t: Build, e: Event, t': Build, path: Path, pts: seq<Point>,
                          dim: nat, depth: nat, isThread: bool, spawned: bool)
    requires BuildOk(cfg, t, path, pts, dim, depth, isThread, spawned) && t.BuildCall? && BuildOwn(cfg, t, e, t')
    ensures BuildOk(cfg, t', path, pts, dim, depth, isThread, spawned)
  {
    match t.pc
    case ForkL(_) => ForkPreserved(cfg, t, e, t', path, pts, dim, depth, isThread, spawned);
    case ForkR(_) => ForkPreserved(cfg, t, e, t', path, pts, dim, depth, isThread, spawned);
    case Joining =>
    case Exit =>
    case _ => BeforeForkPreserved(cfg, t, e, t', path, pts, dim, depth, isThread, spawned);
  }

  /** The calls below a call are in order too. */
  lemma BuildChildrenOk(cfg: Config, t: Build, path: Path, pts: seq<Point>, dim: nat, depth: nat,
                        isThread: bool, spawned: bool)
    requires BuildOk(cfg, t, path, pts, dim, depth, isThread, spawned) && t.BuildCall?
    ensures t.l.Running? || t.r.Running? ==> |pts| >= 2
    ensures t.l.Running? ==> BuildOk(cfg, t.l.task, path + [false], LeftPart(pts, dim), NextDim(dim, cfg.dims),
                                     depth + 1, t.l.spawned, t.l.spawned)
    ensures t.r.Running? ==> BuildOk(cfg, t.r.task, path + [true], RightPart(pts, dim), NextDim(dim, cfg.dims),
                                     depth + 1, t.r.spawned, t.r.spawned)
  {
  }

  lemma {:induction false} BuildPreserved(cfg: Config, t: Build, e: Event, t': Build, path: Path, pts: seq<Point>,
                                          dim: nat, depth: nat, isThread: bool, spawned: bool)
    requires BuildOk(cfg, t, path, pts, dim, depth, isThread, spawned) && BuildStep(cfg, t, e, t')
    ensures BuildOk(cfg, t', path, pts, dim, depth, isThread, spawned)
    decreases t
  {
    if BuildOwn(cfg, t, e, t') {
      BuildOwnPreserved(cfg, t, e, t', path, pts, dim, depth, isThread, spawned);
    } else {
      BuildChildrenOk(cfg, t, path, pts, dim, depth, isThread, spawned);
      if t'.BuildCall? && t' == t.(l := t'.l) && BuildChildStep(cfg, t.l, e, t'.l) {
        BuildPreserved(cfg, t.l.task, e, t'.l.task, path + [false], LeftPart(pts, dim), NextDim(dim, cfg.dims),
                       depth + 1, t.l.spawned, t.l.spawned);
      } else {
        BuildPreserved(cfg, t.r.task, e, t'.r.task, path + [true], RightPart(pts, dim), NextDim(dim, cfg.dims),
                       depth + 1, t.r.spawned, t.r.spawned);
      }
    }
  }

  /** A root task, if it exists. It has is_thread set even when it runs inline. */
  ghost predicate RootChildOk(cfg: Config, c: Child<Build>, pts: seq<Point>, right: bool, m: real)
    requires cfg.dims >= 1
  {
    match c
    case Idle => true
    case Running(task, spawned) =>
      BuildOk(cfg, task, [right], if right then Upper(pts, 0, m) else Lower(pts, 0, m), NextDim(0, cfg.dims), 1,
              true, spawned)
    case Joined(task) => task.BuildDone?
  }

  ghost predicate MainOk(cfg: Config, t: Main) {
    && cfg.dims >= 1 && RootSplits(t.pts, cfg.dims)
    && match t.pc
       case RootEnter => t.l.Idle? && t.r.Idle?
       case RootSort(sort) =>
         |t.pts| >= 4 && t.l.Idle? && t.r.Idle? && SortOk(sort, t.pts[..|t.pts| / 4], 0, 0, false)
       case AskL(m) => Partitioned(t.pts, m) && t.l.Idle? && t.r.Idle?
       case AskR(m) =>
         && Partitioned(t.pts, m) && t.r.Idle?
         && (t.l.Idle? || t.l == Running(RootTask(cfg, t, false, m, true), true))
       case RunL(m) =>
         && Partitioned(t.pts, m) && RootChildOk(cfg, t.l, t.pts, false, m) && RootChildOk(cfg, t.r, t.pts, true, m)
         && !t.l.Joined? && !t.r.Joined? && !Inline(t.r)
       case RunR(m) =>
         && Partitioned(t.pts, m) && RootChildOk(cfg, t.r, t.pts, true, m)
         && t.l == Joined(BuildDone) && !t.r.Joined?
       case Returned =>
         if |t.pts| == 1 then t.l.Idle? && t.r.Idle? else t.l == Joined(BuildDone) && t.r == Joined(BuildDone)
  }

  /** m is the median make_tree splits at. */
  ghost predicate Partitioned(pts: seq<Point>, m: real) {
    |pts| >= 4 && m == SampleMedian(pts, |pts| / 4, 0)
  }

  lemma NewRootTaskOk(cfg: Config, t: Main, right: bool, m: real, spawned: bool)
    requires cfg.dims >= 1 && RootSplits(t.pts, cfg.dims) && Partitioned(t.pts, m)
    ensures RootChildOk(cfg, Running(RootTask(cfg, t, right, m, spawned), spawned), t.pts, right, m)
  {
    NewBuildOk(cfg, [right], if right then Upper(t.pts, 0, m) else Lower(t.pts, 0, m), NextDim(0, cfg.dims), 1,
               true, spawned);
  }

  lemma RootChildPreserved(cfg: Config, c: Child<Build>, e: Event, c': Child<Build>, pts: seq<Point>, right: bool,
                           m: real)
    requires cfg.dims >= 1 && RootChildOk(cfg, c, pts, right, m) && BuildChildStep(cfg, c, e, c')
    ensures RootChildOk(cfg, c', pts, right, m)
  {
    BuildPreserved(cfg, c.task, e, c'.task, [right], if right then Upper(pts, 0, m) else Lower(pts, 0, m),
                   NextDim(0, cfg.dims), 1, true, c.spawned);
  }

  lemma MainOwnPreserved(cfg: Config, t: Main, e: Event, t': Main)
    requires MainOk(cfg, t) && MainOwn(cfg, t, e, t')
    ensures MainOk(cfg, t')
  {
    match t.pc
    case RootEnter =>
      if |t.pts| >= 4 {
        NewSortOk(t.pts[..|t.pts| / 4], 0, 0, false);
      }
    case RootSort(sort) =>
      if t'.pc.RootSort? {
        SortPreserved(cfg, sort, e, t'.pc.sort, t.pts[..|t.pts| / 4], 0, 0, false);
      }
    case AskL(m) =>
    case AskR(m) =>
      NewRootTaskOk(cfg, t, false, m, true);
      NewRootTaskOk(cfg, t, true, m, true);
    case RunL(m) =>
      NewRootTaskOk(cfg, t, false, m, false);
    case RunR(m) =>
      NewRootTaskOk(cfg, t, true, m, false);
    case Returned =>
  }

  lemma MainPreserved(cfg: Config, t: Main, e: Event, t': Main)
    requires MainOk(cfg, t) && MainStep(cfg, t, e, t')
    ensures MainOk(cfg, t')
  {
    if MainOwn(cfg, t, e, t') {
      MainOwnPreserved(cfg, t, e, t');
    } else {
      var m := if t.pc.RunL? then t.pc.median else if t.pc.RunR? then t.pc.median else 0.0;
      if t' == t.(l := t'.l) && BuildChildStep(cfg, t.l, e, t'.l) {
        RootChildPreserved(cfg, t.l, e, t'.l, t.pts, false, m);
      } else {
        RootChildPreserved(cfg, t.r, e, t'.r, t.pts, true, m);
      }
    }
  }

  // ---- Threads: who holds a slot, and who has not been joined ----

  /** Tasks in t, t included, that were spawned and have not given their slot back. */
  function SortHeld(t: Sort): nat
    decreases t
  {
    if t.SortDone? then 0
    else (if t.isThread then 1 else 0) + SortChildHeld(t.l) + SortChildHeld(t.r)
  }

  function SortChildHeld(c: Child<Sort>): nat
    decreases c
  {
    if c.Running? then SortHeld(c.task) else 0
  }

  function BuildHeld(t: Build): nat
    decreases t
  {
    if t.BuildDone? then 0
    else (if t.spawned then 1 else 0) + (if t.pc.Sorting? then SortHeld(t.pc.sort) else 0)
         + BuildChildHeld(t.l) + BuildChildHeld(t.r)
  }

  function BuildChildHeld(c: Child<Build>): nat
    decreases c
  {
    if c.Running? then BuildHeld(c.task) else 0
  }

  function Held(t: Main): nat {
    (if t.pc.RootSort? then SortHeld(t.pc.sort) else 0) + BuildChildHeld(t.l) + BuildChildHeld(t.r)
  }

  /** Threads created and not yet joined below t. */
  function SortUnjoined(t: Sort): nat
    decreases t
  {
    if t.SortDone? then 0 else SortChildUnjoined(t.l) + SortChildUnjoined(t.r)
  }

  function SortChildUnjoined(c: Child<Sort>): nat
    decreases c
  {
    if c.Running? then (if c.spawned then 1 else 0) + SortUnjoined(c.task) else 0
  }

  function BuildUnjoined(t: Build): nat
    decreases t
  {
    if t.BuildDone? then 0
    else (if t.pc.Sorting? then SortUnjoined(t.pc.sort) else 0) + BuildChildUnjoined(t.l) + BuildChildUnjoined(t.r)
  }

  function BuildChildUnjoined(c: Child<Build>): nat
    decreases c
  {
    if c.Running? then (if c.spawned then 1 else 0) + BuildUnjoined(c.task) else 0
  }

  function Unjoined(t: Main): nat {
    (if t.pc.RootSort? then SortUnjoined(t.pc.sort) else 0) + BuildChildUnjoined(t.l) + BuildChildUnjoined(t.r)
  }

  /** What each event does to the number of slots held, and of threads not joined. */
  function HeldChange(e: Event): int {
    match e
    case Grant => 1
    case Release(spawned) => if spawned then -1 else 0
    case Keep => -1
    case _ => 0
  }

  function UnjoinedChange(e: Event): int {
    if e.Grant? then 1 else if e.Join? then -1 else 0
  }

  lemma NewThreads(s: seq<Point>, d: nat, depth: nat, isThread: bool, path: Path, spawned: bool)
    ensures SortHeld(NewSort(s, d, depth, isThread)) == if isThread then 1 else 0
    ensures SortUnjoined(NewSort(s, d, depth, isThread)) == 0
    ensures BuildHeld(NewBuild(path, s, d, depth, isThread, spawned)) == if spawned then 1 else 0
    ensures BuildUnjoined(NewBuild(path, s, d, depth, isThread, spawned)) == 0
  {
  }

  /** A task that has returned holds nothing; only its thread may still have to be joined. */
  lemma SortDoneThreads(c: Child<Sort>)
    ensures c.Running? && c.task.SortDone? ==>
      SortChildHeld(c) == 0 && SortChildUnjoined(c) == if c.spawned then 1 else 0
    ensures !c.Running? ==> SortChildHeld(c) == 0 && SortChildUnjoined(c) == 0
  {
  }

  lemma BuildDoneThreads(c: Child<Build>)
    ensures c.Running? && c.task.BuildDone? ==>
      BuildChildHeld(c) == 0 && BuildChildUnjoined(c) == if c.spawned then 1 else 0
    ensures !c.Running? ==> BuildChildHeld(c) == 0 && BuildChildUnjoined(c) == 0
  {
  }

  lemma SortForkThreads(cfg: Config, t: Sort, e: Event, t': Sort, s: seq<Point>, d: nat, depth: nat, isThread: bool)
    requires SortOk(t, s, d, depth, isThread) && t.SortCall? && SortOwn(cfg, t, e, t')
    requires t.pc.SortForkL? || t.pc.SortForkR?
    ensures SortHeld(t') == SortHeld(t) + HeldChange(e)
    ensures SortUnjoined(t') == SortUnjoined(t) + UnjoinedChange(e)
    ensures !e.Write? && e != Release(false)
  {
    SortDoneThreads(t.l);
    SortDoneThreads(t.r);
    if t.pc.SortForkL? {
      NewThreads(LeftHalf(s), d, depth + 1, t'.l.spawned, [], false);
    } else if t'.r.Running? {
      NewThreads(RightHalf(s), d, depth + 1, t'.r.spawned, [], false);
    }
  }

  lemma SortJoinThreads(cfg: Config, t: Sort, e: Event, t': Sort, s: seq<Point>, d: nat, depth: nat, isThread: bool)
    requires SortOk(t, s, d, depth, isThread) && t.SortCall? && SortOwn(cfg, t, e, t')
    requires t.pc.SortJoin?
    ensures SortHeld(t') == SortHeld(t) + HeldChange(e)
    ensures SortUnjoined(t') == SortUnjoined(t) + UnjoinedChange(e)
    ensures !e.Write? && e != Release(false)
  {
    SortDoneThreads(t.l);
    SortDoneThreads(t.r);
    SortDoneThreads(t'.l);
    SortDoneThreads(t'.r);
  }

  lemma SortOwnThreads(cfg: Config, t: Sort, e: Event, t': Sort, s: seq<Point>, d: nat, depth: nat, isThread: bool)
    requires SortOk(t, s, d, depth, isThread) && t.SortCall? && SortOwn(cfg, t, e, t')
    ensures SortHeld(t') == SortHeld(t) + HeldChange(e)
    ensures SortUnjoined(t') == SortUnjoined(t) + UnjoinedChange(e)
    ensures !e.Write? && e != Release(false)
  {
    match t.pc
    case SortForkL => SortForkThreads(cfg, t, e, t', s, d, depth, isThread);
    case SortForkR => SortForkThreads(cfg, t, e, t', s, d, depth, isThread);
    case SortJoin => SortJoinThreads(cfg, t, e, t', s, d, depth, isThread);
    case SortEnter =>
      SortDoneThreads(t.l);
      SortDoneThreads(t.r);
    case SortExit(_) =>
      SortDoneThreads(t.l);
      SortDoneThreads(t.r);
  }

  /** The threads below a sort change as those below one of its halves do. */
  lemma HalfChanges(t: Sort, right: bool, c: Child<Sort>, held: int, unjoined: int)
    requires t.SortCall? && c.Running?
    requires var was := if right then t.r else t.l;
      && was.Running? && c.spawned == was.spawned
      && SortHeld(c.task) == SortHeld(was.task) + held && SortUnjoined(c.task) == SortUnjoined(was.task) + unjoined
    ensures var t' := if right then t.(r := c) else t.(l := c);
      SortHeld(t') == SortHeld(t) + held && SortUnjoined(t') == SortUnjoined(t) + unjoined
  {
  }

  lemma {:induction false} SortThreads(cfg: Config, t: Sort, e: Event, t': Sort,
                                       s: seq<Point>, d: nat, depth: nat, isThread: bool)
    requires SortOk(t, s, d, depth, isThread) && SortStep(cfg, t, e, t')
    ensures SortHeld(t') == SortHeld(t) + HeldChange(e)
    ensures SortUnjoined(t') == SortUnjoined(t) + UnjoinedChange(e)
    ensures !e.Write? && e != Release(false)
    decreases t
  {
    if SortOwn(cfg, t, e, t') {
      SortOwnThreads(cfg, t, e, t', s, d, depth, isThread);
    } else if t'.SortCall? && t' == t.(l := t'.l) && SortChildStep(cfg, t.l, e, t'.l) {
      SortThreads(cfg, t.l.task, e, t'.l.task, LeftHalf(s), d, depth + 1, t.l.spawned);
      HalfChanges(t, false, t'.l, HeldChange(e), UnjoinedChange(e));
    } else {
      SortThreads(cfg, t.r.task, e, t'.r.task, RightHalf(s), d, depth + 1, t.r.spawned);
      HalfChanges(t, true, t'.r, HeldChange(e), UnjoinedChange(e));
    }
  }

  lemma NewBuildThreads(c: Child<Build>)
    requires c.Running? && c.task.BuildCall? && c.task.pc.Enter? && c.task.l.Idle? && c.task.r.Idle?
    requires c.task.spawned == c.spawned
    ensures BuildChildHeld(c) == if c.spawned then 1 else 0
    ensures BuildChildUnjoined(c) == if c.spawned then 1 else 0
  {
    BuildDoneThreads(c.task.l);
    BuildDoneThreads(c.task.r);
  }

  lemma BuildForkThreads(cfg: Config, t: Build, e: Event, t': Build, path: Path, pts: seq<Point>,
                        dim: nat, depth: nat, isThread: bool, spawned: bool)
    requires BuildOk(cfg, t, path, pts, dim, depth, isThread, spawned) && t.BuildCall? && BuildOwn(cfg, t, e, t')
    requires t.pc.ForkL? || t.pc.ForkR?
    ensures BuildHeld(t') == BuildHeld(t) + HeldChange(e)
    ensures BuildUnjoined(t') == BuildUnjoined(t) + UnjoinedChange(e)
    ensures e == Release(false) ==> isThread && !spawned && t'.BuildDone?
  {
    BuildDoneThreads(t.l);
    BuildDoneThreads(t.r);
    if t.pc.ForkL? {
      NewBuildThreads(t'.l);
    } else if t'.r.Running? {
      NewBuildThreads(t'.r);
    }
  }

  lemma BuildJoinThreads(cfg: Config, t: Build, e: Event, t': Build, path: Path, pts: seq<Point>,
                        dim: nat, depth: nat, isThread: bool, spawned: bool)
    requires BuildOk(cfg, t, path, pts, dim, depth, isThread, spawned) && t.BuildCall? && BuildOwn(cfg, t, e, t')
    requires t.pc.Joining?
    ensures BuildHeld(t') == BuildHeld(t) + HeldChange(e)
    ensures BuildUnjoined(t') == BuildUnjoined(t) + UnjoinedChange(e)
    ensures e == Release(false) ==> isThread && !spawned && t'.BuildDone?
  {
    BuildDoneThreads(t.l);
    BuildDoneThreads(t.r);
    BuildDoneThreads(t'.l);
    BuildDoneThreads(t'.r);
  }

  lemma BuildSortThreads(cfg: Config, t: Build, e: Event, t': Build, path: Path, pts: seq<Point>,
                        dim: nat, depth: nat, isThread: bool, spawned: bool)
    requires BuildOk(cfg, t, path, pts, dim, depth, isThread, spawned) && t.BuildCall? && BuildOwn(cfg, t, e, t')
    requires t.pc.Enter? || t.pc.Sorting?
    ensures BuildHeld(t') == BuildHeld(t) + HeldChange(e)
    ensures BuildUnjoined(t') == BuildUnjoined(t) + UnjoinedChange(e)
    ensures e == Release(false) ==> isThread && !spawned && t'.BuildDone?
  {
    if t.pc.Sorting? {
      if t'.pc.Sorting? {
        SortThreads(cfg, t.pc.sort, e, t'.pc.sort, pts[..SampleEnd(|pts|)], dim, depth, false);
      }
    } else if |pts| >= 2 {
      NewThreads(pts[..SampleEnd(|pts|)], dim, depth, false, [], false);
    }
  }

  lemma BuildOwnThreads(cfg: Config, t: Build, e: Event, t': Build, path: Path, pts: seq<Point>,
                        dim: nat, depth: nat, isThread: bool, spawned: bool)
    requires BuildOk(cfg, t, path, pts, dim, depth, isThread, spawned) && t.BuildCall? && BuildOwn(cfg, t, e, t')
    ensures BuildHeld(t') == BuildHeld(t) + HeldChange(e)
    ensures BuildUnjoined(t') == BuildUnjoined(t) + UnjoinedChange(e)
    ensures e == Release(false) ==> isThread && !spawned && t'.BuildDone?
  {
    match t.pc
    case Enter => BuildSortThreads(cfg, t, e, t', path, pts, dim, depth, isThread, spawned);
    case Sorting(_) => BuildSortThreads(cfg, t, e, t', path, pts, dim, depth, isThread, spawned);
    case ForkL(_) => BuildForkThreads(cfg, t, e, t', path, pts, dim, depth, isThread, spawned);
    case ForkR(_) => BuildForkThreads(cfg, t, e, t', path, pts, dim, depth, isThread, spawned);
    case Joining => BuildJoinThreads(cfg, t, e, t', path, pts, dim, depth, isThread, spawned);
    case _ =>
      BuildDoneThreads(t.l);
      BuildDoneThreads(t.r);
  }

  /** The threads below a call change as those below one of its children do. */
  lemma ChildChanges(t: Build, right: bool, c: Child<Build>, held: int, unjoined: int)
    requires t.BuildCall? && c.Running?
    requires var was := if right then t.r else t.l;
      && was.Running? && c.spawned == was.spawned
      && BuildHeld(c.task) == BuildHeld(was.task) + held && BuildUnjoined(c.task) == BuildUnjoined(was.task) + unjoined
    ensures var t' := if right then t.(r := c) else t.(l := c);
      BuildHeld(t') == BuildHeld(t) + held && BuildUnjoined(t') == BuildUnjoined(t) + unjoined
  {
  }

  lemma {:induction false} BuildThreads(cfg: Config, t: Build, e: Event, t': Build, path: Path, pts: seq<Point>,
                                        dim: nat, depth: nat, isThread: bool, spawned: bool)
    requires BuildOk(cfg, t, path, pts, dim, depth, isThread, spawned) && BuildStep(cfg, t, e, t')
    ensures BuildHeld(t') == BuildHeld(t) + HeldChange(e)
    ensures BuildUnjoined(t') == BuildUnjoined(t) + UnjoinedChange(e)
    ensures e == Release(false) ==> isThread && !spawned && t'.BuildDone?
    decreases t
  {
    if BuildOwn(cfg, t, e, t') {
      BuildOwnThreads(cfg, t, e, t', path, pts, dim, depth, isThread, spawned);
    } else {
      BuildChildrenOk(cfg, t, path, pts, dim, depth, isThread, spawned);
      if t'.BuildCall? && t' == t.(l := t'.l) && BuildChildStep(cfg, t.l, e, t'.l) {
        BuildThreads(cfg, t.l.task, e, t'.l.task, path + [false], LeftPart(pts, dim), NextDim(dim, cfg.dims),
                     depth + 1, t.l.spawned, t.l.spawned);
        ChildChanges(t, false, t'.l, HeldChange(e), UnjoinedChange(e));
      } else {
        BuildThreads(cfg, t.r.task, e, t'.r.task, path + [true], RightPart(pts, dim), NextDim(dim, cfg.dims),
                     depth + 1, t.r.spawned, t.r.spawned);
        ChildChanges(t, true, t'.r, HeldChange(e), UnjoinedChange(e));
      }
    }
  }
}
