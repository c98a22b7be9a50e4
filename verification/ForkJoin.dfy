/** The parallel build as a step machine: make_tree, populate_nodes and merge_sort with their forks,
    joins and shared slot counter. Every call in progress is a task; a call inside another, inline or
    in a thread of its own, is a child of the caller's task. One step of the machine is one step of
    some thread, each block under thread_lock being a single step. */
module ForkJoin {
  import opened Points
  import opened StableSort
  import opened KdTree

  /** dims: num_dimensions. limit: thread_limit. forkDepth: static_depth. */
  datatype Config = Config(dims: nat, limit: nat, forkDepth: nat)

  /** A child slot in the tree, by the turns that lead to it: false for l_child, true for r_child. */
  type Path = seq<bool>

  /** A node as its task fills it in. */
  datatype Cell = LeafCell(dim: nat, point: Point) | SplitCell(dim: nat, median: real, numPts: nat)

  /** What a step does to the state all threads share. */
  datatype Event =
    | Tau                            // nothing
    | Grant                          // make_thread() answers true, and the thread exists
    | Refuse                         // make_thread() answers false
    | Release(spawned: bool)         // decrement_tmp_threads() by a task that was, or was not, spawned
    | Keep                           // a spawned one-element task returns without giving its slot back
    | Join                           // pthread_join returns
    | Write(path: Path, cell: Cell)  // a child slot is assigned a new node

  /** A callee seen from its caller: not called yet, still running, or returned. */
  datatype Child<T> = Idle | Running(task: T, spawned: bool) | Joined(task: T)

  datatype Sort =
    | SortCall(s: seq<Point>, d: nat, depth: nat, isThread: bool, pc: SortPc, l: Child<Sort>, r: Child<Sort>)
    | SortDone(out: seq<Point>)

  datatype SortPc = SortEnter | SortForkL | SortForkR | SortJoin | SortExit(out: seq<Point>)

  datatype Build =
    | BuildCall(path: Path, pts: seq<Point>, dim: nat, depth: nat, isThread: bool, spawned: bool,
                pc: BuildPc, l: Child<Build>, r: Child<Build>)
    | BuildDone

  datatype BuildPc =
    | Enter
    | LeafReturn
    | Sorting(sort: Sort)
    | ForkL(median: real)
    | ForkR(median: real)
    | Joining
    | Exit

  /** make_tree itself. Its two threads are created only after both questions have been answered. */
  datatype Main = Main(pts: seq<Point>, pc: MainPc, l: Child<Build>, r: Child<Build>)

  datatype MainPc =
    | RootEnter
    | RootSort(sort: Sort)
    | AskL(median: real)
    | AskR(median: real)
    | RunL(median: real)
    | RunR(median: real)
    | Returned

  function NewSort(s: seq<Point>, d: nat, depth: nat, isThread: bool): Sort {
    SortCall(s, d, depth, isThread, SortEnter, Idle, Idle)
  }

  function NewBuild(path: Path, pts: seq<Point>, dim: nat, depth: nat, isThread: bool, spawned: bool): Build {
    BuildCall(path, pts, dim, depth, isThread, spawned, Enter, Idle, Idle)
  }

  /** The call is on its caller's own stack, so the caller is waiting for it. */
  predicate Inline<T>(c: Child<T>) {
    c.Running? && !c.spawned
  }

  /** How a caller at this depth decides whether its next callee gets a thread. */
  predicate Asks(cfg: Config, depth: nat, e: Event, spawned: bool) {
    if depth < cfg.forkDepth then e == (if spawned then Grant else Refuse) else e == Tau && !spawned
  }

  // ---- merge_sort ----

  function LeftHalf(s: seq<Point>): seq<Point> { s[..|s| / 2] }

  function RightHalf(s: seq<Point>): seq<Point> { s[|s| / 2..] }

  predicate SortStep(cfg: Config, t: Sort, e: Event, t': Sort)
    decreases t
  {
    t.SortCall? && (
      || SortOwn(cfg, t, e, t')
      || (t'.SortCall? && t' == t.(l := t'.l) && SortChildStep(cfg, t.l, e, t'.l))
      || (t'.SortCall? && t' == t.(r := t'.r) && SortChildStep(cfg, t.r, e, t'.r)))
  }

  predicate SortChildStep(cfg: Config, c: Child<Sort>, e: Event, c': Child<Sort>)
    decreases c
  {
    c.Running? && c'.Running? && c'.spawned == c.spawned && SortStep(cfg, c.task, e, c'.task)
  }

  predicate SortOwn(cfg: Config, t: Sort, e: Event, t': Sort)
    requires t.SortCall?
  {
    match t.pc
    case SortEnter =>  // an empty range fails the assertion that follows, and goes no further
      if |t.s| == 1 then e == (if t.isThread then Keep else Tau) && t' == SortDone([t.s[0]])
      else |t.s| >= 2 && e == Tau && t' == t.(pc := SortForkL)
    case SortForkL =>
      && t'.SortCall? && t'.l.Running?
      && var spawned := t'.l.spawned;
         && Asks(cfg, t.depth, e, spawned)
         && t' == t.(pc := SortForkR, l := Running(NewSort(LeftHalf(t.s), t.d, t.depth + 1, spawned), spawned))
    case SortForkR =>
      || (Inline(t.l) && t.l.task.SortDone? && e == Tau && t' == t.(l := Joined(t.l.task)))
      || (&& !Inline(t.l) && t'.SortCall? && t'.r.Running?
          && var spawned := t'.r.spawned;
             && Asks(cfg, t.depth, e, spawned)
             && t' == t.(pc := SortJoin, r := Running(NewSort(RightHalf(t.s), t.d, t.depth + 1, spawned), spawned)))
    case SortJoin =>
      || (Inline(t.r) && t.r.task.SortDone? && e == Tau && t' == t.(r := Joined(t.r.task)))
      || (!Inline(t.r) && t.l.Running? && t.l.task.SortDone? && e == Join && t' == t.(l := Joined(t.l.task)))
      || (t.l.Joined? && t.r.Running? && t.r.spawned && t.r.task.SortDone? && e == Join
          && t' == t.(r := Joined(t.r.task)))
      || (t.l.Joined? && t.r.Joined? && t.l.task.SortDone? && t.r.task.SortDone? && e == Tau
          && t' == t.(pc := SortExit(Merge(t.l.task.out, t.r.task.out, t.d))))
    case SortExit(out) =>
      e == (if t.isThread then Release(true) else Tau) && t' == SortDone(out)
  }

  // ---- populate_nodes ----

  predicate BuildStep(cfg: Config, t: Build, e: Event, t': Build)
    decreases t
  {
    t.BuildCall? && (
      || BuildOwn(cfg, t, e, t')
      || (t'.BuildCall? && t' == t.(l := t'.l) && BuildChildStep(cfg, t.l, e, t'.l))
      || (t'.BuildCall? && t' == t.(r := t'.r) && BuildChildStep(cfg, t.r, e, t'.r)))
  }

  predicate BuildChildStep(cfg: Config, c: Child<Build>, e: Event, c': Child<Build>)
    decreases c
  {
    c.Running? && c'.Running? && c'.spawned == c.spawned && BuildStep(cfg, c.task, e, c'.task)
  }

  predicate BuildOwn(cfg: Config, t: Build, e: Event, t': Build)
    requires t.BuildCall?
  {
    var next := NextDim(t.dim, cfg.dims);
    match t.pc
    case Enter =>
      if |t.pts| == 0 then e == Tau && t' == t.(pc := Exit)
      else if |t.pts| == 1 then e == Write(t.path, LeafCell(t.dim, t.pts[0])) && t' == t.(pc := LeafReturn)
      else e == Tau && t' == t.(pc := Sorting(NewSort(t.pts[..SampleEnd(|t.pts|)], t.dim, t.depth, false)))
    case LeafReturn =>
      e == (if t.spawned then Keep else Tau) && t' == BuildDone
    case Sorting(sort) =>
      || (t'.BuildCall? && t'.pc.Sorting? && t' == t.(pc := t'.pc) && SortStep(cfg, sort, e, t'.pc.sort))
      || (sort.SortDone? && sort.out != []
          && var m := Median(sort.out, t.dim);
             e == Write(t.path, SplitCell(t.dim, m, |sort.out|)) && t' == t.(pc := ForkL(m)))
    case ForkL(m) =>
      && t'.BuildCall? && t'.l.Running?
      && var spawned := t'.l.spawned;
         && Asks(cfg, t.depth, e, spawned)
         && t' == t.(pc := ForkR(m), l := Running(
              NewBuild(t.path + [false], Lower(t.pts, t.dim, m), next, t.depth + 1, spawned, spawned), spawned))
    case ForkR(m) =>
      || (Inline(t.l) && t.l.task.BuildDone? && e == Tau && t' == t.(l := Joined(t.l.task)))
      || (&& !Inline(t.l) && t'.BuildCall? && t'.r.Running?
          && var spawned := t'.r.spawned;
             && Asks(cfg, t.depth, e, spawned)
             && t' == t.(pc := Joining, r := Running(
                  NewBuild(t.path + [true], Upper(t.pts, t.dim, m), next, t.depth + 1, spawned, spawned), spawned)))
    case Joining =>
      || (Inline(t.r) && t.r.task.BuildDone? && e == Tau && t' == t.(r := Joined(t.r.task)))
      || (!Inline(t.r) && t.l.Running? && t.l.task.BuildDone? && e == Join && t' == t.(l := Joined(t.l.task)))
      || (t.l.Joined? && t.r.Running? && t.r.spawned && t.r.task.BuildDone? && e == Join
          && t' == t.(r := Joined(t.r.task)))
      || (t.l.Joined? && t.r.Joined? && e == Tau && t' == t.(pc := Exit))
    case Exit =>
      e == (if t.isThread then Release(t.spawned) else Tau) && t' == BuildDone
  }

  // ---- make_tree ----

  predicate MainStep(cfg: Config, t: Main, e: Event, t': Main) {
    || MainOwn(cfg, t, e, t')
    || ((t.pc.RunL? || t.pc.RunR?) && (
        || (t' == t.(l := t'.l) && BuildChildStep(cfg, t.l, e, t'.l))
        || (t' == t.(r := t'.r) && BuildChildStep(cfg, t.r, e, t'.r))))
  }

  /** A root task, marked is_thread whether or not it is spawned. */
  function RootTask(cfg: Config, t: Main, right: bool, m: real, spawned: bool): Build {
    NewBuild([right], if right then Upper(t.pts, 0, m) else Lower(t.pts, 0, m), NextDim(0, cfg.dims), 1, true, spawned)
  }

  predicate MainOwn(cfg: Config, t: Main, e: Event, t': Main) {
    match t.pc
    case RootEnter =>
      if |t.pts| == 1 then e == Write([], LeafCell(0, t.pts[0])) && t' == t.(pc := Returned)
      else |t.pts| >= 2 && e == Tau && t' == t.(pc := RootSort(NewSort(t.pts[..|t.pts| / 4], 0, 0, false)))
    case RootSort(sort) =>
      || (t'.pc.RootSort? && t' == t.(pc := t'.pc) && SortStep(cfg, sort, e, t'.pc.sort))
      || (sort.SortDone? && sort.out != []
          && var m := Median(sort.out, 0);
             e == Write([], SplitCell(0, m, |t.pts|)) && t' == t.(pc := AskL(m)))
    case AskL(m) =>
      || (e == Grant && t' == t.(pc := AskR(m), l := Running(RootTask(cfg, t, false, m, true), true)))
      || (e == Refuse && t' == t.(pc := AskR(m)))
    case AskR(m) =>
      || (e == Grant && t' == t.(pc := RunL(m), r := Running(RootTask(cfg, t, true, m, true), true)))
      || (e == Refuse && t' == t.(pc := RunL(m)))
    case RunL(m) =>
      || (t.l.Idle? && e == Tau && t' == t.(l := Running(RootTask(cfg, t, false, m, false), false)))
      || (t.l.Running? && t.l.task.BuildDone? && e == (if t.l.spawned then Join else Tau)
          && t' == t.(pc := RunR(m), l := Joined(t.l.task)))
    case RunR(m) =>
      || (t.r.Idle? && e == Tau && t' == t.(r := Running(RootTask(cfg, t, true, m, false), false)))
      || (t.r.Running? && t.r.task.BuildDone? && e == (if t.r.spawned then Join else Tau)
          && t' == t.(pc := Returned, r := Joined(t.r.task)))
    case Returned => false
  }

  // ---- The shared state ----

  /** count is tmp_thread_count, an unsigned int. The other numbers only record what has happened:
      kept: slots one-element tasks left behind; early: releases by root tasks that never had a slot;
      forked and joined: threads created and joined. heap holds every node assigned so far. */
  datatype World = World(main: Main, count: nat, kept: nat, early: nat, forked: nat, joined: nat, heap: map<Path, Cell>)

  const UINT_MAX: nat := 0xFFFF_FFFF

  predicate Enabled(cfg: Config, w: World, e: Event) {
    match e
    case Grant => w.count < cfg.limit
    case Refuse => w.count >= cfg.limit
    case _ => true
  }

  function Effect(w: World, e: Event): World {
    match e
    case Tau => w
    case Grant => w.(count := w.count + 1, forked := w.forked + 1)
    case Refuse => w
    case Release(spawned) =>
      w.(count := if w.count == 0 then UINT_MAX else w.count - 1, early := if spawned then w.early else w.early + 1)
    case Keep => w.(kept := w.kept + 1)
    case Join => w.(joined := w.joined + 1)
    case Write(p, c) => w.(heap := w.heap[p := c])
  }

  predicate WorldStep(cfg: Config, w: World, e: Event, w': World) {
    Enabled(cfg, w, e) && MainStep(cfg, w.main, e, w'.main) && w' == Effect(w, e).(main := w'.main)
  }

  function InitialWorld(pts: seq<Point>): World {
    World(Main(pts, RootEnter, Idle, Idle), 0, 0, 0, 0, 0, map[])
  }

  /** A run of the build from its start, not necessarily to its end: one interleaving, given by the
      states it passes through and the events between them. The points are such that the sequential
      build is defined. */
  ghost predicate BuildRun(cfg: Config, pts: seq<Point>, ws: seq<World>, es: seq<Event>) {
    && cfg.dims >= 1 && RootSplits(pts, cfg.dims)
    && |ws| == |es| + 1 && ws[0] == InitialWorld(pts)
    && forall i :: 0 <= i < |es| ==> StepAt(cfg, ws, es, i)
  }

  predicate StepAt(cfg: Config, ws: seq<World>, es: seq<Event>, i: int)
    requires |ws| == |es| + 1 && 0 <= i < |es|
  {
    WorldStep(cfg, ws[i], es[i], ws[i + 1])
  }
}
