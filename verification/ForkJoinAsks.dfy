/** Which calls ask for a thread, and what becomes of the slot of each thread that was granted. */
module ForkJoinAsks {
  import opened Points
  import opened StableSort
  import opened KdTree
  import opened ForkJoin
  import opened ForkJoinState
  import opened Asks

  function Question(e: Event): nat {
    if e.Grant? || e.Refuse? then 1 else 0
  }

  // ---- Questions still to be asked ----

  function SortAsksLeft(cfg: Config, t: Sort): nat
    decreases t
  {
    match t
    case SortDone(_) => 0
    case SortCall(s, _, depth, _, pc, l, r) =>
      var n, fd := |s|, cfg.forkDepth;
      match pc
      case SortEnter => SortAsks(n, depth, fd)
      case SortForkL => OwnAsks(depth, fd) + SortAsks(n / 2, depth + 1, fd) + SortAsks(n - n / 2, depth + 1, fd)
      case SortForkR => OwnAsks(depth, fd) / 2 + HalfAsksLeft(cfg, l) + SortAsks(n - n / 2, depth + 1, fd)
      case SortJoin => HalfAsksLeft(cfg, l) + HalfAsksLeft(cfg, r)
      case SortExit(_) => 0
  }

  function HalfAsksLeft(cfg: Config, c: Child<Sort>): nat
    decreases c
  {
    if c.Running? then SortAsksLeft(cfg, c.task) else 0
  }

  lemma NewHalfAsks(cfg: Config, s: seq<Point>, d: nat, depth: nat, isThread: bool, spawned: bool)
    ensures HalfAsksLeft(cfg, Running(NewSort(s, d, depth, isThread), spawned)) == SortAsks(|s|, depth, cfg.forkDepth)
  {
  }

  lemma QuietHalfAsks(cfg: Config, c: Child<Sort>)
    ensures !c.Running? || c.task.SortDone? ==> HalfAsksLeft(cfg, c) == 0
  {
  }

  lemma SortForkAsks(cfg: Config, t: Sort, e: Event, t': Sort, s: seq<Point>, d: nat, depth: nat, isThread: bool)
    requires SortOk(t, s, d, depth, isThread) && t.SortCall? && SortOwn(cfg, t, e, t')
    requires t.pc.SortForkL? || t.pc.SortForkR?
    ensures SortAsksLeft(cfg, t) == SortAsksLeft(cfg, t') + Question(e)
  {
    QuietHalfAsks(cfg, t.l);
    QuietHalfAsks(cfg, t'.l);
    if t.pc.SortForkL? {
      NewHalfAsks(cfg, LeftHalf(s), d, depth + 1, t'.l.spawned, t'.l.spawned);
    } else if t'.r.Running? {
      NewHalfAsks(cfg, RightHalf(s), d, depth + 1, t'.r.spawned, t'.r.spawned);
    }
  }

  lemma SortOwnAsks(cfg: Config, t: Sort, e: Event, t': Sort, s: seq<Point>, d: nat, depth: nat, isThread: bool)
    requires SortOk(t, s, d, depth, isThread) && t.SortCall? && SortOwn(cfg, t, e, t')
    ensures SortAsksLeft(cfg, t) == SortAsksLeft(cfg, t') + Question(e)
  {
    match t.pc
    case SortForkL => SortForkAsks(cfg, t, e, t', s, d, depth, isThread);
    case SortForkR => SortForkAsks(cfg, t, e, t', s, d, depth, isThread);
    case SortJoin =>
      QuietHalfAsks(cfg, t.l);
      QuietHalfAsks(cfg, t.r);
      QuietHalfAsks(cfg, t'.l);
      QuietHalfAsks(cfg, t'.r);
    case _ =>
  }

  lemma HalfChangesAsks(cfg: Config, t: Sort, right: bool, task: Sort, k: nat)
    requires t.SortCall? && ((t.pc.SortForkR? && !right) || t.pc.SortJoin?)
    requires var was := if right then t.r else t.l;
      was.Running? && SortAsksLeft(cfg, was.task) == SortAsksLeft(cfg, task) + k
    ensures var t' := if right then t.(r := t.r.(task := task)) else t.(l := t.l.(task := task));
      SortAsksLeft(cfg, t) == SortAsksLeft(cfg, t') + k
  {
  }

  lemma {:induction false} SortStepAsks(cfg: Config, t: Sort, e: Event, t': Sort, s: seq<Point>, d: nat, depth: nat,
                                        isThread: bool)
    requires SortOk(t, s, d, depth, isThread) && SortStep(cfg, t, e, t')
    ensures SortAsksLeft(cfg, t) == SortAsksLeft(cfg, t') + Question(e)
    decreases t
  {
    if SortOwn(cfg, t, e, t') {
      SortOwnAsks(cfg, t, e, t', s, d, depth, isThread);
    } else if t'.SortCall? && t' == t.(l := t'.l) && SortChildStep(cfg, t.l, e, t'.l) {
      SortStepAsks(cfg, t.l.task, e, t'.l.task, LeftHalf(s), d, depth + 1, t.l.spawned);
      HalfChangesAsks(cfg, t, false, t'.l.task, Question(e));
    } else {
      SortStepAsks(cfg, t.r.task, e, t'.r.task, RightHalf(s), d, depth + 1, t.r.spawned);
      HalfChangesAsks(cfg, t, true, t'.r.task, Question(e));
    }
  }

  /** tree: what the call will have built. */
  function BuildAsksLeft(cfg: Config, t: Build, tree: Tree): nat
    decreases t
  {
    match t
    case BuildDone => 0
    case BuildCall(_, _, _, depth, _, _, pc, l, r) =>
      if !tree.Split? then 0
      else
        var fd := cfg.forkDepth;
        match pc
        case Enter => TreeAsks(tree, depth, fd)
        case LeafReturn => 0
        case Sorting(sort) =>
          SortAsksLeft(cfg, sort) + OwnAsks(depth, fd) + TreeAsks(tree.left, depth + 1, fd) + TreeAsks(tree.right, depth + 1, fd)
        case ForkL(_) => OwnAsks(depth, fd) + TreeAsks(tree.left, depth + 1, fd) + TreeAsks(tree.right, depth + 1, fd)
        case ForkR(_) => OwnAsks(depth, fd) / 2 + CallAsksLeft(cfg, l, tree.left) + TreeAsks(tree.right, depth + 1, fd)
        case Joining => CallAsksLeft(cfg, l, tree.left) + CallAsksLeft(cfg, r, tree.right)
        case Exit => 0
  }

  function CallAsksLeft(cfg: Config, c: Child<Build>, tree: Tree): nat
    decreases c
  {
    if c.Running? then BuildAsksLeft(cfg, c.task, tree) else 0
  }

  lemma NewCallAsks(cfg: Config, c: Child<Build>, tree: Tree)
    requires c.Running? && c.task.BuildCall? && c.task.pc.Enter?
    ensures CallAsksLeft(cfg, c, tree) == TreeAsks(tree, c.task.depth, cfg.forkDepth)
  {
  }

  lemma QuietCallAsks(cfg: Config, c: Child<Build>, tree: Tree)
    ensures !c.Running? || c.task.BuildDone? ==> CallAsksLeft(cfg, c, tree) == 0
  {
  }

  /** All a call's own steps depend on. */
  predicate SizeOf(tree: Tree, n: nat) {
    if n >= 2 then tree.Split? && tree.numPts == SampleEnd(n) else !tree.Split?
  }

  lemma ForkLeftAsks(cfg: Config, t: Build, e: Event, t': Build, path: Path, pts: seq<Point>, dim: nat, depth: nat,
                      isThread: bool, spawned: bool, tree: Tree)
    requires BuildOk(cfg, t, path, pts, dim, depth, isThread, spawned) && t.BuildCall? && BuildOwn(cfg, t, e, t')
    requires SizeOf(tree, |pts|)
    requires t.pc.ForkL?
    ensures BuildAsksLeft(cfg, t, tree) == BuildAsksLeft(cfg, t', tree) + Question(e)
  {
    QuietCallAsks(cfg, t.l, tree.left);
    NewCallAsks(cfg, t'.l, tree.left);
  }

  lemma ForkRightAsks(cfg: Config, t: Build, e: Event, t': Build, path: Path, pts: seq<Point>, dim: nat, depth: nat,
                      isThread: bool, spawned: bool, tree: Tree)
    requires BuildOk(cfg, t, path, pts, dim, depth, isThread, spawned) && t.BuildCall? && BuildOwn(cfg, t, e, t')
    requires SizeOf(tree, |pts|)
    requires t.pc.ForkR?
    ensures BuildAsksLeft(cfg, t, tree) == BuildAsksLeft(cfg, t', tree) + Question(e)
  {
    if t'.r.Running? {
      NewCallAsks(cfg, t'.r, tree.right);
    } else {
      QuietCallAsks(cfg, t.l, tree.left);
      QuietCallAsks(cfg, t'.l, tree.left);
    }
  }

  lemma SortingAsks(cfg: Config, t: Build, e: Event, t': Build, path: Path, pts: seq<Point>, dim: nat, depth: nat,
                      isThread: bool, spawned: bool, tree: Tree)
    requires BuildOk(cfg, t, path, pts, dim, depth, isThread, spawned) && t.BuildCall? && BuildOwn(cfg, t, e, t')
    requires SizeOf(tree, |pts|)
    requires t.pc.Sorting?
    ensures BuildAsksLeft(cfg, t, tree) == BuildAsksLeft(cfg, t', tree) + Question(e)
  {
    if t'.pc.Sorting? {
      SortStepAsks(cfg, t.pc.sort, e, t'.pc.sort, pts[..SampleEnd(|pts|)], dim, depth, false);
    }
  }

  lemma JoiningAsks(cfg: Config, t: Build, e: Event, t': Build, path: Path, pts: seq<Point>, dim: nat, depth: nat,
                      isThread: bool, spawned: bool, tree: Tree)
    requires BuildOk(cfg, t, path, pts, dim, depth, isThread, spawned) && t.BuildCall? && BuildOwn(cfg, t, e, t')
    requires SizeOf(tree, |pts|)
    requires t.pc.Joining?
    ensures BuildAsksLeft(cfg, t, tree) == BuildAsksLeft(cfg, t', tree) + Question(e)
  {
    QuietCallAsks(cfg, t.l, tree.left);
    QuietCallAsks(cfg, t'.l, tree.left);
    QuietCallAsks(cfg, t.r, tree.right);
    QuietCallAsks(cfg, t'.r, tree.right);
  }

  lemma BoundaryAsks(cfg: Config, t: Build, e: Event, t': Build, path: Path, pts: seq<Point>, dim: nat, depth: nat,
                     isThread: bool, spawned: bool, tree: Tree)
    requires BuildOk(cfg, t, path, pts, dim, depth, isThread, spawned) && t.BuildCall? && BuildOwn(cfg, t, e, t')
    requires SizeOf(tree, |pts|)
    requires t.pc.Enter? || t.pc.LeafReturn? || t.pc.Exit?
    ensures BuildAsksLeft(cfg, t, tree) == BuildAsksLeft(cfg, t', tree) + Question(e)
  {
  }

  lemma BuildOwnAsks(cfg: Config, t: Build, e: Event, t': Build, path: Path, pts: seq<Point>, dim: nat, depth: nat,
                      isThread: bool, spawned: bool, tree: Tree)
    requires BuildOk(cfg, t, path, pts, dim, depth, isThread, spawned) && t.BuildCall? && BuildOwn(cfg, t, e, t')
    requires SizeOf(tree, |pts|)
    ensures BuildAsksLeft(cfg, t, tree) == BuildAsksLeft(cfg, t', tree) + Question(e)
  {
    match t.pc
    case ForkL(_) => ForkLeftAsks(cfg, t, e, t', path, pts, dim, depth, isThread, spawned, tree);
    case ForkR(_) => ForkRightAsks(cfg, t, e, t', path, pts, dim, depth, isThread, spawned, tree);
    case Joining => JoiningAsks(cfg, t, e, t', path, pts, dim, depth, isThread, spawned, tree);
    case Sorting(_) => SortingAsks(cfg, t, e, t', path, pts, dim, depth, isThread, spawned, tree);
    case _ => BoundaryAsks(cfg, t, e, t', path, pts, dim, depth, isThread, spawned, tree);
  }

  /** The shape of what the call builds, and of what its calls build. */
  lemma TreeShape(pts: seq<Point>, dim: nat, dims: nat, tree: Tree)
    requires dim < dims && Splits(pts, dim, dims) && tree == BuildTree(pts, dim, dims)
    ensures SizeOf(tree, |pts|)
    ensures |pts| >= 2 ==> tree.left == BuildTree(LeftPart(pts, dim), NextDim(dim, dims), dims)
    ensures |pts| >= 2 ==> tree.right == BuildTree(RightPart(pts, dim), NextDim(dim, dims), dims)
  {
    if |pts| >= 2 {
      InnerTree(pts, dim, dims);
    }
  }

  lemma CallChangesAsks(cfg: Config, t: Build, right: bool, task: Build, tree: Tree, k: nat)
    requires t.BuildCall? && ((t.pc.ForkR? && !right) || t.pc.Joining?) && tree.Split?
    requires var (was, part) := if right then (t.r, tree.right) else (t.l, tree.left);
      was.Running? && BuildAsksLeft(cfg, was.task, part) == BuildAsksLeft(cfg, task, part) + k
    ensures var t' := if right then t.(r := t.r.(task := task)) else t.(l := t.l.(task := task));
      BuildAsksLeft(cfg, t, tree) == BuildAsksLeft(cfg, t', tree) + k
  {
  }

  /** A call with a child at work is between its forks and its return. */
  lemma ChildAtWork(cfg: Config, t: Build, path: Path, pts: seq<Point>, dim: nat, depth: nat, isThread: bool, spawned: bool)
    requires BuildOk(cfg, t, path, pts, dim, depth, isThread, spawned) && t.BuildCall?
    ensures t.l.Running? ==> |pts| >= 2 && (t.pc.ForkR? || t.pc.Joining?)
    ensures t.r.Running? ==> |pts| >= 2 && t.pc.Joining?
  {
  }

  lemma {:induction false} BuildStepAsks(cfg: Config, t: Build, e: Event, t': Build, path: Path, pts: seq<Point>, dim: nat,
                                         depth: nat, isThread: bool, spawned: bool, tree: Tree)
    requires BuildOk(cfg, t, path, pts, dim, depth, isThread, spawned) && BuildStep(cfg, t, e, t')
    requires tree == BuildTree(pts, dim, cfg.dims)
    ensures BuildAsksLeft(cfg, t, tree) == BuildAsksLeft(cfg, t', tree) + Question(e)
    decreases t
  {
    TreeShape(pts, dim, cfg.dims, tree);
    if BuildOwn(cfg, t, e, t') {
      BuildOwnAsks(cfg, t, e, t', path, pts, dim, depth, isThread, spawned, tree);
    } else {
      BuildChildrenOk(cfg, t, path, pts, dim, depth, isThread, spawned);
      ChildAtWork(cfg, t, path, pts, dim, depth, isThread, spawned);
      var next := NextDim(dim, cfg.dims);
      if t'.BuildCall? && t' == t.(l := t'.l) && BuildChildStep(cfg, t.l, e, t'.l) {
        BuildStepAsks(cfg, t.l.task, e, t'.l.task, path + [false], LeftPart(pts, dim), next, depth + 1, t.l.spawned, t.l.spawned,
                      tree.left);
        CallChangesAsks(cfg, t, false, t'.l.task, tree, Question(e));
      } else {
        BuildStepAsks(cfg, t.r.task, e, t'.r.task, path + [true], RightPart(pts, dim), next, depth + 1, t.r.spawned, t.r.spawned,
                      tree.right);
        CallChangesAsks(cfg, t, true, t'.r.task, tree, Question(e));
      }
    }
  }

  function RootTaskAsksLeft(cfg: Config, c: Child<Build>, tree: Tree): nat {
    if c.Idle? then TreeAsks(tree, 1, cfg.forkDepth) else CallAsksLeft(cfg, c, tree)
  }

  /** Questions make_tree and all its calls will still ask; tree is what it will have built. */
  function MainAsksLeft(cfg: Config, t: Main, tree: Tree): nat {
    if !tree.Split? then 0
    else
      var tasks := RootTaskAsksLeft(cfg, t.l, tree.left) + RootTaskAsksLeft(cfg, t.r, tree.right);
      match t.pc
      case RootEnter => SortAsks(tree.numPts / 4, 0, cfg.forkDepth) + 2 + tasks
      case RootSort(sort) => SortAsksLeft(cfg, sort) + 2 + tasks
      case AskL(_) => 2 + tasks
      case AskR(_) => 1 + tasks
      case _ => tasks
  }

  lemma RootTaskAsks(cfg: Config, c: Child<Build>, c': Child<Build>, tree: Tree)
    requires c == c' || (c.Idle? && c'.Running? && c'.task.BuildCall? && c'.task.pc.Enter? && c'.task.depth == 1)
             || (c.Running? && c.task.BuildDone? && c'.Joined?)
    ensures RootTaskAsksLeft(cfg, c', tree) == RootTaskAsksLeft(cfg, c, tree)
  {
    if c.Idle? && c'.Running? {
      NewCallAsks(cfg, c', tree);
    } else {
      QuietCallAsks(cfg, c, tree);
      QuietCallAsks(cfg, c', tree);
    }
  }

  lemma RootShape(pts: seq<Point>, dims: nat, tree: Tree)
    requires dims >= 1 && RootSplits(pts, dims) && tree == BuildRoot(pts, dims)
    ensures if |pts| >= 4 then tree.Split? && tree.numPts == |pts| else !tree.Split?
    ensures |pts| >= 4 ==> tree.left == BuildTree(Lower(pts, 0, SampleMedian(pts, |pts| / 4, 0)), NextDim(0, dims), dims)
    ensures |pts| >= 4 ==> tree.right == BuildTree(Upper(pts, 0, SampleMedian(pts, |pts| / 4, 0)), NextDim(0, dims), dims)
  {
  }

  lemma MainOwnAsks(cfg: Config, t: Main, e: Event, t': Main, tree: Tree)
    requires MainOk(cfg, t) && MainOwn(cfg, t, e, t')
    requires if |t.pts| >= 4 then tree.Split? && tree.numPts == |t.pts| else !tree.Split?
    ensures MainAsksLeft(cfg, t, tree) == MainAsksLeft(cfg, t', tree) + Question(e)
  {
    if |t.pts| != 1 {
      RootTaskAsks(cfg, t.l, t'.l, tree.left);
      RootTaskAsks(cfg, t.r, t'.r, tree.right);
      if t.pc.RootSort? && t'.pc.RootSort? {
        SortStepAsks(cfg, t.pc.sort, e, t'.pc.sort, t.pts[..|t.pts| / 4], 0, 0, false);
      }
    }
  }

  lemma RootTaskStepAsks(cfg: Config, c: Child<Build>, e: Event, c': Child<Build>, pts: seq<Point>, right: bool, m: real, tree: Tree)
    requires cfg.dims >= 1 && RootChildOk(cfg, c, pts, right, m) && BuildChildStep(cfg, c, e, c')
    requires var (part, next) := (if right then Upper(pts, 0, m) else Lower(pts, 0, m), NextDim(0, cfg.dims));
      Splits(part, next, cfg.dims) && tree == BuildTree(part, next, cfg.dims)
    ensures RootTaskAsksLeft(cfg, c, tree) == RootTaskAsksLeft(cfg, c', tree) + Question(e)
  {
    BuildStepAsks(cfg, c.task, e, c'.task, [right], if right then Upper(pts, 0, m) else Lower(pts, 0, m),
                  NextDim(0, cfg.dims), 1, true, c.spawned, tree);
  }

  lemma MainStepAsks(cfg: Config, t: Main, e: Event, t': Main, tree: Tree)
    requires MainOk(cfg, t) && MainStep(cfg, t, e, t') && tree == BuildRoot(t.pts, cfg.dims)
    ensures MainAsksLeft(cfg, t, tree) == MainAsksLeft(cfg, t', tree) + Question(e)
  {
    RootShape(t.pts, cfg.dims, tree);
    if MainOwn(cfg, t, e, t') {
      MainOwnAsks(cfg, t, e, t', tree);
    } else {
      if t' == t.(l := t'.l) && BuildChildStep(cfg, t.l, e, t'.l) {
        RootTaskStepAsks(cfg, t.l, e, t'.l, t.pts, false, t.pc.median, tree.left);
      } else {
        RootTaskStepAsks(cfg, t.r, e, t'.r, t.pts, true, t.pc.median, tree.right);
      }
    }
  }

  // ---- What becomes of a slot ----

  /** Threads at work on one element, or on any other number. */
  function SortLive(t: Sort, one: bool): nat
    decreases t
  {
    if t.SortDone? then 0
    else (if t.isThread && (|t.s| == 1) == one then 1 else 0) + HalfLive(t.l, one) + HalfLive(t.r, one)
  }

  function HalfLive(c: Child<Sort>, one: bool): nat
    decreases c
  {
    if c.Running? then SortLive(c.task, one) else 0
  }

  function BuildLive(t: Build, one: bool): nat
    decreases t
  {
    if t.BuildDone? then 0
    else
      (if t.spawned && (|t.pts| == 1) == one then 1 else 0) + (if t.pc.Sorting? then SortLive(t.pc.sort, one) else 0)
      + CallLive(t.l, one) + CallLive(t.r, one)
  }

  function CallLive(c: Child<Build>, one: bool): nat
    decreases c
  {
    if c.Running? then BuildLive(c.task, one) else 0
  }

  function MainLive(t: Main, one: bool): nat {
    (if t.pc.RootSort? then SortLive(t.pc.sort, one) else 0) + CallLive(t.l, one) + CallLive(t.r, one)
  }

  /** How many threads on one element, a, and on any other number, b, are at work before and after a
      step: a grant adds one of either kind, a slot is kept exactly by one that ends with one element
      and given back exactly by one that ends with another number. */
  predicate LiveStep(a: nat, b: nat, e: Event, a': nat, b': nat) {
    match e
    case Grant => (a' == a + 1 && b' == b) || (a' == a && b' == b + 1)
    case Keep => a == a' + 1 && b' == b
    case Release(spawned) => a' == a && if spawned then b == b' + 1 else b' == b
    case _ => a' == a && b' == b
  }

  lemma NewHalfLive(s: seq<Point>, d: nat, depth: nat, spawned: bool, one: bool)
    ensures HalfLive(Running(NewSort(s, d, depth, spawned), spawned), one) == if spawned && (|s| == 1) == one then 1 else 0
  {
    QuietHalf(Idle, one);
  }

  lemma QuietHalf(c: Child<Sort>, one: bool)
    ensures !c.Running? || c.task.SortDone? ==> HalfLive(c, one) == 0
  {
  }

  lemma SortForkLive(cfg: Config, t: Sort, e: Event, t': Sort, s: seq<Point>, d: nat, depth: nat, isThread: bool)
    requires SortOk(t, s, d, depth, isThread) && t.SortCall? && SortOwn(cfg, t, e, t')
    requires t.pc.SortForkL? || t.pc.SortForkR?
    ensures LiveStep(SortLive(t, true), SortLive(t, false), e, SortLive(t', true), SortLive(t', false))
  {
    if t.pc.SortForkL? {
      NewHalfLive(LeftHalf(s), d, depth + 1, t'.l.spawned, true);
      NewHalfLive(LeftHalf(s), d, depth + 1, t'.l.spawned, false);
    } else if t'.r.Running? {
      NewHalfLive(RightHalf(s), d, depth + 1, t'.r.spawned, true);
      NewHalfLive(RightHalf(s), d, depth + 1, t'.r.spawned, false);
    } else {
      QuietHalf(t.l, true);
      QuietHalf(t.l, false);
    }
  }

  lemma SortOwnLive(cfg: Config, t: Sort, e: Event, t': Sort, s: seq<Point>, d: nat, depth: nat, isThread: bool)
    requires SortOk(t, s, d, depth, isThread) && t.SortCall? && SortOwn(cfg, t, e, t')
    ensures LiveStep(SortLive(t, true), SortLive(t, false), e, SortLive(t', true), SortLive(t', false))
  {
    if t.pc.SortForkL? || t.pc.SortForkR? {
      SortForkLive(cfg, t, e, t', s, d, depth, isThread);
    } else {
      QuietHalf(t.l, true);
      QuietHalf(t.l, false);
      QuietHalf(t.r, true);
      QuietHalf(t.r, false);
    }
  }

  lemma HalfChangesLive(t: Sort, e: Event, right: bool, task: Sort)
    requires t.SortCall?
    requires var was := if right then t.r else t.l;
      was.Running? && LiveStep(SortLive(was.task, true), SortLive(was.task, false), e, SortLive(task, true), SortLive(task, false))
    ensures var t' := if right then t.(r := t.r.(task := task)) else t.(l := t.l.(task := task));
      LiveStep(SortLive(t, true), SortLive(t, false), e, SortLive(t', true), SortLive(t', false))
  {
  }

  lemma {:induction false} SortStepLive(cfg: Config, t: Sort, e: Event, t': Sort, s: seq<Point>, d: nat, depth: nat,
                                        isThread: bool)
    requires SortOk(t, s, d, depth, isThread) && SortStep(cfg, t, e, t')
    ensures LiveStep(SortLive(t, true), SortLive(t, false), e, SortLive(t', true), SortLive(t', false))
    decreases t
  {
    if SortOwn(cfg, t, e, t') {
      SortOwnLive(cfg, t, e, t', s, d, depth, isThread);
    } else if t'.SortCall? && t' == t.(l := t'.l) && SortChildStep(cfg, t.l, e, t'.l) {
      SortStepLive(cfg, t.l.task, e, t'.l.task, LeftHalf(s), d, depth + 1, t.l.spawned);
      HalfChangesLive(t, e, false, t'.l.task);
    } else {
      SortStepLive(cfg, t.r.task, e, t'.r.task, RightHalf(s), d, depth + 1, t.r.spawned);
      HalfChangesLive(t, e, true, t'.r.task);
    }
  }

  lemma QuietCall(c: Child<Build>, one: bool)
    ensures !c.Running? || c.task.BuildDone? ==> CallLive(c, one) == 0
  {
  }

  lemma NewCallLive(c: Child<Build>, one: bool)
    requires c.Running? && c.task.BuildCall? && c.task.pc.Enter? && c.task.l.Idle? && c.task.r.Idle?
    ensures CallLive(c, one) == if c.task.spawned && (|c.task.pts| == 1) == one then 1 else 0
  {
    QuietCall(c.task.l, one);
    QuietCall(c.task.r, one);
  }

  lemma NewSortLive(s: seq<Point>, d: nat, depth: nat, one: bool)
    ensures SortLive(NewSort(s, d, depth, false), one) == 0
  {
    QuietHalf(Idle, one);
  }

  lemma BuildForkLive(cfg: Config, t: Build, e: Event, t': Build, path: Path, pts: seq<Point>, dim: nat, depth: nat,
                      isThread: bool, spawned: bool)
    requires BuildOk(cfg, t, path, pts, dim, depth, isThread, spawned) && t.BuildCall? && BuildOwn(cfg, t, e, t')
    requires t.pc.ForkL? || t.pc.ForkR?
    ensures LiveStep(BuildLive(t, true), BuildLive(t, false), e, BuildLive(t', true), BuildLive(t', false))
  {
    QuietCall(t.l, true);
    QuietCall(t.l, false);
    QuietCall(t.r, true);
    QuietCall(t.r, false);
    if t.pc.ForkL? {
      forall one ensures CallLive(t'.l, one) == if t'.l.spawned && (|t'.l.task.pts| == 1) == one then 1 else 0 {
        NewCallLive(t'.l, one);
      }
    } else if t'.r.Running? {
      forall one ensures CallLive(t'.r, one) == if t'.r.spawned && (|t'.r.task.pts| == 1) == one then 1 else 0 {
        NewCallLive(t'.r, one);
      }
    }
  }

  lemma BuildSortLive(cfg: Config, t: Build, e: Event, t': Build, path: Path, pts: seq<Point>, dim: nat, depth: nat,
                      isThread: bool, spawned: bool)
    requires BuildOk(cfg, t, path, pts, dim, depth, isThread, spawned) && t.BuildCall? && BuildOwn(cfg, t, e, t')
    requires t.pc.Enter? || t.pc.Sorting?
    ensures LiveStep(BuildLive(t, true), BuildLive(t, false), e, BuildLive(t', true), BuildLive(t', false))
  {
    if t.pc.Sorting? {
      if t'.pc.Sorting? {
        SortStepLive(cfg, t.pc.sort, e, t'.pc.sort, pts[..SampleEnd(|pts|)], dim, depth, false);
      }
    } else if |pts| >= 2 {
      NewSortLive(pts[..SampleEnd(|pts|)], dim, depth, true);
      NewSortLive(pts[..SampleEnd(|pts|)], dim, depth, false);
    }
  }

  lemma BuildOwnLive(cfg: Config, t: Build, e: Event, t': Build, path: Path, pts: seq<Point>, dim: nat, depth: nat,
                     isThread: bool, spawned: bool)
    requires BuildOk(cfg, t, path, pts, dim, depth, isThread, spawned) && t.BuildCall? && BuildOwn(cfg, t, e, t')
    ensures LiveStep(BuildLive(t, true), BuildLive(t, false), e, BuildLive(t', true), BuildLive(t', false))
  {
    match t.pc
    case ForkL(_) => BuildForkLive(cfg, t, e, t', path, pts, dim, depth, isThread, spawned);
    case ForkR(_) => BuildForkLive(cfg, t, e, t', path, pts, dim, depth, isThread, spawned);
    case Enter => BuildSortLive(cfg, t, e, t', path, pts, dim, depth, isThread, spawned);
    case Sorting(_) => BuildSortLive(cfg, t, e, t', path, pts, dim, depth, isThread, spawned);
    case _ =>
      QuietCall(t.l, true);
      QuietCall(t.l, false);
      QuietCall(t.r, true);
      QuietCall(t.r, false);
  }

  lemma CallChangesLive(t: Build, e: Event, right: bool, task: Build)
    requires t.BuildCall?
    requires var was := if right then t.r else t.l;
      was.Running? && LiveStep(BuildLive(was.task, true), BuildLive(was.task, false), e, BuildLive(task, true), BuildLive(task, false))
    ensures var t' := if right then t.(r := t.r.(task := task)) else t.(l := t.l.(task := task));
      LiveStep(BuildLive(t, true), BuildLive(t, false), e, BuildLive(t', true), BuildLive(t', false))
  {
  }

  lemma {:induction false} BuildStepLive(cfg: Config, t: Build, e: Event, t': Build, path: Path, pts: seq<Point>, dim: nat,
                                         depth: nat, isThread: bool, spawned: bool)
    requires BuildOk(cfg, t, path, pts, dim, depth, isThread, spawned) && BuildStep(cfg, t, e, t')
    ensures LiveStep(BuildLive(t, true), BuildLive(t, false), e, BuildLive(t', true), BuildLive(t', false))
    decreases t
  {
    if BuildOwn(cfg, t, e, t') {
      BuildOwnLive(cfg, t, e, t', path, pts, dim, depth, isThread, spawned);
    } else {
      BuildChildrenOk(cfg, t, path, pts, dim, depth, isThread, spawned);
      var next := NextDim(dim, cfg.dims);
      if t'.BuildCall? && t' == t.(l := t'.l) && BuildChildStep(cfg, t.l, e, t'.l) {
        BuildStepLive(cfg, t.l.task, e, t'.l.task, path + [false], LeftPart(pts, dim), next, depth + 1, t.l.spawned, t.l.spawned);
        CallChangesLive(t, e, false, t'.l.task);
      } else {
        BuildStepLive(cfg, t.r.task, e, t'.r.task, path + [true], RightPart(pts, dim), next, depth + 1, t.r.spawned, t.r.spawned);
        CallChangesLive(t, e, true, t'.r.task);
      }
    }
  }

  lemma NewRootTaskLive(cfg: Config, t: Main, right: bool, m: real, spawned: bool, one: bool)
    ensures var task := RootTask(cfg, t, right, m, spawned);
      CallLive(Running(task, spawned), one) == if spawned && (|task.pts| == 1) == one then 1 else 0
  {
    NewCallLive(Running(RootTask(cfg, t, right, m, spawned), spawned), one);
  }

  lemma MainOwnLive(cfg: Config, t: Main, e: Event, t': Main)
    requires MainOk(cfg, t) && MainOwn(cfg, t, e, t')
    ensures LiveStep(MainLive(t, true), MainLive(t, false), e, MainLive(t', true), MainLive(t', false))
  {
    QuietCall(t.l, true);
    QuietCall(t.l, false);
    QuietCall(t.r, true);
    QuietCall(t.r, false);
    if t.pc.RootEnter? {
      forall one ensures SortLive(NewSort(t.pts[..|t.pts| / 4], 0, 0, false), one) == 0 {
        NewSortLive(t.pts[..|t.pts| / 4], 0, 0, one);
      }
    } else if t.pc.RootSort? {
      if t'.pc.RootSort? {
        SortStepLive(cfg, t.pc.sort, e, t'.pc.sort, t.pts[..|t.pts| / 4], 0, 0, false);
      }
    } else if t'.l.Running? || t'.r.Running? {
      MainForkLive(cfg, t, e, t');
    }
  }

  lemma MainForkLive(cfg: Config, t: Main, e: Event, t': Main)
    requires MainOk(cfg, t) && MainOwn(cfg, t, e, t') && !t.pc.RootEnter? && !t.pc.RootSort?
    ensures LiveStep(MainLive(t, true), MainLive(t, false), e, MainLive(t', true), MainLive(t', false))
  {
    QuietCall(t.l, true);
    QuietCall(t.l, false);
    QuietCall(t.r, true);
    QuietCall(t.r, false);
    if t.l.Idle? && t'.l.Running? {
      var m := if t.pc.AskL? then t.pc.median else if t.pc.RunL? then t.pc.median else 0.0;
      NewRootTaskLive(cfg, t, false, m, t'.l.spawned, true);
      NewRootTaskLive(cfg, t, false, m, t'.l.spawned, false);
    }
    if t.r.Idle? && t'.r.Running? {
      var m := if t.pc.AskR? then t.pc.median else if t.pc.RunR? then t.pc.median else 0.0;
      NewRootTaskLive(cfg, t, true, m, t'.r.spawned, true);
      NewRootTaskLive(cfg, t, true, m, t'.r.spawned, false);
    }
  }

  lemma RootTaskLive(cfg: Config, c: Child<Build>, e: Event, c': Child<Build>, pts: seq<Point>, right: bool, m: real)
    requires cfg.dims >= 1 && RootChildOk(cfg, c, pts, right, m) && BuildChildStep(cfg, c, e, c')
    ensures LiveStep(CallLive(c, true), CallLive(c, false), e, CallLive(c', true), CallLive(c', false))
  {
    BuildStepLive(cfg, c.task, e, c'.task, [right], if right then Upper(pts, 0, m) else Lower(pts, 0, m),
                  NextDim(0, cfg.dims), 1, true, c.spawned);
  }

  lemma MainStepLive(cfg: Config, t: Main, e: Event, t': Main)
    requires MainOk(cfg, t) && MainStep(cfg, t, e, t')
    ensures LiveStep(MainLive(t, true), MainLive(t, false), e, MainLive(t', true), MainLive(t', false))
  {
    if MainOwn(cfg, t, e, t') {
      MainOwnLive(cfg, t, e, t');
    } else if t' == t.(l := t'.l) && BuildChildStep(cfg, t.l, e, t'.l) {
      RootTaskLive(cfg, t.l, e, t'.l, t.pts, false, t.pc.median);
    } else {
      RootTaskLive(cfg, t.r, e, t'.r, t.pts, true, t.pc.median);
    }
  }
}
