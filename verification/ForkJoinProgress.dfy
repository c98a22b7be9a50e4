/** No interleaving of the build blocks or goes on for ever: some thread can always take a step until
    make_tree returns, and every step uses up some of a finite amount of work. */
module ForkJoinProgress {
  import opened Points
  import opened StableSort
  import opened KdTree
  import opened ForkJoin
  import opened ForkJoinState

  /** The counter lets this event happen now. */
  predicate Fits(cfg: Config, e: Event, count: nat) {
    match e
    case Grant => count < cfg.limit
    case Refuse => count >= cfg.limit
    case _ => true
  }

  /** The answer a caller at this depth gets. */
  function Answer(cfg: Config, depth: nat, count: nat): (r: (Event, bool))
    ensures Asks(cfg, depth, r.0, r.1) && Fits(cfg, r.0, count)
  {
    if depth >= cfg.forkDepth then (Tau, false) else if count < cfg.limit then (Grant, true) else (Refuse, false)
  }

  // ---- Some step is always possible ----

  lemma {:induction false} SortCanStep(cfg: Config, t: Sort, s: seq<Point>, d: nat, depth: nat, isThread: bool,
                                       count: nat) returns (e: Event, t': Sort)
    requires SortOk(t, s, d, depth, isThread) && t.SortCall?
    ensures SortStep(cfg, t, e, t') && Fits(cfg, e, count)
    decreases t
  {
    var (ask, spawned) := Answer(cfg, depth, count);
    match t.pc
    case SortEnter =>
      if |s| == 1 {
        e, t' := if isThread then Keep else Tau, SortDone([s[0]]);
      } else {
        e, t' := Tau, t.(pc := SortForkL);
      }
    case SortForkL =>
      e, t' := ask, t.(pc := SortForkR, l := Running(NewSort(LeftHalf(s), d, depth + 1, spawned), spawned));
    case SortForkR =>
      if Inline(t.l) {
        e, t' := SortChildCanStep(cfg, t, LeftHalf(s), d, depth, count, false);
      } else {
        e, t' := ask, t.(pc := SortJoin, r := Running(NewSort(RightHalf(s), d, depth + 1, spawned), spawned));
      }
    case SortJoin =>
      if Inline(t.r) || (t.l.Joined? && t.r.Running?) {
        e, t' := SortChildCanStep(cfg, t, RightHalf(s), d, depth, count, true);
      } else if t.l.Running? {
        e, t' := SortChildCanStep(cfg, t, LeftHalf(s), d, depth, count, false);
      } else {
        e, t' := Tau, t.(pc := SortExit(Merge(t.l.task.out, t.r.task.out, d)));
      }
    case SortExit(out) =>
      e, t' := if isThread then Release(true) else Tau, SortDone(out);
  }

  /** A caller waiting for a child: the child can step, or it has returned and the caller goes on. */
  lemma {:induction false} SortChildCanStep(cfg: Config, t: Sort, half: seq<Point>, d: nat, depth: nat, count: nat, right: bool)
    returns (e: Event, t': Sort)
    requires t.SortCall? && (t.pc.SortForkR? || t.pc.SortJoin?)
    requires var c := if right then t.r else t.l; c.Running? && SortChildOk(c, half, d, depth + 1)
    requires t.pc.SortForkR? ==> !right && Inline(t.l)
    requires t.pc.SortJoin? ==> if right then Inline(t.r) || t.l.Joined? else !Inline(t.r)
    ensures SortStep(cfg, t, e, t') && Fits(cfg, e, count)
    decreases t, 0
  {
    var c := if right then t.r else t.l;
    var c';
    if c.task.SortDone? {
      e, c' := if c.spawned then Join else Tau, Joined(c.task);
      if !right && t.pc.SortJoin? {
        e := Join;
      }
    } else {
      var task;
      e, task := SortCanStep(cfg, c.task, half, d, depth + 1, c.spawned, count);
      c' := Running(task, c.spawned);
    }
    t' := if right then t.(r := c') else t.(l := c');
  }

  // ---- Work left ----

  /** An upper bound on the steps a sort still has to take: 8n - 7 in all. */
  function SortWork(t: Sort): nat
    decreases t
  {
    match t
    case SortDone(_) => 0
    case SortCall(s, _, _, _, pc, l, r) =>
      match pc
      case SortEnter => NewSortWork(|s|)
      case SortForkL => 6 + NewSortWork(|LeftHalf(s)|) + NewSortWork(|RightHalf(s)|)
      case SortForkR => 4 + NewSortWork(|RightHalf(s)|) + SortChildWork(l)
      case SortJoin => 2 + SortChildWork(l) + SortChildWork(r)
      case SortExit(_) => 1
  }

  function NewSortWork(n: nat): nat {
    if n == 0 then 0 else 8 * n - 7
  }

  function SortChildWork(c: Child<Sort>): nat
    decreases c
  {
    if c.Running? then 1 + SortWork(c.task) else 0
  }

  lemma SortOwnWork(cfg: Config, t: Sort, e: Event, t': Sort, s: seq<Point>, d: nat, depth: nat, isThread: bool)
    requires SortOk(t, s, d, depth, isThread) && t.SortCall? && SortOwn(cfg, t, e, t')
    ensures SortWork(t') < SortWork(t)
  {
    match t.pc
    case SortForkL => assert SortChildWork(t'.l) == 1 + NewSortWork(|LeftHalf(s)|);
    case SortForkR =>
      if t'.r.Running? {
        assert SortChildWork(t'.r) == 1 + NewSortWork(|RightHalf(s)|);
      }
    case _ =>
  }

  lemma {:induction false} SortWorkShrinks(cfg: Config, t: Sort, e: Event, t': Sort, s: seq<Point>, d: nat, depth: nat,
                                           isThread: bool)
    requires SortOk(t, s, d, depth, isThread) && SortStep(cfg, t, e, t')
    ensures SortWork(t') < SortWork(t)
    decreases t
  {
    if SortOwn(cfg, t, e, t') {
      SortOwnWork(cfg, t, e, t', s, d, depth, isThread);
    } else if t'.SortCall? && t' == t.(l := t'.l) && SortChildStep(cfg, t.l, e, t'.l) {
      SortWorkShrinks(cfg, t.l.task, e, t'.l.task, LeftHalf(s), d, depth + 1, t.l.spawned);
    } else {
      SortWorkShrinks(cfg, t.r.task, e, t'.r.task, RightHalf(s), d, depth + 1, t.r.spawned);
    }
  }

  lemma {:induction false} BuildCanStep(cfg: Config, t: Build, path: Path, pts: seq<Point>, dim: nat, depth: nat,
                                        isThread: bool, spawned: bool, count: nat) returns (e: Event, t': Build)
    requires BuildOk(cfg, t, path, pts, dim, depth, isThread, spawned) && t.BuildCall?
    ensures BuildStep(cfg, t, e, t') && Fits(cfg, e, count)
    decreases t
  {
    var (ask, grant) := Answer(cfg, depth, count);
    var next := NextDim(dim, cfg.dims);
    match t.pc
    case Enter =>
      if |pts| == 0 {
        e, t' := Tau, t.(pc := Exit);
      } else if |pts| == 1 {
        e, t' := Write(path, LeafCell(dim, pts[0])), t.(pc := LeafReturn);
      } else {
        e, t' := Tau, t.(pc := Sorting(NewSort(pts[..SampleEnd(|pts|)], dim, depth, false)));
      }
    case LeafReturn =>
      e, t' := if spawned then Keep else Tau, BuildDone;
    case Sorting(sort) =>
      var sample := pts[..SampleEnd(|pts|)];
      if sort.SortDone? {
        MergeSortIsStable(sample, dim);
        var m := Median(sort.out, dim);
        e, t' := Write(path, SplitCell(dim, m, |sort.out|)), t.(pc := ForkL(m));
      } else {
        var sort';
        e, sort' := SortCanStep(cfg, sort, sample, dim, depth, false, count);
        t' := t.(pc := Sorting(sort'));
      }
    case ForkL(m) =>
      e, t' := ask, t.(pc := ForkR(m), l := Running(
        NewBuild(path + [false], LeftPart(pts, dim), next, depth + 1, grant, grant), grant));
    case ForkR(m) =>
      if Inline(t.l) {
        e, t' := BuildChildCanStep(cfg, t, path, pts, dim, depth, count, false);
      } else {
        e, t' := ask, t.(pc := Joining, r := Running(
          NewBuild(path + [true], RightPart(pts, dim), next, depth + 1, grant, grant), grant));
      }
    case Joining =>
      if Inline(t.r) || (t.l.Joined? && t.r.Running?) {
        e, t' := BuildChildCanStep(cfg, t, path, pts, dim, depth, count, true);
      } else if t.l.Running? {
        e, t' := BuildChildCanStep(cfg, t, path, pts, dim, depth, count, false);
      } else {
        e, t' := Tau, t.(pc := Exit);
      }
    case Exit =>
      e, t' := if isThread then Release(spawned) else Tau, BuildDone;
  }

  lemma {:induction false} BuildChildCanStep(cfg: Config, t: Build, path: Path, pts: seq<Point>, dim: nat, depth: nat,
                                             count: nat, right: bool) returns (e: Event, t': Build)
    requires t.BuildCall? && (t.pc.ForkR? || t.pc.Joining?) && |pts| >= 2
    requires if right then RightOk(cfg, t.r, path, pts, dim, depth) else LeftOk(cfg, t.l, path, pts, dim, depth)
    requires if right then t.r.Running? else t.l.Running?
    requires t.pc.ForkR? ==> !right && Inline(t.l)
    requires t.pc.Joining? ==> if right then Inline(t.r) || t.l.Joined? else !Inline(t.r)
    ensures BuildStep(cfg, t, e, t') && Fits(cfg, e, count)
    decreases t, 0
  {
    var c := if right then t.r else t.l;
    var c';
    if c.task.BuildDone? {
      e := if c.spawned || (!right && t.pc.Joining?) then Join else Tau;
      c' := Joined(c.task);
    } else {
      var task;
      var part := if right then RightPart(pts, dim) else LeftPart(pts, dim);
      e, task := BuildCanStep(cfg, c.task, path + [right], part, NextDim(dim, cfg.dims), depth + 1,
                              c.spawned, c.spawned, count);
      c' := Running(task, c.spawned);
    }
    t' := if right then t.(r := c') else t.(l := c');
  }

  lemma RootChildCanStep(cfg: Config, c: Child<Build>, pts: seq<Point>, right: bool, m: real, count: nat)
    returns (e: Event, c': Child<Build>)
    requires cfg.dims >= 1 && RootChildOk(cfg, c, pts, right, m) && c.Running? && c.task.BuildCall?
    ensures BuildChildStep(cfg, c, e, c') && Fits(cfg, e, count)
  {
    var task;
    e, task := BuildCanStep(cfg, c.task, [right], if right then Upper(pts, 0, m) else Lower(pts, 0, m),
                            NextDim(0, cfg.dims), 1, true, c.spawned, count);
    c' := Running(task, c.spawned);
  }

  /** The build never blocks: until make_tree has returned, some thread can take a step. */
  lemma NoDeadlock(cfg: Config, w: World) returns (e: Event, w': World)
    requires MainOk(cfg, w.main) && !w.main.pc.Returned?
    ensures WorldStep(cfg, w, e, w')
  {
    var t := w.main;
    var t';
    match t.pc {
      case RootEnter =>
        if |t.pts| == 1 {
          e, t' := Write([], LeafCell(0, t.pts[0])), t.(pc := Returned);
        } else {
          e, t' := Tau, t.(pc := RootSort(NewSort(t.pts[..|t.pts| / 4], 0, 0, false)));
        }
      case RootSort(sort) =>
        var sample := t.pts[..|t.pts| / 4];
        if sort.SortDone? {
          MergeSortIsStable(sample, 0);
          var m := Median(sort.out, 0);
          e, t' := Write([], SplitCell(0, m, |t.pts|)), t.(pc := AskL(m));
        } else {
          var sort';
          e, sort' := SortCanStep(cfg, sort, sample, 0, 0, false, w.count);
          t' := t.(pc := RootSort(sort'));
        }
      case AskL(m) =>
        if w.count < cfg.limit {
          e, t' := Grant, t.(pc := AskR(m), l := Running(RootTask(cfg, t, false, m, true), true));
        } else {
          e, t' := Refuse, t.(pc := AskR(m));
        }
      case AskR(m) =>
        if w.count < cfg.limit {
          e, t' := Grant, t.(pc := RunL(m), r := Running(RootTask(cfg, t, true, m, true), true));
        } else {
          e, t' := Refuse, t.(pc := RunL(m));
        }
      case RunL(m) =>
        if t.l.Idle? {
          e, t' := Tau, t.(l := Running(RootTask(cfg, t, false, m, false), false));
        } else if t.l.task.BuildDone? {
          e, t' := if t.l.spawned then Join else Tau, t.(pc := RunR(m), l := Joined(t.l.task));
        } else {
          var c';
          e, c' := RootChildCanStep(cfg, t.l, t.pts, false, m, w.count);
          t' := t.(l := c');
        }
      case RunR(m) =>
        if t.r.Idle? {
          e, t' := Tau, t.(r := Running(RootTask(cfg, t, true, m, false), false));
        } else if t.r.task.BuildDone? {
          e, t' := if t.r.spawned then Join else Tau, t.(pc := Returned, r := Joined(t.r.task));
        } else {
          var c';
          e, c' := RootChildCanStep(cfg, t.r, t.pts, true, m, w.count);
          t' := t.(r := c');
        }
    }
    w' := Effect(w, e).(main := t');
  }

  /** Steps to build a tree: 2 for each empty slot and leaf, 8e + 1 for a split that sorts e points. */
  function TreeWork(t: Tree): nat {
    if t.Split? then 8 * t.numPts + 1 + TreeWork(t.left) + TreeWork(t.right) else 2
  }

  ghost function BuildWork(cfg: Config, t: Build, pts: seq<Point>, dim: nat): nat
    requires dim < cfg.dims && Splits(pts, dim, cfg.dims)
    decreases t
  {
    match t
    case BuildDone => 0
    case BuildCall(_, _, _, _, _, _, pc, l, r) =>
      if |pts| < 2 then (if pc.Enter? then 2 else 1)
      else
        var next := NextDim(dim, cfg.dims);
        var cl, cr := TreeWork(BuildTree(LeftPart(pts, dim), next, cfg.dims)), TreeWork(BuildTree(RightPart(pts, dim), next, cfg.dims));
        match pc
        case Enter => 8 * SampleEnd(|pts|) + 1 + cl + cr
        case LeafReturn => 0
        case Sorting(sort) => SortWork(sort) + 7 + cl + cr
        case ForkL(_) => 6 + cl + cr
        case ForkR(_) => 4 + cr + ChildWork(cfg, l, LeftPart(pts, dim), next)
        case Joining => 2 + ChildWork(cfg, l, LeftPart(pts, dim), next) + ChildWork(cfg, r, RightPart(pts, dim), next)
        case Exit => 1
  }

  ghost function ChildWork(cfg: Config, c: Child<Build>, pts: seq<Point>, dim: nat): nat
    requires dim < cfg.dims && Splits(pts, dim, cfg.dims)
    decreases c
  {
    if c.Running? then 1 + BuildWork(cfg, c.task, pts, dim) else 0
  }

  lemma NewBuildWork(cfg: Config, c: Child<Build>, pts: seq<Point>, dim: nat)
    requires dim < cfg.dims && Splits(pts, dim, cfg.dims) && c.Running? && c.task.BuildCall? && c.task.pc.Enter?
    ensures ChildWork(cfg, c, pts, dim) == 1 + TreeWork(BuildTree(pts, dim, cfg.dims))
  {
  }

  lemma BeforeForkWork(cfg: Config, t: Build, e: Event, t': Build, path: Path, pts: seq<Point>, dim: nat, depth: nat,
                     isThread: bool, spawned: bool)
    requires BuildOk(cfg, t, path, pts, dim, depth, isThread, spawned) && t.BuildCall? && BuildOwn(cfg, t, e, t')
    requires t.pc.Enter? || t.pc.LeafReturn? || t.pc.Sorting?
    ensures BuildWork(cfg, t', pts, dim) < BuildWork(cfg, t, pts, dim)
  {
    if t.pc.Enter? && |pts| >= 2 {
      assert SortWork(t'.pc.sort) == NewSortWork(SampleEnd(|pts|));
    } else if t.pc.Sorting? && t'.pc.Sorting? {
      SortWorkShrinks(cfg, t.pc.sort, e, t'.pc.sort, pts[..SampleEnd(|pts|)], dim, depth, false);
    }
  }

  lemma ForkWork(cfg: Config, t: Build, e: Event, t': Build, path: Path, pts: seq<Point>, dim: nat, depth: nat,
                     isThread: bool, spawned: bool)
    requires BuildOk(cfg, t, path, pts, dim, depth, isThread, spawned) && t.BuildCall? && BuildOwn(cfg, t, e, t')
    requires t.pc.ForkL? || t.pc.ForkR?
    ensures BuildWork(cfg, t', pts, dim) < BuildWork(cfg, t, pts, dim)
  {
    var next := NextDim(dim, cfg.dims);
    if t.pc.ForkL? {
      NewBuildWork(cfg, t'.l, LeftPart(pts, dim), next);
    } else if t'.r.Running? {
      NewBuildWork(cfg, t'.r, RightPart(pts, dim), next);
    }
  }

  lemma BuildOwnWork(cfg: Config, t: Build, e: Event, t': Build, path: Path, pts: seq<Point>, dim: nat, depth: nat,
                     isThread: bool, spawned: bool)
    requires BuildOk(cfg, t, path, pts, dim, depth, isThread, spawned) && t.BuildCall? && BuildOwn(cfg, t, e, t')
    ensures BuildWork(cfg, t', pts, dim) < BuildWork(cfg, t, pts, dim)
  {
    match t.pc
    case ForkL(_) => ForkWork(cfg, t, e, t', path, pts, dim, depth, isThread, spawned);
    case ForkR(_) => ForkWork(cfg, t, e, t', path, pts, dim, depth, isThread, spawned);
    case Joining =>
    case Exit =>
    case _ => BeforeForkWork(cfg, t, e, t', path, pts, dim, depth, isThread, spawned);
  }

  lemma {:induction false} BuildWorkShrinks(cfg: Config, t: Build, e: Event, t': Build, path: Path, pts: seq<Point>,
                                            dim: nat, depth: nat, isThread: bool, spawned: bool)
    requires BuildOk(cfg, t, path, pts, dim, depth, isThread, spawned) && BuildStep(cfg, t, e, t')
    ensures BuildWork(cfg, t', pts, dim) < BuildWork(cfg, t, pts, dim)
    decreases t
  {
    if BuildOwn(cfg, t, e, t') {
      BuildOwnWork(cfg, t, e, t', path, pts, dim, depth, isThread, spawned);
    } else if t'.BuildCall? && t' == t.(l := t'.l) && BuildChildStep(cfg, t.l, e, t'.l) {
      BuildWorkShrinks(cfg, t.l.task, e, t'.l.task, path + [false], LeftPart(pts, dim), NextDim(dim, cfg.dims),
                       depth + 1, t.l.spawned, t.l.spawned);
    } else {
      BuildWorkShrinks(cfg, t.r.task, e, t'.r.task, path + [true], RightPart(pts, dim), NextDim(dim, cfg.dims),
                       depth + 1, t.r.spawned, t.r.spawned);
    }
  }

  ghost function RootChildWork(cfg: Config, c: Child<Build>, pts: seq<Point>, dim: nat): nat
    requires dim < cfg.dims && Splits(pts, dim, cfg.dims)
  {
    if c.Idle? then 2 + TreeWork(BuildTree(pts, dim, cfg.dims)) else ChildWork(cfg, c, pts, dim)
  }

  /** Steps left until make_tree returns. */
  ghost function MainWork(cfg: Config, t: Main): nat
    requires MainOk(cfg, t)
  {
    if |t.pts| == 1 then (if t.pc.RootEnter? then 1 else 0)
    else
      var m := SampleMedian(t.pts, |t.pts| / 4, 0);
      var next := NextDim(0, cfg.dims);
      var children := RootChildWork(cfg, t.l, Lower(t.pts, 0, m), next) + RootChildWork(cfg, t.r, Upper(t.pts, 0, m), next);
      match t.pc
      case RootEnter => 8 * (|t.pts| / 4) - 3 + children
      case RootSort(sort) => SortWork(sort) + 3 + children
      case AskL(_) => 2 + children
      case AskR(_) => 1 + children
      case _ => children
  }

  lemma MainOwnWork(cfg: Config, t: Main, e: Event, t': Main)
    requires MainOk(cfg, t) && MainOwn(cfg, t, e, t') && MainOk(cfg, t') && |t.pts| != 1
    ensures MainWork(cfg, t') < MainWork(cfg, t)
  {
    if t.pc.RootEnter? {
      assert SortWork(t'.pc.sort) == NewSortWork(|t.pts| / 4);
    } else if t.pc.RootSort? {
      if t'.pc.RootSort? {
        SortWorkShrinks(cfg, t.pc.sort, e, t'.pc.sort, t.pts[..|t.pts| / 4], 0, 0, false);
      }
    } else {
      var m := SampleMedian(t.pts, |t.pts| / 4, 0);
      RootChildBegins(cfg, t.l, t'.l, Lower(t.pts, 0, m), NextDim(0, cfg.dims));
      RootChildBegins(cfg, t.r, t'.r, Upper(t.pts, 0, m), NextDim(0, cfg.dims));
    }
  }

  lemma MainWorkShrinks(cfg: Config, t: Main, e: Event, t': Main)
    requires MainOk(cfg, t) && MainStep(cfg, t, e, t') && MainOk(cfg, t')
    ensures MainWork(cfg, t') < MainWork(cfg, t)
  {
    if MainOwn(cfg, t, e, t') {
      if |t.pts| != 1 {
        MainOwnWork(cfg, t, e, t');
      }
    } else {
      var m := SampleMedian(t.pts, |t.pts| / 4, 0);
      var next := NextDim(0, cfg.dims);
      if t' == t.(l := t'.l) && BuildChildStep(cfg, t.l, e, t'.l) {
        BuildWorkShrinks(cfg, t.l.task, e, t'.l.task, [false], Lower(t.pts, 0, m), next, 1, true, t.l.spawned);
      } else {
        BuildWorkShrinks(cfg, t.r.task, e, t'.r.task, [true], Upper(t.pts, 0, m), next, 1, true, t.r.spawned);
      }
    }
  }

  lemma RootChildBegins(cfg: Config, c: Child<Build>, c': Child<Build>, pts: seq<Point>, dim: nat)
    requires dim < cfg.dims && Splits(pts, dim, cfg.dims)
    ensures c.Idle? && c'.Running? && c'.task.BuildCall? && c'.task.pc.Enter? ==>
      RootChildWork(cfg, c', pts, dim) < RootChildWork(cfg, c, pts, dim)
    ensures c.Running? && c'.Joined? ==> RootChildWork(cfg, c', pts, dim) < RootChildWork(cfg, c, pts, dim)
  {
    if c'.Running? && c'.task.BuildCall? && c'.task.pc.Enter? {
      NewBuildWork(cfg, c', pts, dim);
    }
  }
}
