/** The shared tree over every interleaving: at any time it is a part of the sequential kd-tree, and
    when make_tree returns it is all of it. */
module ForkJoinHeap {
  import opened Points
  import opened StableSort
  import opened KdTree
  import opened ForkJoin
  import opened ForkJoinState

  /** The nodes of a tree hanging from the slot at path. */
  function Nodes(t: Tree, path: Path): map<Path, Cell>
    decreases t
  {
    match t
    case Empty => map[]
    case Leaf(d, p) => map[path := LeafCell(d, p)]
    case Split(d, m, n, l, r) => Joint(path, SplitCell(d, m, n), Nodes(l, path + [false]), Nodes(r, path + [true]))
  }

  function Joint(path: Path, c: Cell, l: map<Path, Cell>, r: map<Path, Cell>): map<Path, Cell> {
    map[path := c] + l + r
  }

  predicate Below(path: Path, m: map<Path, Cell>) {
    forall k :: k in m ==> path <= k
  }

  predicate PartOf(a: map<Path, Cell>, b: map<Path, Cell>) {
    forall k :: k in a ==> k in b && a[k] == b[k]
  }

  function Written(e: Event): map<Path, Cell> {
    if e.Write? then map[e.path := e.cell] else map[]
  }

  function InnerCell(pts: seq<Point>, dim: nat): Cell
    requires |pts| >= 2
  {
    SplitCell(dim, SampleMedian(pts, SampleEnd(|pts|), dim), SampleEnd(|pts|))
  }

  /** What a call populate_nodes(pts) for the slot at path has written so far. */
  ghost function Owned(cfg: Config, t: Build, path: Path, pts: seq<Point>, dim: nat): map<Path, Cell>
    requires dim < cfg.dims && Splits(pts, dim, cfg.dims)
    decreases t
  {
    match t
    case BuildDone => Nodes(BuildTree(pts, dim, cfg.dims), path)
    case BuildCall(_, _, _, _, _, _, pc, l, r) =>
      if pc.Enter? || pc.Sorting? then map[]
      else if |pts| < 2 then Nodes(BuildTree(pts, dim, cfg.dims), path)
      else
        var next := NextDim(dim, cfg.dims);
        Joint(path, InnerCell(pts, dim), OwnedChild(cfg, l, path + [false], LeftPart(pts, dim), next),
              OwnedChild(cfg, r, path + [true], RightPart(pts, dim), next))
  }

  ghost function OwnedChild(cfg: Config, c: Child<Build>, path: Path, pts: seq<Point>, dim: nat): map<Path, Cell>
    requires dim < cfg.dims && Splits(pts, dim, cfg.dims)
    decreases c
  {
    match c
    case Idle => map[]
    case Running(task, _) => Owned(cfg, task, path, pts, dim)
    case Joined(_) => Nodes(BuildTree(pts, dim, cfg.dims), path)
  }

  // ---- Slots of different calls are different ----

  lemma SlotsApart(path: Path, k: Path, right: bool)
    requires path + [right] <= k
    ensures path <= k && path != k && !(path + [!right] <= k)
  {
    assert k[|path|] == right;
    assert path == (path + [right])[..|path|] <= k;
  }

  lemma JointKeys(path: Path, c: Cell, l: map<Path, Cell>, r: map<Path, Cell>)
    requires Below(path + [false], l) && Below(path + [true], r)
    ensures Below(path, Joint(path, c, l, r)) && path in Joint(path, c, l, r) && Joint(path, c, l, r)[path] == c
    ensures PartOf(l, Joint(path, c, l, r)) && PartOf(r, Joint(path, c, l, r))
  {
    forall k | k in l ensures path <= k && k !in r && k != path {
      SlotsApart(path, k, false);
    }
    forall k | k in r ensures path <= k && k != path {
      SlotsApart(path, k, true);
    }
  }

  lemma {:induction false} NodesBelow(t: Tree, path: Path)
    ensures Below(path, Nodes(t, path))
    decreases t
  {
    if t.Split? {
      NodesBelow(t.left, path + [false]);
      NodesBelow(t.right, path + [true]);
      JointKeys(path, SplitCell(t.dim, t.median, t.numPts), Nodes(t.left, path + [false]), Nodes(t.right, path + [true]));
    }
  }

  lemma {:induction false} OwnedPart(cfg: Config, t: Build, path: Path, pts: seq<Point>, dim: nat, depth: nat,
                                     isThread: bool, spawned: bool)
    requires BuildOk(cfg, t, path, pts, dim, depth, isThread, spawned)
    ensures PartOf(Owned(cfg, t, path, pts, dim), Nodes(BuildTree(pts, dim, cfg.dims), path))
    ensures Below(path, Owned(cfg, t, path, pts, dim))
    decreases t
  {
    NodesBelow(BuildTree(pts, dim, cfg.dims), path);
    if t.BuildCall? && !t.pc.Enter? && !t.pc.Sorting? && |pts| >= 2 {
      var next := NextDim(dim, cfg.dims);
      OwnedChildPart(cfg, t.l, path + [false], LeftPart(pts, dim), next, depth + 1, t.l.Running? && t.l.spawned);
      OwnedChildPart(cfg, t.r, path + [true], RightPart(pts, dim), next, depth + 1, t.r.Running? && t.r.spawned);
      JointPart(path, InnerCell(pts, dim),
                OwnedChild(cfg, t.l, path + [false], LeftPart(pts, dim), next),
                OwnedChild(cfg, t.r, path + [true], RightPart(pts, dim), next),
                Nodes(BuildTree(LeftPart(pts, dim), next, cfg.dims), path + [false]),
                Nodes(BuildTree(RightPart(pts, dim), next, cfg.dims), path + [true]));
    }
  }

  lemma {:induction false} OwnedChildPart(cfg: Config, c: Child<Build>, path: Path, pts: seq<Point>, dim: nat,
                                          depth: nat, isThread: bool)
    requires dim < cfg.dims && Splits(pts, dim, cfg.dims)
    requires c.Running? ==> BuildOk(cfg, c.task, path, pts, dim, depth, isThread, c.spawned)
    ensures PartOf(OwnedChild(cfg, c, path, pts, dim), Nodes(BuildTree(pts, dim, cfg.dims), path))
    ensures Below(path, OwnedChild(cfg, c, path, pts, dim)) && Below(path, Nodes(BuildTree(pts, dim, cfg.dims), path))
    decreases c
  {
    NodesBelow(BuildTree(pts, dim, cfg.dims), path);
    if c.Running? {
      OwnedPart(cfg, c.task, path, pts, dim, depth, isThread, c.spawned);
    }
  }

  lemma JointPart(path: Path, c: Cell, l: map<Path, Cell>, r: map<Path, Cell>, l': map<Path, Cell>, r': map<Path, Cell>)
    requires Below(path + [false], l') && Below(path + [true], r') && PartOf(l, l') && PartOf(r, r')
    requires Below(path + [false], l) && Below(path + [true], r)
    ensures PartOf(Joint(path, c, l, r), Joint(path, c, l', r'))
    ensures Below(path, Joint(path, c, l, r))
  {
    JointKeys(path, c, l, r);
    JointKeys(path, c, l', r');
  }

  // ---- One step writes at most one slot, of the acting task, and only once ----

  /** b is a with the step's write added, to a slot below path that was still empty. */
  predicate Grows(path: Path, a: map<Path, Cell>, e: Event, b: map<Path, Cell>) {
    b == a + Written(e) && (e.Write? ==> path <= e.path && e.path !in a)
  }

  lemma GrowsLeft(path: Path, c: Cell, l: map<Path, Cell>, r: map<Path, Cell>, e: Event, l': map<Path, Cell>)
    requires Grows(path + [false], l, e, l') && Below(path + [true], r)
    ensures Grows(path, Joint(path, c, l, r), e, Joint(path, c, l', r))
  {
    if e.Write? {
      SlotsApart(path, e.path, false);
    }
    assert Joint(path, c, l', r) == Joint(path, c, l, r) + Written(e);
  }

  lemma GrowsRight(path: Path, c: Cell, l: map<Path, Cell>, r: map<Path, Cell>, e: Event, r': map<Path, Cell>)
    requires Grows(path + [true], r, e, r') && Below(path + [false], l)
    ensures Grows(path, Joint(path, c, l, r), e, Joint(path, c, l, r'))
  {
    if e.Write? {
      SlotsApart(path, e.path, true);
    }
    assert Joint(path, c, l, r') == Joint(path, c, l, r) + Written(e);
  }

  /** A call that has just begun has written nothing; one that has returned, all its nodes. */
  lemma OwnedEnds(cfg: Config, c: Child<Build>, path: Path, pts: seq<Point>, dim: nat)
    requires dim < cfg.dims && Splits(pts, dim, cfg.dims)
    ensures c.Running? && c.task.BuildDone? ==>
      OwnedChild(cfg, c, path, pts, dim) == Nodes(BuildTree(pts, dim, cfg.dims), path)
    ensures c.Running? && c.task.BuildCall? && c.task.pc.Enter? ==> OwnedChild(cfg, c, path, pts, dim) == map[]
  {
  }

  lemma FirstWrite(cfg: Config, t: Build, e: Event, t': Build, path: Path, pts: seq<Point>, dim: nat, depth: nat,
                   isThread: bool, spawned: bool)
    requires BuildOk(cfg, t, path, pts, dim, depth, isThread, spawned) && t.BuildCall? && BuildOwn(cfg, t, e, t')
    requires t.pc.Enter? || t.pc.LeafReturn? || t.pc.Sorting?
    ensures Grows(path, Owned(cfg, t, path, pts, dim), e, Owned(cfg, t', path, pts, dim))
  {
    if t.pc.Sorting? {
      if t'.pc.Sorting? {
        SortThreads(cfg, t.pc.sort, e, t'.pc.sort, pts[..SampleEnd(|pts|)], dim, depth, false);
      } else {
        MergeSortIsStable(pts[..SampleEnd(|pts|)], dim);
        assert Owned(cfg, t', path, pts, dim) == Joint(path, InnerCell(pts, dim), map[], map[]);
      }
    }
  }

  lemma OwnOwned(cfg: Config, t: Build, e: Event, t': Build, path: Path, pts: seq<Point>, dim: nat, depth: nat,
                 isThread: bool, spawned: bool)
    requires BuildOk(cfg, t, path, pts, dim, depth, isThread, spawned) && t.BuildCall? && BuildOwn(cfg, t, e, t')
    ensures Grows(path, Owned(cfg, t, path, pts, dim), e, Owned(cfg, t', path, pts, dim))
  {
    if t.pc.Enter? || t.pc.LeafReturn? || t.pc.Sorting? {
      FirstWrite(cfg, t, e, t', path, pts, dim, depth, isThread, spawned);
    } else if t.pc.Exit? {
      ExitOwned(cfg, t, e, t', path, pts, dim, depth, isThread, spawned);
    } else {
      SameChildren(cfg, t, e, t', path, pts, dim, depth, isThread, spawned);
      NothingWritten(path, Owned(cfg, t, path, pts, dim), e);
    }
  }

  lemma NothingWritten(path: Path, a: map<Path, Cell>, e: Event)
    requires !e.Write?
    ensures Grows(path, a, e, a)
  {
    assert a + map[] == a;
  }

  lemma ExitOwned(cfg: Config, t: Build, e: Event, t': Build, path: Path, pts: seq<Point>, dim: nat, depth: nat,
                  isThread: bool, spawned: bool)
    requires BuildOk(cfg, t, path, pts, dim, depth, isThread, spawned) && t.BuildCall? && BuildOwn(cfg, t, e, t')
    requires t.pc.Exit?
    ensures Grows(path, Owned(cfg, t, path, pts, dim), e, Owned(cfg, t', path, pts, dim))
  {
    NothingWritten(path, Owned(cfg, t, path, pts, dim), e);
  }

  lemma SameChild(cfg: Config, c: Child<Build>, c': Child<Build>, path: Path, pts: seq<Point>, dim: nat)
    requires dim < cfg.dims && Splits(pts, dim, cfg.dims)
    requires c == c' || (c.Idle? && c'.Running? && c'.task.BuildCall? && c'.task.pc.Enter?)
             || (c.Running? && c.task.BuildDone? && c'.Joined?)
    ensures OwnedChild(cfg, c', path, pts, dim) == OwnedChild(cfg, c, path, pts, dim)
  {
    OwnedEnds(cfg, c, path, pts, dim);
    OwnedEnds(cfg, c', path, pts, dim);
  }

  lemma SameChildren(cfg: Config, t: Build, e: Event, t': Build, path: Path, pts: seq<Point>, dim: nat, depth: nat,
                     isThread: bool, spawned: bool)
    requires BuildOk(cfg, t, path, pts, dim, depth, isThread, spawned) && t.BuildCall? && BuildOwn(cfg, t, e, t')
    requires t.pc.ForkL? || t.pc.ForkR? || t.pc.Joining?
    ensures !e.Write? && Owned(cfg, t, path, pts, dim) == Owned(cfg, t', path, pts, dim)
  {
    SameChild(cfg, t.l, t'.l, path + [false], LeftPart(pts, dim), NextDim(dim, cfg.dims));
    SameChild(cfg, t.r, t'.r, path + [true], RightPart(pts, dim), NextDim(dim, cfg.dims));
  }

  /** With a child running, a call owns its own node and what its children own. */
  lemma OwnedJoint(cfg: Config, t: Build, path: Path, pts: seq<Point>, dim: nat, depth: nat, isThread: bool, spawned: bool)
    requires BuildOk(cfg, t, path, pts, dim, depth, isThread, spawned) && t.BuildCall? && (t.l.Running? || t.r.Running?)
    ensures |pts| >= 2 && Owned(cfg, t, path, pts, dim)
         == Joint(path, InnerCell(pts, dim),
                  OwnedChild(cfg, t.l, path + [false], LeftPart(pts, dim), NextDim(dim, cfg.dims)),
                  OwnedChild(cfg, t.r, path + [true], RightPart(pts, dim), NextDim(dim, cfg.dims)))
  {
  }

  lemma ChildGrows(cfg: Config, t: Build, e: Event, t': Build, path: Path, pts: seq<Point>, dim: nat, depth: nat,
                   isThread: bool, spawned: bool, right: bool, task: Build)
    requires BuildOk(cfg, t, path, pts, dim, depth, isThread, spawned) && t.BuildCall? && |pts| >= 2
    requires BuildOk(cfg, t', path, pts, dim, depth, isThread, spawned)
    requires var c := if right then t.r else t.l;
      && c.Running? && t' == (if right then t.(r := c.(task := task)) else t.(l := c.(task := task)))
      && var (side, part) := (path + [right], if right then RightPart(pts, dim) else LeftPart(pts, dim));
         Grows(side, Owned(cfg, c.task, side, part, NextDim(dim, cfg.dims)), e,
               Owned(cfg, task, side, part, NextDim(dim, cfg.dims)))
    ensures Grows(path, Owned(cfg, t, path, pts, dim), e, Owned(cfg, t', path, pts, dim))
  {
    var next, lp, rp := NextDim(dim, cfg.dims), LeftPart(pts, dim), RightPart(pts, dim);
    OwnedJoint(cfg, t, path, pts, dim, depth, isThread, spawned);
    OwnedJoint(cfg, t', path, pts, dim, depth, isThread, spawned);
    BuildChildrenOk(cfg, t, path, pts, dim, depth, isThread, spawned);
    OwnedChildPart(cfg, t.l, path + [false], lp, next, depth + 1, t.l.Running? && t.l.spawned);
    OwnedChildPart(cfg, t.r, path + [true], rp, next, depth + 1, t.r.Running? && t.r.spawned);
    var l, r := OwnedChild(cfg, t.l, path + [false], lp, next), OwnedChild(cfg, t.r, path + [true], rp, next);
    if right {
      GrowsRight(path, InnerCell(pts, dim), l, r, e, OwnedChild(cfg, t'.r, path + [true], rp, next));
    } else {
      GrowsLeft(path, InnerCell(pts, dim), l, r, e, OwnedChild(cfg, t'.l, path + [false], lp, next));
    }
  }

  lemma {:induction false} OwnedGrows(cfg: Config, t: Build, e: Event, t': Build, path: Path, pts: seq<Point>, dim: nat,
                                      depth: nat, isThread: bool, spawned: bool)
    requires BuildOk(cfg, t, path, pts, dim, depth, isThread, spawned) && BuildStep(cfg, t, e, t')
    ensures Grows(path, Owned(cfg, t, path, pts, dim), e, Owned(cfg, t', path, pts, dim))
    decreases t
  {
    if BuildOwn(cfg, t, e, t') {
      OwnOwned(cfg, t, e, t', path, pts, dim, depth, isThread, spawned);
    } else {
      BuildPreserved(cfg, t, e, t', path, pts, dim, depth, isThread, spawned);
      BuildChildrenOk(cfg, t, path, pts, dim, depth, isThread, spawned);
      var next := NextDim(dim, cfg.dims);
      if t'.BuildCall? && t' == t.(l := t'.l) && BuildChildStep(cfg, t.l, e, t'.l) {
        OwnedGrows(cfg, t.l.task, e, t'.l.task, path + [false], LeftPart(pts, dim), next, depth + 1, t.l.spawned, t.l.spawned);
        ChildGrows(cfg, t, e, t', path, pts, dim, depth, isThread, spawned, false, t'.l.task);
      } else {
        OwnedGrows(cfg, t.r.task, e, t'.r.task, path + [true], RightPart(pts, dim), next, depth + 1, t.r.spawned, t.r.spawned);
        ChildGrows(cfg, t, e, t', path, pts, dim, depth, isThread, spawned, true, t'.r.task);
      }
    }
  }

  // ---- make_tree ----

  function RootCell(pts: seq<Point>): Cell
    requires |pts| >= 4
  {
    SplitCell(0, SampleMedian(pts, |pts| / 4, 0), |pts|)
  }

  /** What make_tree and everything it has called have written so far. */
  ghost function Heap(cfg: Config, t: Main): map<Path, Cell>
    requires MainOk(cfg, t)
  {
    if t.pc.RootEnter? || t.pc.RootSort? then map[]
    else if |t.pts| == 1 then Nodes(BuildRoot(t.pts, cfg.dims), [])
    else
      var m := SampleMedian(t.pts, |t.pts| / 4, 0);
      var next := NextDim(0, cfg.dims);
      Joint([], RootCell(t.pts), OwnedChild(cfg, t.l, [false], Lower(t.pts, 0, m), next),
            OwnedChild(cfg, t.r, [true], Upper(t.pts, 0, m), next))
  }

  lemma RootChildrenPart(cfg: Config, t: Main)
    requires MainOk(cfg, t) && |t.pts| >= 4 && !t.pc.RootEnter? && !t.pc.RootSort?
    ensures var m := SampleMedian(t.pts, |t.pts| / 4, 0);
      var next := NextDim(0, cfg.dims);
      && Below([false], OwnedChild(cfg, t.l, [false], Lower(t.pts, 0, m), next))
      && Below([true], OwnedChild(cfg, t.r, [true], Upper(t.pts, 0, m), next))
      && PartOf(Heap(cfg, t), Nodes(BuildRoot(t.pts, cfg.dims), []))
  {
    var m := SampleMedian(t.pts, |t.pts| / 4, 0);
    var next := NextDim(0, cfg.dims);
    var lp, rp := Lower(t.pts, 0, m), Upper(t.pts, 0, m);
    if t.pc.AskR? && t.l.Running? {
      NewBuildOk(cfg, [false], lp, next, 1, true, true);
    }
    OwnedChildPart(cfg, t.l, [false], lp, next, 1, true);
    OwnedChildPart(cfg, t.r, [true], rp, next, 1, true);
    assert [] + [false] == [false] && [] + [true] == [true];
    JointPart([], RootCell(t.pts), OwnedChild(cfg, t.l, [false], lp, next), OwnedChild(cfg, t.r, [true], rp, next),
              Nodes(BuildTree(lp, next, cfg.dims), [false]), Nodes(BuildTree(rp, next, cfg.dims), [true]));
  }

  lemma HeapPart(cfg: Config, t: Main)
    requires MainOk(cfg, t)
    ensures PartOf(Heap(cfg, t), Nodes(BuildRoot(t.pts, cfg.dims), []))
    ensures t.pc.Returned? ==> Heap(cfg, t) == Nodes(BuildRoot(t.pts, cfg.dims), [])
  {
    if |t.pts| >= 4 && !t.pc.RootEnter? && !t.pc.RootSort? {
      RootChildrenPart(cfg, t);
      assert [] + [false] == [false] && [] + [true] == [true];
    }
  }

  lemma RootWrite(cfg: Config, t: Main, e: Event, t': Main)
    requires MainOk(cfg, t) && MainOwn(cfg, t, e, t') && MainOk(cfg, t') && (t.pc.RootEnter? || t.pc.RootSort?)
    ensures Grows([], Heap(cfg, t), e, Heap(cfg, t'))
  {
    if t.pc.RootSort? {
      if t'.pc.RootSort? {
        SortThreads(cfg, t.pc.sort, e, t'.pc.sort, t.pts[..|t.pts| / 4], 0, 0, false);
      } else {
        MergeSortIsStable(t.pts[..|t.pts| / 4], 0);
        assert Heap(cfg, t') == Joint([], RootCell(t.pts), map[], map[]);
      }
    }
  }

  lemma SameRootChildren(cfg: Config, t: Main, e: Event, t': Main)
    requires MainOk(cfg, t) && MainOwn(cfg, t, e, t') && !t.pc.RootEnter? && !t.pc.RootSort?
    ensures |t.pts| >= 4 && !e.Write? && t'.pts == t.pts && !t'.pc.RootEnter? && !t'.pc.RootSort?
    ensures var m := SampleMedian(t.pts, |t.pts| / 4, 0);
      var next := NextDim(0, cfg.dims);
      && OwnedChild(cfg, t'.l, [false], Lower(t.pts, 0, m), next) == OwnedChild(cfg, t.l, [false], Lower(t.pts, 0, m), next)
      && OwnedChild(cfg, t'.r, [true], Upper(t.pts, 0, m), next) == OwnedChild(cfg, t.r, [true], Upper(t.pts, 0, m), next)
  {
    var m := SampleMedian(t.pts, |t.pts| / 4, 0);
    var next := NextDim(0, cfg.dims);
    OwnedEnds(cfg, t.l, [false], Lower(t.pts, 0, m), next);
    OwnedEnds(cfg, t'.l, [false], Lower(t.pts, 0, m), next);
    OwnedEnds(cfg, t.r, [true], Upper(t.pts, 0, m), next);
    OwnedEnds(cfg, t'.r, [true], Upper(t.pts, 0, m), next);
  }

  lemma RootChildGrows(cfg: Config, t: Main, e: Event, t': Main, right: bool)
    requires MainOk(cfg, t) && MainOk(cfg, t') && (t.pc.RunL? || t.pc.RunR?)
    requires if right then t' == t.(r := t'.r) && BuildChildStep(cfg, t.r, e, t'.r)
             else t' == t.(l := t'.l) && BuildChildStep(cfg, t.l, e, t'.l)
    ensures Grows([], Heap(cfg, t), e, Heap(cfg, t'))
  {
    var m := SampleMedian(t.pts, |t.pts| / 4, 0);
    var next := NextDim(0, cfg.dims);
    var lp, rp := Lower(t.pts, 0, m), Upper(t.pts, 0, m);
    RootChildrenPart(cfg, t);
    assert [] + [false] == [false] && [] + [true] == [true];
    var l, r := OwnedChild(cfg, t.l, [false], lp, next), OwnedChild(cfg, t.r, [true], rp, next);
    if right {
      OwnedGrows(cfg, t.r.task, e, t'.r.task, [true], rp, next, 1, true, t.r.spawned);
      GrowsRight([], RootCell(t.pts), l, r, e, OwnedChild(cfg, t'.r, [true], rp, next));
    } else {
      OwnedGrows(cfg, t.l.task, e, t'.l.task, [false], lp, next, 1, true, t.l.spawned);
      GrowsLeft([], RootCell(t.pts), l, r, e, OwnedChild(cfg, t'.l, [false], lp, next));
    }
  }

  /** Every step, of whichever thread, writes at most one slot, and only one that is still empty. */
  lemma HeapGrows(cfg: Config, t: Main, e: Event, t': Main)
    requires MainOk(cfg, t) && MainStep(cfg, t, e, t') && MainOk(cfg, t')
    ensures Grows([], Heap(cfg, t), e, Heap(cfg, t'))
  {
    if MainOwn(cfg, t, e, t') {
      if t.pc.RootEnter? || t.pc.RootSort? {
        RootWrite(cfg, t, e, t');
      } else {
        SameRootChildren(cfg, t, e, t');
      }
    } else {
      RootChildGrows(cfg, t, e, t', !(t' == t.(l := t'.l) && BuildChildStep(cfg, t.l, e, t'.l)));
    }
  }

  /** The nodes determine the tree. */
  lemma {:induction false} NodesInjective(t: Tree, t': Tree, path: Path)
    requires Nodes(t, path) == Nodes(t', path)
    ensures t == t'
    decreases t
  {
    NodesBelow(t, path);
    NodesBelow(t', path);
    assert (path in Nodes(t, path)) == (path in Nodes(t', path));
    RootOf(t, path);
    RootOf(t', path);
    if t.Split? {
      Side(t, path, false);
      Side(t', path, false);
      Side(t, path, true);
      Side(t', path, true);
      NodesInjective(t.left, t'.left, path + [false]);
      NodesInjective(t.right, t'.right, path + [true]);
    }
  }

  lemma RootOf(t: Tree, path: Path)
    ensures t.Empty? <==> path !in Nodes(t, path)
    ensures t.Leaf? ==> Nodes(t, path)[path] == LeafCell(t.dim, t.point)
    ensures t.Split? ==> Nodes(t, path)[path] == SplitCell(t.dim, t.median, t.numPts)
  {
    if t.Split? {
      NodesBelow(t.left, path + [false]);
      NodesBelow(t.right, path + [true]);
      JointKeys(path, SplitCell(t.dim, t.median, t.numPts), Nodes(t.left, path + [false]), Nodes(t.right, path + [true]));
    }
  }

  /** The part of the heap below one child slot. */
  function Restrict(m: map<Path, Cell>, path: Path): map<Path, Cell> {
    map k | k in m && path <= k :: m[k]
  }

  lemma Side(t: Tree, path: Path, right: bool)
    requires t.Split?
    ensures Restrict(Nodes(t, path), path + [right]) == Nodes(if right then t.right else t.left, path + [right])
  {
    var l, r := Nodes(t.left, path + [false]), Nodes(t.right, path + [true]);
    NodesBelow(t.left, path + [false]);
    NodesBelow(t.right, path + [true]);
    JointKeys(path, SplitCell(t.dim, t.median, t.numPts), l, r);
    forall k | k in Nodes(t, path) && path + [right] <= k ensures path <= k && k != path && !(path + [!right] <= k) {
      SlotsApart(path, k, right);
    }
  }
}
