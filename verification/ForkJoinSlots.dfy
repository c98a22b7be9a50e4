/** The slot counter over every interleaving: tmp_thread_count never exceeds thread_limit and never
    wraps below zero, although one-element tasks keep their slot and root tasks give one back that
    they may never have had. */
module ForkJoinSlots {
  import opened Points
  import opened KdTree
  import opened KdBalance
  import opened ForkJoin
  import opened ForkJoinState

  /** set_depth_init_mutex: the limits for a number of cores. All arithmetic is on unsigned int. */
  function ThreadLimit(cores: nat): nat {
    var base := if cores < 2 then 0 else if cores < 3 then 2 else if cores < 5 then 6 else if cores < 9 then 14 else 30;
    (base + 2 * cores) % (UINT_MAX + 1)
  }

  function ForkDepth(cores: nat): nat {
    if cores < 2 then 1 else if cores < 3 then 2 else if cores < 5 then 3 else if cores < 9 then 4 else 5
  }

  /** The limit is at least 2 unless 30 + 2 * cores wraps round to 0. */
  lemma ThreadLimitAtLeastTwo(cores: nat)
    requires cores <= UINT_MAX
    ensures 2 <= ThreadLimit(cores) <==> cores != 0 && cores != 0x7FFF_FFF1 && cores != 0xFFFF_FFF1
  {
    var raw := (if cores < 2 then 0 else if cores < 3 then 2 else if cores < 5 then 6 else if cores < 9 then 14 else 30)
               + 2 * cores;
    var q := raw / (UINT_MAX + 1);
    assert 0 <= q <= 2;
    assert ThreadLimit(cores) == raw - q * (UINT_MAX + 1);
  }

  /** static_depth is the least depth at which a binary tree of calls has at least one leaf for each core, and
      5 at most; thread_limit is the number of calls that many levels below the first, and two for each core. */
  lemma LimitsByDoubling(cores: nat)
    requires cores <= UINT_MAX
    ensures var fd := ForkDepth(cores);
      && 1 <= fd <= 5
      && (fd < 5 ==> cores <= Pow(2, fd - 1)) && (fd > 1 ==> cores > Pow(2, fd - 2))
      && ThreadLimit(cores) == (Pow(2, fd) - 2 + 2 * cores) % 0x1_0000_0000
  {
    assert Pow(2, 0) == 1 && Pow(2, 1) == 2 && Pow(2, 2) == 4 && Pow(2, 3) == 8 && Pow(2, 4) == 16 && Pow(2, 5) == 32;
  }

  /** A root task that has no slot and may still release one. */
  predicate MayReleaseEarly(c: Child<Build>) {
    c.Idle? || (Inline(c) && !c.task.BuildDone?)
  }

  function EarlyPending(t: Main): nat {
    if t.pc.RunL? || t.pc.RunR? then
      (if MayReleaseEarly(t.l) then 1 else 0) + (if MayReleaseEarly(t.r) then 1 else 0)
    else 0
  }

  ghost predicate SlotsOk(cfg: Config, w: World) {
    MainOk(cfg, w.main) && CountsOk(cfg, w)
  }

  predicate CountsOk(cfg: Config, w: World) {
    // slots counted = slots held by unreleased spawned tasks + slots kept - releases that had no slot
    && w.count == Held(w.main) + w.kept - w.early
    && w.count <= cfg.limit
    // threads created = threads joined + threads still there
    && w.forked == w.joined + Unjoined(w.main)
    // every release without a slot, past or still to come, is paid for by a slot that was kept
    && w.early + EarlyPending(w.main) <= w.kept
    && (Forked(w.main) || w.early == 0)
    && (w.main.pc.AskR? && w.main.l.Idle? ==> w.count == cfg.limit)
  }

  predicate Forked(t: Main) {
    t.pc.RunL? || t.pc.RunR? || t.pc.Returned?
  }

  lemma InitialSlotsOk(cfg: Config, pts: seq<Point>)
    requires cfg.dims >= 1 && RootSplits(pts, cfg.dims)
    ensures SlotsOk(cfg, InitialWorld(pts))
  {
  }

  /** A step inside a root task. */
  lemma RootChildThreads(cfg: Config, c: Child<Build>, e: Event, c': Child<Build>, pts: seq<Point>, right: bool, m: real)
    requires cfg.dims >= 1 && RootChildOk(cfg, c, pts, right, m) && BuildChildStep(cfg, c, e, c')
    ensures BuildChildHeld(c') == BuildChildHeld(c) + HeldChange(e)
    ensures BuildChildUnjoined(c') == BuildChildUnjoined(c) + UnjoinedChange(e)
    ensures MayReleaseEarly(c') ==> MayReleaseEarly(c)
    ensures e == Release(false) ==> MayReleaseEarly(c) && !MayReleaseEarly(c')
  {
    BuildThreads(cfg, c.task, e, c'.task, [right], if right then Upper(pts, 0, m) else Lower(pts, 0, m),
                 NextDim(0, cfg.dims), 1, true, c.spawned);
  }

  /** The arithmetic of a step that leaves no new early release pending. */
  lemma CountsKept(cfg: Config, w: World, e: Event, w': World)
    requires CountsOk(cfg, w) && Enabled(cfg, w, e) && w' == Effect(w, e).(main := w'.main)
    requires Held(w'.main) == Held(w.main) + HeldChange(e) && Unjoined(w'.main) == Unjoined(w.main) + UnjoinedChange(e)
    requires EarlyPending(w'.main) + (if e == Release(false) then 1 else 0) <= EarlyPending(w.main)
    requires Forked(w.main) ==> Forked(w'.main)
    requires w'.main.pc.AskR? && w'.main.l.Idle? ==> w'.count == cfg.limit
    ensures CountsOk(cfg, w') && (e.Release? ==> w.count > 0)
  {
  }

  lemma ChildStepKeepsSlots(cfg: Config, w: World, e: Event, w': World)
    requires cfg.limit >= 2 && SlotsOk(cfg, w) && WorldStep(cfg, w, e, w') && !MainOwn(cfg, w.main, e, w'.main)
    ensures SlotsOk(cfg, w') && (e.Release? ==> w.count > 0)
  {
    var t, t' := w.main, w'.main;
    MainPreserved(cfg, t, e, t');
    if t' == t.(l := t'.l) && BuildChildStep(cfg, t.l, e, t'.l) {
      RootChildThreads(cfg, t.l, e, t'.l, t.pts, false, t.pc.median);
    } else {
      RootChildThreads(cfg, t.r, e, t'.r, t.pts, true, t.pc.median);
    }
    CountsKept(cfg, w, e, w');
  }

  lemma MainOwnThreads(cfg: Config, t: Main, e: Event, t': Main)
    requires MainOk(cfg, t) && MainOwn(cfg, t, e, t')
    ensures Held(t') == Held(t) + HeldChange(e)
    ensures Unjoined(t') == Unjoined(t) + UnjoinedChange(e)
    ensures e != Release(false)
    ensures t.pc.AskR? && t.l.Running? ==> Held(t) == 1
    ensures t.pc.AskR? && t.l.Idle? ==> Held(t) == 0
  {
    BuildDoneThreads(t.l);
    BuildDoneThreads(t.r);
    if t.pc.RootEnter? {
      if |t.pts| >= 4 {
        NewThreads(t.pts[..|t.pts| / 4], 0, 0, false, [], false);
      }
    } else if t.pc.RootSort? {
      if t'.pc.RootSort? {
        SortThreads(cfg, t.pc.sort, e, t'.pc.sort, t.pts[..|t.pts| / 4], 0, 0, false);
      }
    } else {
      NewRootThreads(t.l);
      NewRootThreads(t.r);
      NewRootThreads(t'.l);
      NewRootThreads(t'.r);
    }
  }

  lemma NewRootThreads(c: Child<Build>)
    requires c.Running? && c.task.BuildCall? && c.task.pc.Enter? && c.task.l.Idle? && c.task.r.Idle? ==> c.task.spawned == c.spawned
    ensures c.Running? && c.task.BuildCall? && c.task.pc.Enter? && c.task.l.Idle? && c.task.r.Idle? ==>
      BuildChildHeld(c) == BuildChildUnjoined(c) && BuildChildHeld(c) == if c.spawned then 1 else 0
  {
    if c.Running? && c.task.BuildCall? && c.task.pc.Enter? && c.task.l.Idle? && c.task.r.Idle? {
      NewBuildThreads(c);
    }
  }

  /** The step that takes make_tree to its root tasks: with no thread for the left one, all limit slots
      are kept ones, and with one for it, all but one are. */
  lemma AskingRightKeepsSlots(cfg: Config, w: World, e: Event, w': World)
    requires cfg.limit >= 2 && SlotsOk(cfg, w) && WorldStep(cfg, w, e, w') && MainOwn(cfg, w.main, e, w'.main)
    requires w.main.pc.AskR?
    ensures CountsOk(cfg, w') && !e.Release?
  {
    MainOwnThreads(cfg, w.main, e, w'.main);
  }

  lemma OwnStepKeepsSlots(cfg: Config, w: World, e: Event, w': World)
    requires cfg.limit >= 2 && SlotsOk(cfg, w) && WorldStep(cfg, w, e, w') && MainOwn(cfg, w.main, e, w'.main)
    ensures SlotsOk(cfg, w') && (e.Release? ==> w.count > 0)
  {
    MainPreserved(cfg, w.main, e, w'.main);
    if w.main.pc.AskR? {
      AskingRightKeepsSlots(cfg, w, e, w');
    } else {
      OtherStepKeepsSlots(cfg, w, e, w');
    }
  }

  lemma OtherStepKeepsSlots(cfg: Config, w: World, e: Event, w': World)
    requires SlotsOk(cfg, w) && WorldStep(cfg, w, e, w') && MainOwn(cfg, w.main, e, w'.main) && !w.main.pc.AskR?
    ensures CountsOk(cfg, w') && (e.Release? ==> w.count > 0)
  {
    MainOwnThreads(cfg, w.main, e, w'.main);
    CountsKept(cfg, w, e, w');
  }
}
