/** do_queries and adhoc_worker: a pool of threads taking queries from a shared vector. One step is one
    step of one thread; the block under thread_lock that takes a job is a single step. */
module WorkerPool {
  import opened KdTree
  import opened Nearest
  import opened Search

  datatype Worker = Ready | Busy(job: nat) | Gone

  /** work: the jobs nobody has taken. started: worker threads created so far. owner: who took which
      job, for the record. Each job has its own cell: queue, counter, calls in progress. */
  datatype Pool = Pool(work: seq<nat>, started: nat, workers: seq<Worker>, cells: seq<Job>, owner: map<nat, nat>)

  /** work_cores is an unsigned int, twice the number of cores. */
  function JobCores(cores: nat): nat {
    (2 * cores) % 0x1_0000_0000
  }

  function InitialPool(root: Tree, jobs: nat, workers: nat): Pool {
    Pool(seq(jobs, i => i), 0, seq(workers, i => Ready), seq(jobs, i => NewJob(root)), map[])
  }

  /** The main thread creates the next worker. */
  predicate Start(s: Pool, s': Pool) {
    s.started < |s.workers| && s' == s.(started := s.started + 1)
  }

  /** Worker w takes the last job of the vector, or finds it empty and returns. */
  predicate Take(s: Pool, w: nat, s': Pool) {
    && w < s.started <= |s.workers| && s.workers[w].Ready?
    && if s.work == [] then s' == s.(workers := s.workers[w := Gone])
       else
         var n := |s.work| - 1;
         s' == s.(work := s.work[..n], workers := s.workers[w := Busy(s.work[n])], owner := s.owner[s.work[n] := w])
  }

  /** Worker w makes one step of its search, or comes back from it. */
  ghost predicate Work(qs: seq<Query>, s: Pool, w: nat, s': Pool) {
    && w < s.started <= |s.workers| && s.workers[w].Busy?
    && var j := s.workers[w].job;
       j < |s.cells| && j < |qs|
       && if s.cells[j].stack == [] then s' == s.(workers := s.workers[w := Ready])
          else
            && |s'.cells| == |s.cells| && s' == s.(cells := s.cells[j := s'.cells[j]])
            && JobMoves(qs[j], s.cells[j], s'.cells[j])
  }

  ghost predicate PoolStep(qs: seq<Query>, s: Pool, s': Pool) {
    Start(s, s') || exists w: nat :: Take(s, w, s') || Work(qs, s, w, s')
  }

  predicate AllReturned(s: Pool) {
    s.started == |s.workers| && forall w :: 0 <= w < |s.workers| ==> s.workers[w].Gone?
  }

  /** One interleaving of the pool. */
  ghost predicate PoolTrace(qs: seq<Query>, root: Tree, workers: nat, ss: seq<Pool>) {
    && ss != [] && ss[0] == InitialPool(root, |qs|, workers)
    && forall i :: 0 <= i < |ss| - 1 ==> PoolStepAt(qs, ss, i)
  }

  ghost predicate PoolStepAt(qs: seq<Query>, ss: seq<Pool>, i: int)
    requires 0 <= i < |ss| - 1
  {
    PoolStep(qs, ss[i], ss[i + 1])
  }

  /** An interleaving of the pool on a tree that can be searched. */
  ghost predicate PoolRun(qs: seq<Query>, root: Tree, workers: nat, ss: seq<Pool>) {
    PoolTrace(qs, root, workers, ss) && forall j :: 0 <= j < |qs| ==> QueryOk(qs[j], root)
  }

  /** What do_queries asks of its tree and queries. */
  ghost predicate QueryOk(q: Query, root: Tree) {
    q.k >= 1 && Rounding(q.rnd) && Searchable(root, q.dims) && !root.Empty?
  }

  // ---- Invariant ----

  predicate Has(s: Pool, j: nat, w: nat) {
    w < |s.workers| && s.workers[w] == Busy(j)
  }

  /** Of n jobs, those waiting are 0 .. |work|-1 and untouched; every other job was taken by one worker,
      which is still at it or has finished it; a worker that returned left nothing waiting. */
  ghost predicate Assigned(n: nat, root: Tree, s: Pool) {
    && s.started <= |s.workers|
    && |s.cells| == n && |s.work| <= n
    && s.work == seq(|s.work|, i => i)
    && (forall j :: j in s.owner <==> |s.work| <= j < n)
    && (forall j :: 0 <= j < |s.work| ==> s.cells[j] == NewJob(root))
    && (forall w :: 0 <= w < |s.workers| && s.workers[w].Busy? ==>
          |s.work| <= s.workers[w].job < n && s.owner[s.workers[w].job] == w)
    && (forall j :: |s.work| <= j < n && s.cells[j].stack != [] ==> Has(s, j, s.owner[j]))
    && (forall w :: 0 <= w < |s.workers| && s.workers[w].Gone? ==> s.work == [])
    && (forall w :: s.started <= w < |s.workers| ==> s.workers[w].Ready?)
  }

  /** Every search, begun or not, is in order. */
  ghost predicate CellsOk(qs: seq<Query>, root: Tree, cells: seq<Job>) {
    |cells| == |qs| && forall j :: 0 <= j < |qs| ==> JobOk(qs[j], cells[j], qs[j].Neighbors(root))
  }

  ghost predicate PoolOk(qs: seq<Query>, root: Tree, s: Pool) {
    Assigned(|qs|, root, s) && CellsOk(qs, root, s.cells)
  }

  lemma InitialPoolOk(qs: seq<Query>, root: Tree, workers: nat)
    requires forall j :: 0 <= j < |qs| ==> QueryOk(qs[j], root)
    ensures PoolOk(qs, root, InitialPool(root, |qs|, workers))
  {
    forall j | 0 <= j < |qs| ensures JobOk(qs[j], NewJob(root), qs[j].Neighbors(root)) {
      NewJobOk(qs[j], root);
    }
  }

  lemma LastTaken(work: seq<nat>)
    requires work != [] && work == seq(|work|, i => i)
    ensures var n := |work| - 1; work[n] == n && work[..n] == seq(n, i => i)
  {
  }

  lemma TakeAssigned(n: nat, root: Tree, s: Pool, w: nat, s': Pool)
    requires Assigned(n, root, s) && Take(s, w, s')
    ensures Assigned(n, root, s')
  {
    if s.work == [] {
      LeaveAssigned(n, root, s, w, s');
    } else {
      TakeLastAssigned(n, root, s, w, s');
    }
  }

  lemma LeaveAssigned(n: nat, root: Tree, s: Pool, w: nat, s': Pool)
    requires Assigned(n, root, s) && Take(s, w, s') && s.work == []
    ensures Assigned(n, root, s')
  {
    forall j | 0 <= j < n && s'.cells[j].stack != [] ensures Has(s', j, s'.owner[j]) {
      assert Has(s, j, s.owner[j]);
    }
  }

  lemma TakeLastAssigned(n: nat, root: Tree, s: Pool, w: nat, s': Pool)
    requires Assigned(n, root, s) && Take(s, w, s') && s.work != []
    ensures Assigned(n, root, s')
  {
    LastTaken(s.work);
    forall j | |s'.work| <= j < n && s'.cells[j].stack != [] ensures Has(s', j, s'.owner[j]) {
      if j >= |s.work| {
        assert Has(s, j, s.owner[j]);
      }
    }
  }

  lemma WorkAssigned(n: nat, root: Tree, s: Pool, w: nat, s': Pool, j: nat)
    requires Assigned(n, root, s) && w < |s.workers| && s.workers[w] == Busy(j)
    requires if s.cells[j].stack == [] then s' == s.(workers := s.workers[w := Ready])
             else |s'.cells| == n && s' == s.(cells := s.cells[j := s'.cells[j]])
    requires w < s.started
    ensures Assigned(n, root, s')
  {
    forall i | |s.work| <= i < n && s'.cells[i].stack != [] ensures Has(s', i, s'.owner[i]) {
      if i != j || s.cells[j].stack != [] {
        assert i != j ==> Has(s, i, s.owner[i]);
      }
    }
  }

  lemma StartAssigned(n: nat, root: Tree, s: Pool, s': Pool)
    requires Assigned(n, root, s) && Start(s, s')
    ensures Assigned(n, root, s')
  {
    forall j | |s.work| <= j < n && s'.cells[j].stack != [] ensures Has(s', j, s'.owner[j]) {
      assert Has(s, j, s.owner[j]);
    }
  }

  lemma WorkCells(qs: seq<Query>, root: Tree, cells: seq<Job>, j: nat, c: Job)
    requires CellsOk(qs, root, cells) && j < |qs| && JobMoves(qs[j], cells[j], c)
    ensures CellsOk(qs, root, cells[j := c])
  {
    CellOk(qs, root, cells, j);
    MoveOk(qs[j], cells[j], c, qs[j].Neighbors(root));
  }

  lemma CellOk(qs: seq<Query>, root: Tree, cells: seq<Job>, j: nat)
    requires CellsOk(qs, root, cells) && j < |qs|
    ensures j < |cells| && JobOk(qs[j], cells[j], qs[j].Neighbors(root))
  {
  }

  lemma PoolStepOk(qs: seq<Query>, root: Tree, s: Pool, s': Pool)
    requires PoolOk(qs, root, s) && PoolStep(qs, s, s')
    ensures PoolOk(qs, root, s')
  {
    if Start(s, s') {
      StartAssigned(|qs|, root, s, s');
    } else {
      var w: nat :| Take(s, w, s') || Work(qs, s, w, s');
      if Take(s, w, s') {
        TakeAssigned(|qs|, root, s, w, s');
      } else {
        var j := s.workers[w].job;
        WorkAssigned(|qs|, root, s, w, s', j);
        if s.cells[j].stack != [] {
          WorkCells(qs, root, s.cells, j, s'.cells[j]);
        }
      }
    }
  }

  lemma StepOfTrace(qs: seq<Query>, root: Tree, workers: nat, ss: seq<Pool>, i: nat)
    requires PoolTrace(qs, root, workers, ss) && 0 < i < |ss|
    ensures PoolStep(qs, ss[i - 1], ss[i]) && |ss[i].workers| == |ss[i - 1].workers|
  {
    assert PoolStepAt(qs, ss, i - 1);
    if !Start(ss[i - 1], ss[i]) {
      var w: nat :| Take(ss[i - 1], w, ss[i]) || Work(qs, ss[i - 1], w, ss[i]);
    }
  }

  lemma {:induction false} PoolRunOk(qs: seq<Query>, root: Tree, workers: nat, ss: seq<Pool>, i: nat)
    requires PoolRun(qs, root, workers, ss) && i < |ss|
    ensures PoolOk(qs, root, ss[i]) && |ss[i].workers| == workers
    decreases i
  {
    if i == 0 {
      InitialPoolOk(qs, root, workers);
    } else {
      PoolRunOk(qs, root, workers, ss, i - 1);
      StepOfTrace(qs, root, workers, ss, i);
      PoolStepOk(qs, root, ss[i - 1], ss[i]);
    }
  }

  // ---- Results ----

  /** A job has exactly one of three states: waiting, running at one worker, or done. */
  predicate Waiting(s: Pool, j: nat) { j in s.work }

  ghost predicate Running(s: Pool, j: nat) {
    exists w: nat :: Has(s, j, w)
  }

  lemma JobStates(n: nat, root: Tree, s: Pool, j: nat)
    requires Assigned(n, root, s) && j < n
    ensures Waiting(s, j) <==> j !in s.owner
    ensures Waiting(s, j) <==> j < |s.work|
    ensures forall w: nat :: Has(s, j, w) ==> j in s.owner && s.owner[j] == w
    ensures !Waiting(s, j) && !Running(s, j) ==> s.cells[j].stack == []
  {
    if j < |s.work| {
      assert s.work[j] == j;
    } else if s.cells[j].stack != [] {
      assert Has(s, j, s.owner[j]);
    }
  }

  /** Conservation: every job is waiting or was taken, never both; a job taken is recorded with the one
      worker that took it, no other worker ever has it, and when that worker no longer has it, it is done.
      The later jobs are taken before the earlier ones. */
  lemma JobsConserved(qs: seq<Query>, root: Tree, workers: nat, ss: seq<Pool>, i: nat, j: nat)
    requires PoolRun(qs, root, workers, ss) && i < |ss| && j < |qs|
    ensures |ss[i].cells| == |qs|
    ensures Waiting(ss[i], j) <==> j !in ss[i].owner
    ensures Waiting(ss[i], j) <==> j < |ss[i].work|
    ensures forall w: nat :: Has(ss[i], j, w) ==> j in ss[i].owner && ss[i].owner[j] == w
    ensures !Waiting(ss[i], j) && !Running(ss[i], j) ==> ss[i].cells[j].stack == []
  {
    PoolRunOk(qs, root, workers, ss, i);
    JobStates(|qs|, root, ss[i], j);
  }

  predicate KeepsOwners(a: map<nat, nat>, b: map<nat, nat>) {
    forall j :: j in a ==> j in b && b[j] == a[j]
  }

  lemma TakeKeepsOwners(n: nat, root: Tree, s: Pool, w: nat, s': Pool)
    requires Assigned(n, root, s) && Take(s, w, s')
    ensures KeepsOwners(s.owner, s'.owner)
  {
    if s.work != [] {
      assert s.work[|s.work| - 1] == |s.work| - 1;
    }
  }

  lemma WorkKeepsOwners(qs: seq<Query>, s: Pool, w: nat, s': Pool)
    requires Work(qs, s, w, s')
    ensures s'.owner == s.owner
  {
  }

  lemma OwnersKept(n: nat, root: Tree, qs: seq<Query>, s: Pool, s': Pool)
    requires Assigned(n, root, s) && PoolStep(qs, s, s')
    ensures KeepsOwners(s.owner, s'.owner)
  {
    if !Start(s, s') {
      var w: nat :| Take(s, w, s') || Work(qs, s, w, s');
      if Take(s, w, s') {
        TakeKeepsOwners(n, root, s, w, s');
      } else {
        WorkKeepsOwners(qs, s, w, s');
      }
    }
  }

  lemma OwnersNext(qs: seq<Query>, root: Tree, workers: nat, ss: seq<Pool>, i: nat)
    requires PoolRun(qs, root, workers, ss) && 0 < i < |ss|
    ensures KeepsOwners(ss[i - 1].owner, ss[i].owner)
  {
    PoolRunOk(qs, root, workers, ss, i - 1);
    StepOfTrace(qs, root, workers, ss, i);
    OwnersKept(|qs|, root, qs, ss[i - 1], ss[i]);
  }

  /** A job once taken is never taken again, by anyone. */
  lemma {:induction false} OwnersFixed(qs: seq<Query>, root: Tree, workers: nat, ss: seq<Pool>, i: nat, i': nat)
    requires PoolRun(qs, root, workers, ss) && i <= i' < |ss|
    ensures KeepsOwners(ss[i].owner, ss[i'].owner)
    decreases i'
  {
    if i < i' {
      OwnersFixed(qs, root, workers, ss, i, i' - 1);
      OwnersNext(qs, root, workers, ss, i');
    }
  }

  lemma OneCellMoves(qs: seq<Query>, s: Pool, s': Pool, j: nat)
    requires PoolStep(qs, s, s') && j < |qs| && |s.cells| == |qs|
    ensures |s'.cells| == |qs| && (s'.cells[j] == s.cells[j] || JobMoves(qs[j], s.cells[j], s'.cells[j]))
  {
    if !Start(s, s') {
      var w: nat :| Take(s, w, s') || Work(qs, s, w, s');
    }
  }

  /** No interference: seen from one job, every step of the pool is a step of its own search or nothing,
      so each queue is the outcome of a search that might as well have run alone. */
  lemma NoInterference(qs: seq<Query>, root: Tree, workers: nat, ss: seq<Pool>, i: nat, j: nat)
    requires PoolRun(qs, root, workers, ss) && i + 1 < |ss| && j < |qs|
    ensures |ss[i].cells| == |ss[i + 1].cells| == |qs|
    ensures ss[i + 1].cells[j] == ss[i].cells[j] || JobMoves(qs[j], ss[i].cells[j], ss[i + 1].cells[j])
  {
    PoolRunOk(qs, root, workers, ss, i);
    StepOfTrace(qs, root, workers, ss, i + 1);
    OneCellMoves(qs, ss[i], ss[i + 1], j);
  }

  /** When all workers have returned, and there was at least one, every job is done: its queue holds
      the k nearest training points of its own query, whatever the interleaving. */
  lemma PoolResult(qs: seq<Query>, root: Tree, workers: nat, ss: seq<Pool>, j: nat)
    requires PoolRun(qs, root, workers, ss) && workers >= 1 && AllReturned(ss[|ss| - 1]) && j < |qs|
    ensures |ss[|ss| - 1].cells| == |qs|
    ensures var s := ss[|ss| - 1].cells[j];
      s.stack == [] && KBest(s.queue, qs[j].Neighbors(root), qs[j].k)
  {
    PoolRunOk(qs, root, workers, ss, |ss| - 1);
    AllDone(qs, root, ss[|ss| - 1], j);
    FinishedJob(qs[j], root, ss[|ss| - 1].cells[j]);
  }

  lemma AllDone(qs: seq<Query>, root: Tree, s: Pool, j: nat)
    requires PoolOk(qs, root, s) && s.workers != [] && AllReturned(s) && j < |qs|
    ensures |s.cells| == |qs| && s.cells[j].stack == [] && JobOk(qs[j], s.cells[j], qs[j].Neighbors(root))
  {
    assert s.workers[0].Gone?;
    JobStates(|qs|, root, s, j);
    CellOk(qs, root, s.cells, j);
  }

  /** There is at least one worker unless the doubled number of cores is 0 as an unsigned int. */
  lemma JobCoresPositive(cores: nat)
    requires cores <= 0xFFFF_FFFF
    ensures JobCores(cores) >= 1 <==> cores != 0 && cores != 0x8000_0000
    ensures JobCores(cores) == if cores < 0x8000_0000 then cores + cores else cores + cores - 0x1_0000_0000
  {
    var q := (2 * cores) / 0x1_0000_0000;
    assert 0 <= q <= 1;
  }

  /** Every job is done, and its queue is right. */
  ghost predicate Delivered(qs: seq<Query>, root: Tree, s: Pool) {
    && |s.cells| == |qs|
    && forall j :: 0 <= j < |qs| ==> s.cells[j].stack == [] && KBest(s.cells[j].queue, qs[j].Neighbors(root), qs[j].k)
  }

  lemma AllDelivered(qs: seq<Query>, root: Tree, workers: nat, ss: seq<Pool>, last: Pool)
    requires PoolRun(qs, root, workers, ss) && workers >= 1 && last == ss[|ss| - 1] && AllReturned(last)
    ensures Delivered(qs, root, last)
  {
    PoolSizes(qs, root, workers, ss, |ss| - 1);
    forall j | 0 <= j < |qs| ensures last.cells[j].stack == [] && KBest(last.cells[j].queue, qs[j].Neighbors(root), qs[j].k) {
      PoolResult(qs, root, workers, ss, j);
    }
  }

  lemma IdentityRounds()
    ensures Rounding((x: real) => x)
  {
    var rnd := (x: real) => x;
    assert forall x: real :: Settles(rnd, x);
    assert forall x: real, y: real :: Keeps(rnd, x, y);
  }

  /** With no workers do_queries goes straight on to popping the queue of a job nobody has taken. */
  lemma NoWorkers() returns (qs: seq<Query>, root: Tree, ss: seq<Pool>)
    ensures PoolRun(qs, root, 0, ss) && AllReturned(ss[|ss| - 1]) && !Delivered(qs, root, ss[|ss| - 1])
    ensures |qs| == |ss[|ss| - 1].cells| == 1 && qs[0].k == 1 && ss[|ss| - 1].cells[0].queue == multiset{}
  {
    IdentityRounds();
    root := Leaf(0, []);
    qs := [Query([], 0, 1, (x: real) => x)];
    ss := [InitialPool(root, 1, 0)];
    assert QueryOk(qs[0], root);
    assert ss[0].cells[0] == NewJob(root);
  }

  /** Over all numbers of cores: whenever all workers have returned every query has its answer, in every
      interleaving on every tree, exactly when twice the number of cores is not 0 as an unsigned int. */
  lemma PoolDeliversExactly(cores: nat)
    requires cores <= 0xFFFF_FFFF
    ensures (forall qs, root, ss: seq<Pool> :: PoolRun(qs, root, JobCores(cores), ss) && AllReturned(ss[|ss| - 1])
               ==> Delivered(qs, root, ss[|ss| - 1]))
       <==> cores != 0 && cores != 0x8000_0000
  {
    JobCoresPositive(cores);
    if JobCores(cores) >= 1 {
      forall qs, root, ss: seq<Pool> | PoolRun(qs, root, JobCores(cores), ss) && AllReturned(ss[|ss| - 1])
        ensures Delivered(qs, root, ss[|ss| - 1])
      {
        AllDelivered(qs, root, JobCores(cores), ss, ss[|ss| - 1]);
      }
    } else {
      var qs, root, ss := NoWorkers();
    }
  }

  // ---- The pool does not block and does not run for ever ----

  lemma PoolCanStep(qs: seq<Query>, root: Tree, workers: nat, ss: seq<Pool>) returns (s': Pool)
    requires PoolRun(qs, root, workers, ss) && !AllReturned(ss[|ss| - 1])
    ensures PoolStep(qs, ss[|ss| - 1], s')
  {
    var s := ss[|ss| - 1];
    PoolRunOk(qs, root, workers, ss, |ss| - 1);
    if s.started < |s.workers| {
      s' := s.(started := s.started + 1);
      assert Start(s, s');
    } else {
      var w: nat :| w < |s.workers| && !s.workers[w].Gone?;
      if s.workers[w].Ready? {
        if s.work == [] {
          s' := s.(workers := s.workers[w := Gone]);
        } else {
          var n := |s.work| - 1;
          s' := s.(work := s.work[..n], workers := s.workers[w := Busy(s.work[n])], owner := s.owner[s.work[n] := w]);
        }
        assert Take(s, w, s');
      } else {
        var j := s.workers[w].job;
        if s.cells[j].stack == [] {
          s' := s.(workers := s.workers[w := Ready]);
        } else {
          var top, c := JobCanStep(qs[j], s.cells[j], qs[j].Neighbors(root));
          s' := s.(cells := s.cells[j := c]);
          assert JobMoves(qs[j], s.cells[j], c);
        }
        assert Work(qs, s, w, s');
      }
    }
  }

  function CellsWork(qs: seq<Query>, cells: seq<Job>): nat
    requires |cells| <= |qs|
  {
    if cells == [] then 0
    else CellsWork(qs, cells[..|cells| - 1]) + StackWork(qs[|cells| - 1], cells[|cells| - 1].stack)
  }

  function WorkerWork(w: Worker): nat {
    match w
    case Ready => 1
    case Busy(_) => 2
    case Gone => 0
  }

  function WorkersWork(ws: seq<Worker>): nat {
    if ws == [] then 0 else WorkersWork(ws[..|ws| - 1]) + WorkerWork(ws[|ws| - 1])
  }

  lemma {:induction false} CellsWorkUpdate(qs: seq<Query>, cells: seq<Job>, j: nat, c: Job)
    requires j < |cells| <= |qs|
    ensures CellsWork(qs, cells[j := c]) == CellsWork(qs, cells) - StackWork(qs[j], cells[j].stack) + StackWork(qs[j], c.stack)
    decreases |cells|
  {
    var n := |cells| - 1;
    if j < n {
      CellsWorkUpdate(qs, cells[..n], j, c);
      assert cells[j := c][..n] == cells[..n][j := c];
    } else {
      assert cells[j := c][..n] == cells[..n];
    }
  }

  lemma {:induction false} WorkersWorkUpdate(ws: seq<Worker>, i: nat, w: Worker)
    requires i < |ws|
    ensures WorkersWork(ws[i := w]) == WorkersWork(ws) - WorkerWork(ws[i]) + WorkerWork(w)
    decreases |ws|
  {
    var n := |ws| - 1;
    if i < n {
      WorkersWorkUpdate(ws[..n], i, w);
      assert ws[i := w][..n] == ws[..n][i := w];
    } else {
      assert ws[i := w][..n] == ws[..n];
    }
  }

  /** Steps the pool can still take. */
  function PoolWork(qs: seq<Query>, s: Pool): int
    requires |s.cells| <= |qs|
  {
    CellsWork(qs, s.cells) + 2 * |s.work| + WorkersWork(s.workers) + |s.workers| - s.started
  }

  lemma WorkShrinks(qs: seq<Query>, s: Pool, w: nat, s': Pool)
    requires Work(qs, s, w, s') && |s.cells| == |qs|
    ensures |s'.cells| <= |qs| && PoolWork(qs, s') < PoolWork(qs, s)
  {
    var j := s.workers[w].job;
    if s.cells[j].stack == [] {
      WorkersWorkUpdate(s.workers, w, Ready);
    } else {
      var top :| JobStep(qs[j], s.cells[j], top, s'.cells[j]);
      JobWorkShrinks(qs[j], s.cells[j], top, s'.cells[j]);
      CellsWorkUpdate(qs, s.cells, j, s'.cells[j]);
    }
  }

  lemma PoolWorkShrinks(qs: seq<Query>, s: Pool, s': Pool)
    requires PoolStep(qs, s, s') && |s.cells| == |qs|
    ensures |s'.cells| <= |qs| && PoolWork(qs, s') < PoolWork(qs, s)
  {
    if !Start(s, s') {
      var w: nat :| Take(s, w, s') || Work(qs, s, w, s');
      if Take(s, w, s') {
        WorkersWorkUpdate(s.workers, w, s'.workers[w]);
      } else {
        WorkShrinks(qs, s, w, s');
      }
    }
  }

  lemma PoolSizes(qs: seq<Query>, root: Tree, workers: nat, ss: seq<Pool>, i: nat)
    requires PoolRun(qs, root, workers, ss) && i < |ss|
    ensures |ss[i].cells| == |qs| && ss[i].started <= |ss[i].workers|
    ensures i > 0 ==> PoolStep(qs, ss[i - 1], ss[i])
  {
    PoolRunOk(qs, root, workers, ss, i);
    if i > 0 {
      StepOfTrace(qs, root, workers, ss, i);
    }
  }

  /** Every interleaving of the pool ends: no run is longer than the work there was at the start. */
  lemma {:induction false} PoolRunsAreBounded(qs: seq<Query>, root: Tree, workers: nat, ss: seq<Pool>, i: nat)
    requires PoolRun(qs, root, workers, ss) && i < |ss|
    ensures |ss[i].cells| == |ss[0].cells| == |qs|
    ensures i <= PoolWork(qs, ss[i]) + i <= PoolWork(qs, ss[0])
    decreases i
  {
    PoolSizes(qs, root, workers, ss, i);
    if i > 0 {
      PoolSizes(qs, root, workers, ss, i - 1);
      PoolRunsAreBounded(qs, root, workers, ss, i - 1);
      PoolWorkShrinks(qs, ss[i - 1], ss[i]);
    }
  }

  /** Every interleaving of the pool, at any point, can be continued until all workers have returned. */
  lemma {:induction false} PoolCanFinish(qs: seq<Query>, root: Tree, workers: nat, ss: seq<Pool>) returns (ss': seq<Pool>)
    requires PoolRun(qs, root, workers, ss)
    ensures PoolRun(qs, root, workers, ss') && ss <= ss' && AllReturned(ss'[|ss'| - 1])
    decreases PoolBound(qs, root, workers, ss) - |ss|
  {
    ss' := ss;
    if !AllReturned(ss[|ss| - 1]) {
      var s := PoolCanStep(qs, root, workers, ss);
      var more := ss + [s];
      MoreSteps(qs, root, workers, ss, s);
      PoolRunsAreBounded(qs, root, workers, more, |more| - 1);
      ss' := PoolCanFinish(qs, root, workers, more);
    }
  }

  /** One more than the steps a run can have. */
  ghost function PoolBound(qs: seq<Query>, root: Tree, workers: nat, ss: seq<Pool>): int
    requires PoolRun(qs, root, workers, ss)
  {
    PoolWork(qs, InitialPool(root, |qs|, workers)) + 1
  }

  lemma MoreSteps(qs: seq<Query>, root: Tree, workers: nat, ss: seq<Pool>, s: Pool)
    requires PoolRun(qs, root, workers, ss) && PoolStep(qs, ss[|ss| - 1], s)
    ensures PoolRun(qs, root, workers, ss + [s])
  {
    var more := ss + [s];
    forall i | 0 <= i < |more| - 1 ensures PoolStepAt(qs, more, i) {
      assert i + 1 < |ss| ==> PoolStepAt(qs, ss, i);
      assert more[i] == ss[i] && (i + 1 < |ss| ==> more[i + 1] == ss[i + 1]);
    }
  }
}
