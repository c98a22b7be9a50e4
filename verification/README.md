# A verified model of the parallel k-nearest-neighbour engine

The program builds a kd-tree from a training file with a fork-join of threads, answers queries by a pruned
tree search that feeds a bounded max-heap, shares the queries among a pool of workers, and writes a result
file. This project models these parts and proves that they compose: in every interleaving of the build and of
the pool, whatever `make_thread` answers and however the heap breaks ties, the file holds for each query the
`k` smallest training distances in ascending order, and brute force's own points wherever a distance is not
tied (`EndToEnd.FileIsBruteForce`). With exact arithmetic the same is proved without any sorting or any distance function
of the program: of the j-th point listed, at most j training points are strictly nearer to the query in squared
Euclidean distance and more than j are as near (`EndToEnd.FileIsNearest`).

`dafny verify dfyconfig.toml` checks everything.

## Modules

| module | content |
|---|---|
| `Points`, `Sequences` | points as sequences of coordinates; facts about sequences |
| `StableSort` | the merge sort as a function, and why its result is the only stable sort |
| `KdTree`, `KdBalance` | the sequential kd-tree, exactly when its construction terminates, its order and its balance |
| `KdMedian`, `KdShape` | each node told from outside: its median by counting the sample, its dimension and depth by its place |
| `KdTermination` | termination in terms of the training points: what is necessary, what suffices, and where both meet |
| `ForkJoin` | the parallel build as a step machine: one step per atomic action of a thread |
| `ForkJoinState`, `ForkJoinSlots`, `ForkJoinHeap`, `ForkJoinProgress` | its invariants: data, slot counter, shared tree, remaining work |
| `ForkJoinCalls`, `ForkJoinRuns` | results on single calls with their threads, and on whole runs of `make_tree` |
| `Asks`, `ForkJoinAsks`, `ForkJoinThreads`, `ForkJoinForks` | which calls ask for a thread and get one, what becomes of each slot, and the exact value of the counter |
| `Nearest`, `Euclid` | distances under any rounding, the k nearest of a multiset; the distance is the Euclidean one |
| `Search`, `Pruning` | `query_nodes` as a step machine, and exactly what each step does |
| `WorkerPool` | the pool of `adhoc_worker` threads as a step machine |
| `KnnBuild`, `KnnQuery` | the same code imperatively: heap-allocated nodes, child slots, shared counter and queue, tear-down |
| `BruteForce`, `Ranking` | the specification that `_test` states, and the same by counting nearer points |
| `Files`, `ResultFile`, `FileWords` | the three file layouts, written and read, and word by word |
| `EndToEnd` | the composition |

Coordinates are real numbers in the build. In the search every subtraction, product and sum goes through an
arbitrary rounding function that is monotone, fixes 0 and fixes its own results, so the search results hold
for finite floating-point keys too.

## What the proofs found

- The recursion of `populate_nodes` does not terminate on all inputs, not even on all sets of distinct points:
  for (1,1), (1,2), (2,1) the median is the minimum in both dimensions, the left side is empty and nothing ever
  shrinks (`KdBalance.DistinctPointsMayNeverSplit`). `KdTree.TerminatesExactly` gives the exact condition: no
  call on the way may have all dimensions stuck, and a dimension is stuck exactly when more than half of the sample
  shares the least coordinate of all the points (`KdTermination.StuckExactly`). Of the training points themselves: two
  equal ones never terminate, one dimension with pairwise distinct coordinates always does, and with a single
  dimension the two conditions meet (`KdTermination.OneDimensionTerminatesExactly`).
- `tmp_thread_count` is not balanced call by call, but stays within `[0, thread_limit]` over every
  interleaving. That fails for exactly three values of `cores`: 0, and 0x7FFFFFF1 and 0xFFFFFFF1, where
  `30 + 2 * cores` wraps round to a limit of 0 (`ForkJoinRuns.SlotsSafeExactly`).
- `job_cores = cores * 2` is 0 for `cores == 0x80000000`, and then no query is ever taken
  and the pop loop meets empty queues. For exactly this value and 0 the pool fails to deliver
  (`WorkerPool.PoolDeliversExactly`).
- `_test` compares nothing, because it loops to the member `num_found`, which stays 0 (`knnClass.hpp:184`).
  The specification proved here is the intended one, with `k` in its place, as in the commented-out lines
  1362 and 1385 of `knnClass.cpp`.
- With no training point `make_tree` exits, and with two or three it sorts an empty sample, which fails the
  assertion at line 635: `KnnBuild.MergeSort` has no result exactly on an empty range, and after its first step the
  build is blocked exactly for these two sizes (`ForkJoinRuns.FirstSortStartsExactly`).

## Model

| member | source | states |
|---|---|---|
| `EndToEnd.EveryInterleavingIsBruteForce` | knnClass.cpp:1325-1396 | over every interleaving of build and pool, every answer of `make_thread` and every tie-break of the queues, the k results of a query have the first k of all training distances sorted ascending, and equal brute force's points where a distance is not tied |
| `EndToEnd.FileIsBruteForce` | knnClass.cpp:837-889 | the same for the file: after any complete interleaving results_to_file is called on its results and the file read back, and then for every query i and j < k neighbour j is a training point at the j-th smallest distance, and brute force's own point when that is not tied; the header is the run's |
| `EndToEnd.FileIsNearest` | knnClass.cpp:1325-1396 | in exact arithmetic, stated on the query points and the training points alone: after any complete interleaving the file lists k training points for each query, none more often than it occurs, and of the j-th at most j training points are strictly nearer in squared Euclidean distance and more than j as near |
| `EndToEnd.InputIsOk` | driver.cpp:240-251 | what suffices of the input for all of this: one or at least four points with pairwise distinct coordinates in some dimension, 1 <= k <= their number, fewer than 2^31 cores |
| `EndToEnd.WholeRunsExist` | knnClass.cpp:36-142 | no interleaving gets lost: every partial run of the build under the limits for the given cores, and every partial run of a pool of twice as many workers on the tree it builds, extend to a complete run of build, pool and pop loop |
| `EndToEnd.PopsAll` | knnClass.cpp:327-333 | popping a max-heap until it is empty lists exactly its elements in non-increasing distance, for any choice among equal tops |
| `EndToEnd.SameTree` | knnClass.cpp:36-142 | the tree every interleaving leaves behind is the sequential one |
| `EndToEnd.RunSequentially` | knnClass.cpp:273-339 | the imperative program end to end: built and searched on the heap, written to the file and read back, it delivers brute force's distances and untied points |
| `StableSort.MergeSortIsStable` | knnClass.cpp:607-784 | the merge sort of a non-empty range is sorted, a permutation, and keeps equal keys in input order |
| `StableSort.StableSortUnique` | knnClass.cpp:747-773 | sortedness and the order among equal keys determine the result |
| `ForkJoinCalls.ParallelSort` | knnClass.cpp:607-784 | in every interleaving and for every sequence of `make_thread` answers, merge_sort returns the one stable sort of its range within 8n - 7 steps, with every thread below it joined and every slot below it given back or kept |
| `ForkJoinCalls.SortGoesOn` | knnClass.cpp:656-707 | until it returns, a sort can take a step, whatever the slot counter stands at |
| `ForkJoinCalls.CallBuildsItsTree` | knnClass.cpp:144-271 | each call of populate_nodes, in every interleaving, writes only below its own child slot, each slot once, and returns only when exactly the sequential subtree has been written and every thread it created has been joined, so no thread outlives the vectors it refers to |
| `ForkJoinRuns.PartialTree` | knnClass.cpp:110-137 | in every reachable state the assigned nodes are a part of the sequential kd-tree, and all of it once make_tree has returned |
| `ForkJoinRuns.WriteOnce` | knnClass.cpp:165-208 | no child slot is assigned twice, and the node assigned is the sequential one |
| `ForkJoinRuns.ForkJoinBalance` | knnClass.cpp:212-266 | threads created = joined + still there in every state, so none is lost or joined twice; when make_tree returns all are joined |
| `ForkJoinRuns.SlotAccounting` | knnClass.cpp:1023-1061 | with a limit of at least 2, tmp_thread_count = unreleased spawned tasks + slots kept by one-element tasks - releases by root tasks without a slot, it stays within thread_limit, every decrement finds it positive, and unreleased spawned tasks never exceed the limit |
| `ForkJoinRuns.SlotsSafeExactly` | knnClass.cpp:1093-1112 | the counter stays within its limit in all runs of all builds if and only if cores is none of 0, 0x7FFFFFF1, 0xFFFFFFF1 |
| `ForkJoinThreads.SortSlots` | knnClass.cpp:626-781 | a complete merge_sort, in any interleaving: each call at a depth below static_depth has asked twice, the slots kept are those granted to calls on one element, and the slots given back those granted to calls on more |
| `ForkJoinThreads.CallSlots` | knnClass.cpp:165-271 | the same for a complete populate_nodes with all its calls and sorts, the questions counted on the sequential subtree |
| `ForkJoinThreads.CounterExactly` | knnClass.cpp:1023-1061 | in every state the counter is the number of one-element calls ever granted a thread plus the other ones granted and still at work, less the early releases of the root tasks |
| `ForkJoinThreads.AllAsked` | knnClass.cpp:110-266 | when make_tree returns, threads created and refusals add up to a number fixed by the sequential tree and static_depth |
| `ForkJoinThreads.AllGranted` | knnClass.cpp:110-266 | with a limit no smaller than that number nothing is refused and exactly so many threads are created |
| `ForkJoinForks.ThreadExactly` | knnClass.cpp:212-266 | whenever a call of merge_sort or populate_nodes at a depth below static_depth makes its next call, it gets a thread, and a slot is taken, if and only if the counter is below the limit; deeper calls never ask |
| `ForkJoinForks.RootThreadExactly` | knnClass.cpp:114-125 | make_tree asks for both its threads and creates exactly those granted |
| `ForkJoinForks.CounterWhenMakeTreeAsks` | knnClass.cpp:114-115 | with slots enough for its sort, make_tree finds the counter at the number of questions its sort asked about single points |
| `ForkJoinForks.OneCoreEightPoints` | knnClass.cpp:114-136 | for one core and eight points that number is 2, the limit, so in every interleaving both root tasks are refused a thread |
| `ForkJoinSlots.ThreadLimitAtLeastTwo` | knnClass.cpp:1093-1112 | the limit computed in unsigned arithmetic is at least 2 for all other numbers of cores, and only for those |
| `ForkJoinSlots.LimitsByDoubling` | knnClass.cpp:1093-1112 | static_depth is the least depth d with cores <= 2^(d-1), 5 at most, and thread_limit is 2^d - 2 + 2 * cores as an unsigned int |
| `ForkJoinRuns.RunsCanContinue` | knnClass.cpp:127-137 | no reachable state of the build is a deadlock |
| `ForkJoinRuns.FirstSortStartsExactly` | knnClass.cpp:60-62 | after its first step make_tree has returned or can go on, for one or at least four points and for no other number; for two or three the sort of an empty sample is blocked by its assertion |
| `ForkJoinRuns.RunsAreBounded` | knnClass.cpp:144-271 | no interleaving is longer than a bound fixed by the sequential tree |
| `KdTree.RightNeverEmpty` | knnClass.cpp:786-807 | at least one point is not below the median of a sample, so the left side is always smaller than the whole |
| `KdTree.SplitsFinishes` | knnClass.cpp:144-271 | when no call below can get stuck the recursion finishes, by the lexicographic measure (points, dimensions to go to one that splits) |
| `KdTree.TerminatesExactly` | knnClass.cpp:144-271 | the recursion terminates if and only if no call it reaches has all its dimensions stuck |
| `KdTermination.StuckExactly` | knnClass.cpp:178-202 | a call goes round the dimensions for ever if and only if in each of them more than half of its sample has the least coordinate of all its points |
| `KdTermination.SplitsNeedsDistinctPoints` | knnClass.cpp:196-202 | where the recursion terminates no point occurs twice |
| `KdTermination.OneDimensionTerminatesExactly` | knnClass.cpp:144-271 | in one dimension the recursion terminates if and only if the points are pairwise distinct |
| `KdTermination.RootTerminatesExactly` | knnClass.cpp:50-137 | make_tree on one or at least four points terminates if and only if neither side of its first split meets a stuck call, and it then builds the tree the other results are about |
| `KdTermination.RootNeedsDistinctPoints` | knnClass.cpp:50-137 | where make_tree terminates no training point occurs twice |
| `KdTermination.OneDimensionRootExactly` | knnClass.cpp:50-137 | in one dimension make_tree succeeds if and only if there are one or at least four points, pairwise distinct |
| `KdBalance.DistinctSplits` | knnClass.cpp:178-202 | one dimension with pairwise distinct coordinates suffices, quarter samples included |
| `KdBalance.DistinctPointsMayNeverSplit` | knnClass.cpp:178-202 | (1,1), (1,2), (2,1) are distinct and never split, whatever the dimension to start from |
| `KdTree.BuildIsKdTree` | knnClass.cpp:165-210 | left points are below the median and right points not, dimensions cycle with depth, the leaves are the given points, and num_pts is 1 exactly at leaves although it is only the sample size |
| `KdTree.BuildRootIsKdTree` | knnClass.cpp:50-108 | the same for make_tree's root, whose sample is always the first quarter |
| `KdMedian.MedianExactly` | knnClass.cpp:786-807 | twice the median is the sum of the lower and the upper middle coordinate of the sample, each determined by how many coordinates are less and how many at most as large |
| `KdMedian.InnerNodeExactly` | knnClass.cpp:178-207 | an inner node splits in its call's dimension at the middle of all its points if they are fewer than 100, else of the first quarter, and its num_pts is the size of that sample |
| `KdMedian.RootNodeExactly` | knnClass.cpp:60-99 | the root splits in dimension 0 at the middle of the first quarter, and its num_pts is the number of all points |
| `KdShape.DimensionByDepth` | knnClass.cpp:832-835 | every node has as its dimension its depth modulo num_dimensions |
| `KdShape.DepthBound` | knnClass.cpp:178-202 | with distinct coordinates no node below a call on fewer than 100 points lies more levels below it than the base-2 logarithm, rounded up |
| `KdBalance.SmallSplit` | knnClass.cpp:178-202 | with distinct coordinates fewer than 100 points split into the two halves, rounded down and up |
| `KdBalance.HeightBound` | knnClass.cpp:178-202 | fewer than 100 such points make a tree of height at most the base-2 logarithm, rounded up |
| `KdBalance.LargeSplit` | knnClass.cpp:181-202 | from 100 points on each side keeps at least an eighth |
| `KdBalance.Contraction` | knnClass.cpp:181-202 | t levels down, all ancestors large, s of n points remain with 8^t (s - 7) <= 7^t (n - 7) |
| `KnnBuild.MergeLoop` | knnClass.cpp:711-775 | the loop over two iterators computes the merge, left element first on equal keys |
| `KnnBuild.MergeSort` | knnClass.cpp:596-784 | merge_sort returns the one specified sort of its range, with any state of the counter, and fails its assertion exactly on an empty range; every Info and vector allocated on the way is freed again; it asks for exactly the threads the size and depth fix, and the counter changes by the slots kept less its own |
| `KnnBuild.SplitPoints` | knnClass.cpp:178-202 | sorting the sample, taking its median and sharing out all points gives the two sides of the sequential split |
| `KnnBuild.ShareOut` | knnClass.cpp:196-202 | the loop splits the points by the median, each side in input order |
| `KnnBuild.Slots.MakeThread` | knnClass.cpp:1023-1046 | takes a slot exactly when one is left, and keeps the high-water mark |
| `KnnBuild.EndCall` | knnClass.cpp:268-270 | a call that was given a slot lowers the counter by exactly one, any other leaves it, and the node_info is freed |
| `KnnBuild.PopulateNodes` | knnClass.cpp:144-271 | leaves in its own child slot the sequential kd-tree of its points, with parent links inverting child links and no node shared, leaves the sibling slot alone, frees its own node_info and all else it allocates but the nodes; it asks for exactly the threads its tree fixes, and the counter changes by the slots kept less its own |
| `KnnBuild.Knn.MakeTree` | knnClass.cpp:36-142 | builds the sequential tree of all training points, asking for threads as often as that tree and static_depth fix; for no points it stops with an error message, and for two or three because merge_sort fails on the sample; with a limit of at least 2 the counter ends within it although both root tasks give back a slot |
| `KnnBuild.DeleteNodes` | knnClass.cpp:27-33 | frees every node of the tree, each while it is still allocated and therefore once |
| `KnnBuild.BuildAndDestroy` | knnClass.cpp:19-33 | after make_tree and the destructor no node, node_info, Info or heap-allocated vector is left |
| `Nearest.Distance` | knnClass.cpp:570-576 | the loop computes the rounded, accumulated sum of squares |
| `Euclid.DistanceIsEuclidean` | knnClass.cpp:570-588 | without rounding the distance is q.q - 2 q.p + p.p, with inner products over all dimensions |
| `Euclid.OneMoreDimension` | knnClass.cpp:570-588 | with rounding, each dimension adds the rounded square of the rounded difference to the sum so far, and the sum is rounded |
| `Euclid.PlaneDistance` | knnClass.cpp:527-529 | dist_to_partition is the rounded distance of the query's projection on the splitting plane |
| `Nearest.FarSide` | knnClass.cpp:527-535 | under any admissible rounding, a point on the far side of a partition is at a rounded distance at least the rounded dist_to_partition |
| `Nearest.KBestOfKBest` | knnClass.cpp:405-568 | the k smallest of (the k smallest of A) and B are k smallest of A and B |
| `Nearest.SkipFar` | knnClass.cpp:535-546 | a full queue whose top is no farther than everything on the far side already holds the k smallest with the far side included |
| `KnnQuery.Offer` | knnClass.cpp:426-455 | at a leaf the shared queue becomes the k smallest of itself and the leaf; a point no nearer than all of a full queue leaves it unchanged, any other gets in |
| `KnnQuery.VisitSecond` | knnClass.cpp:512-552 | the other child is searched unless it is empty, or the queue is full and nothing in it is farther than the query's projection on the splitting plane; then no call is made |
| `KnnQuery.QueryNodes` | knnClass.cpp:405-568 | on any kd-ordered subtree and from any queue of num_found <= k elements, leaves exactly the k smallest of that queue and all points of the subtree, skipped subtrees included |
| `KnnQuery.DoQueries` | knnClass.cpp:273-333 | each query gets its k nearest training points, farthest first |
| `Search.JobRunOk` | knnClass.cpp:405-568 | at every moment of a search num_found is the queue size, at most k, and the queue holds the k smallest of everything not still pending |
| `Search.FinishedJob` | knnClass.cpp:405-568 | a finished search holds min(k, n) points, the k smallest of the tree |
| `Search.TopNeverGrows` | knnClass.cpp:509-546 | once the queue is full its top distance never increases, so a skipped subtree stays skippable |
| `Pruning.NearSideFirst` | knnClass.cpp:473-500 | in every search the child on the query's side of the plane is entered first |
| `Pruning.FarSideSkippedExactly` | knnClass.cpp:512-552 | back from it, the other child is skipped if and only if it is empty, or the queue is full and nothing in it is farther than the query's projection on the plane |
| `Pruning.LeafEntersExactly` | knnClass.cpp:426-455 | a point enters the queue if and only if the queue is not full or holds something farther, of which one that is farthest goes |
| `WorkerPool.JobsConserved` | knnClass.cpp:374-400 | every job is waiting or taken, never both, the later ones being taken first; a taken one has one worker, no other ever has it, and when that worker no longer has it, it is done |
| `WorkerPool.OwnersFixed` | knnClass.cpp:380-392 | a job is popped by exactly one worker, once |
| `WorkerPool.NoInterference` | knnClass.cpp:292-305 | seen from one job, a step of the pool is a step of its own search or no change |
| `WorkerPool.PoolResult` | knnClass.cpp:306-324 | when all workers have returned every job is done and its queue holds its k nearest, as if run alone |
| `WorkerPool.PoolCanStep` | knnClass.cpp:374-400 | the pool can go on until all workers have returned |
| `WorkerPool.PoolRunsAreBounded` | knnClass.cpp:374-400 | every interleaving of the pool ends |
| `WorkerPool.JobCoresPositive` | knnClass.cpp:306 | the number of workers is twice that of cores, less 2^32 from 0x80000000 cores on, and positive if and only if cores is neither 0 nor 0x80000000 |
| `WorkerPool.PoolDeliversExactly` | knnClass.cpp:306-333 | in all runs on all trees and queries, every job is done with its k nearest once all workers have returned, if and only if cores is neither 0 nor 0x80000000 |
| `BruteForce.AscendingUnique` | knnClass.cpp:1354-1359 | all ascending orders of the same neighbours have the same distances, so std::sort's choice among ties does not matter |
| `BruteForce.FirstK` | knnClass.cpp:1357-1393 | k nearest listed farthest first have, read backwards, the first k distances of the sorted scan |
| `BruteForce.FirstKPoints` | knnClass.cpp:1384-1392 | and the same points, where a distance is not tied |
| `ResultFile.ResultsToFile` | knnClass.cpp:837-889 | header, then each query's neighbours from the last popped to the first; the float slots assigned are, in order, exactly 14, 15, ... up to the computed file size, so each is written once |
| `ResultFile.ReadResult` | knnClass.cpp:1256-1282 | the header fields and the q x k points from float index 14 on |
| `ResultFile.ResultRoundTrip` | knnClass.cpp:1243-1299 | reading what was written gives back the header, and neighbour j of query i is results[i][k - 1 - j] |
| `FileWords.ResultHeaderWords` | knnClass.cpp:866-882 | the fourteen header words of the result file, one by one |
| `FileWords.ResultWords` | knnClass.cpp:883-889 | coordinate d of neighbour j of query i, counted from the nearest, stands at float index 14 + (i * k + j) * dims + d |
| `Files.WriteTraining` | new/training_data.py:31-53 | the TRAINING header followed by the coordinates row by row |
| `Files.WriteQuery` | new/query_file.py:33-57 | the QUERY header, with its tag padded to eight bytes, followed by the coordinates |
| `Files.TrainInfoCtor` | driver.cpp:161-180 | tag, id, sizes and points at their places in the file |
| `Files.QueryInfoCtor` | driver.cpp:200-220 | likewise with k, points from float index 10 on |
| `Files.InputRoundTrip` | driver.cpp:161-251 | parsing what the generators write gives back every field and coordinate, and check_info accepts the pair exactly when the dimensions agree |
| `FileWords.TrainingWords` | new/training_data.py:31-53 | the eight header words of the training file and the place of every coordinate |
| `FileWords.QueryWords` | new/query_file.py:33-57 | the ten header words of the query file and the place of every coordinate |
| `FileWords.CheckFiles` | driver.cpp:161-251 | two files are accepted if and only if the first begins with TRAINING, the second with QUERY and a zero byte, and their dimensions agree |

## Left out

- Floating-point rounding in the build: medians are exact means. In float the mean of two neighbouring values
  can be the lower one, and then the strict split of the termination proof fails.
- KnnBuild.PopulateNodes: runs each thread it creates to its end at once. All other interleavings, and the
  proof that they build the same tree, are in `ForkJoin` and the modules on it.
- KnnBuild.Knn.MakeTree: requires that no call gets stuck (`RootSplits`), because otherwise the program does
  not terminate; `KdTree.TerminatesExactly` shows that nothing less will do.
- KnnBuild.BuildAndDestroy: follows the same schedule, and covers what the build allocates with `new`.
- EndToEnd.RunSequentially: likewise one schedule and one worker; `EndToEnd.FileIsBruteForce` is the result on all of them.
- KnnQuery.DoQueries: uses one worker; any number of workers and all interleavings are in `WorkerPool`.
- Files.TrainInfoCtor: requires a file at least as long as its header says, which the parser does not check.
- Files.QueryInfoCtor: likewise.
- ResultFile.ReadResult: likewise; `_check_output` asserts the exact length first.
- The step machines keep a call's own data in the call, not in memory; the tree and the counters are the only
  shared state there. Aliasing of nodes and child slots is in `KnnBuild`.
- In the step machine a thread exists from the moment `make_thread` grants it; `pthread_create` is no step of its own.
- `closest_dim_pt` and `closest_dim_pt_dist` of `query_nodes`: written, but read by no decision about the queue.
- The counters start at 0: one build per process, as in `driver.cpp`.
- Failures of allocation, locking, thread creation and joining.
- `mmap`, `open`, `lseek`, `msync`, `/dev/urandom`, time measurement and printing; the result id is an input, and a
  file is a sequence of 32-bit little-endian words whose size does not overflow.
- The structs filled by the parsers are values; their deallocation is not modelled.
- Thread affinity and thread numbers, which do not influence results.
- `merge.cpp`, `trash.cpp`, `split`, `compare_by_dimension`, the test programs under `misc` and `new`, the dump
  program and the scripts: dead code, repeats of code modelled here, or drivers.
