/** The build as the program writes it: nodes on the heap, child slots assigned through references, the
    merge loop, the slot counter. A thread that is created runs here to its end at once; the other
    interleavings are the subject of ForkJoin. */
module KnnBuild {
  import opened Points
  import opened Sequences
  import S = StableSort
  import opened KdTree
  import opened ForkJoin
  import opened ForkJoinSlots
  import opened Asks

  datatype Option<T> = None | Some(value: T)

  /** KNN::Node. Repr: the nodes of the subtree. */
  class Node {
    var dimension: nat
    var median: real
    var numPts: nat
    var lChild: Node?
    var rChild: Node?
    var parent: Node?
    var point: Option<Point>
    ghost var Repr: set<Node>

    constructor (dimension: nat, median: real, numPts: nat)
      ensures this.dimension == dimension && this.median == median && this.numPts == numPts
      ensures lChild == null && rChild == null && parent == null && point == None && Repr == {this}
    {
      this.dimension, this.median, this.numPts := dimension, median, numPts;
      lChild, rChild, parent, point := null, null, null, None;
      Repr := {this};
    }
  }

  ghost function ReprOf(n: Node?): set<Node>
    reads n
  {
    if n == null then {} else n.Repr
  }

  /** The nodes from n on are the tree t; parent links invert child links, and no node occurs twice. */
  ghost predicate Shows(n: Node?, t: Tree, parent: Node?, repr: set<Node>)
    reads repr
    decreases t
  {
    match t
    case Empty => n == null && repr == {}
    case Leaf(d, p) =>
      && n != null && repr == {n} && n.Repr == repr
      && n.dimension == d && n.median == 0.0 && n.numPts == 1 && n.point == Some(p)
      && n.lChild == null && n.rChild == null && n.parent == parent
    case Split(d, m, k, l, r) =>
      && n != null && n in repr && n.Repr == repr
      && n.dimension == d && n.median == m && n.numPts == k && n.point == None && n.parent == parent
      && (n.lChild != null ==> n.lChild in repr) && (n.rChild != null ==> n.rChild in repr)
      && var lr, rr := ReprOf(n.lChild), ReprOf(n.rChild);
         && repr == {n} + lr + rr && n !in lr && n !in rr && lr !! rr
         && Shows(n.lChild, l, n, lr) && Shows(n.rChild, r, n, rr)
  }

  /** node_info: one call of populate_nodes. The reference to a Node* that it holds is the left or the
      right child slot of parent. */
  class NodeInfo {
    const a: seq<Point>
    const depth: nat
    const dimension: nat
    const right: bool
    const parent: Node
    const isThread: bool

    constructor (a: seq<Point>, depth: nat, dimension: nat, right: bool, parent: Node, isThread: bool)
      ensures this.a == a && this.depth == depth && this.dimension == dimension && this.right == right
      ensures this.parent == parent && this.isThread == isThread
    {
      this.a, this.depth, this.dimension, this.right, this.parent, this.isThread := a, depth, dimension, right, parent, isThread;
    }
  }

  /** The objects obtained with new and not yet deleted. */
  class Allocator {
    var live: set<object>

    constructor ()
      ensures live == {}
    {
      live := {};
    }

    method Add(o: object)
      requires o !in live
      modifies this
      ensures live == old(live) + {o}
    {
      live := live + {o};
    }

    /** delete o. Deleting what is not live would be an error. */
    method Delete(o: object)
      requires o in live
      modifies this
      ensures live == old(live) - {o}
    {
      live := live - {o};
    }
  }

  /** What a call does to tmp_thread_count: it ends within the limit, higher by the slots kept meanwhile
      and lower by the slot the call itself was given, if any. */
  predicate SlotsKept(before: nat, after: nat, kept: int, limit: nat, own: bool) {
    && kept >= 0
    && (before <= limit && (own ==> before >= 1) ==> after <= limit && after + (if own then 1 else 0) == before + kept)
  }

  /** tmp_thread_count, max_threads and thread_limit. For the record, asked counts the calls of MakeThread
      and kept the threads on one element that ended, with their slot. */
  class Slots {
    var count: nat
    var maxThreads: nat
    const limit: nat
    ghost var asked: nat
    ghost var kept: nat

    constructor (limit: nat)
      ensures this.limit == limit && count == 0 && maxThreads == 0 && asked == 0 && kept == 0
    {
      this.limit, count, maxThreads, asked, kept := limit, 0, 0, 0, 0;
    }

    /** A call on one element returns. Nothing happens to the counter. */
    ghost method EndSingle(isThread: bool)
      modifies this`kept
      ensures kept == old(kept) + if isThread then 1 else 0
    {
      kept := kept + if isThread then 1 else 0;
    }

    method MakeThread() returns (ret: bool)
      modifies this
      ensures ret <==> old(count) < limit
      ensures count == old(count) + if ret then 1 else 0
      ensures maxThreads == if ret && count > old(maxThreads) then count else old(maxThreads)
      ensures asked == old(asked) + 1 && kept == old(kept)
    {
      asked := asked + 1;
      if count < limit {
        ret := true;
        count := count + 1;
        if count > maxThreads {
          maxThreads := count;
        }
      } else {
        ret := false;
      }
    }

    method DecrementTmpThreads()
      modifies this
      ensures count == if old(count) == 0 then UINT_MAX else old(count) - 1
      ensures maxThreads == old(maxThreads) && asked == old(asked) && kept == old(kept)
    {
      count := if count == 0 then UINT_MAX else count - 1;
    }
  }

  lemma TakeLeft(sorted: seq<Point>, l: seq<Point>, r: seq<Point>, i: nat, j: nat, d: nat)
    requires i < |l| && j <= |r| && (j == |r| || Coord(l[i], d) <= Coord(r[j], d))
    ensures sorted + S.Merge(l[i..], r[j..], d) == sorted + [l[i]] + S.Merge(l[i + 1..], r[j..], d)
  {
    assert l[i..] == [l[i]] + l[i + 1..] && l[i..][1..] == l[i + 1..];
    S.MergeEmpty(l[i + 1..], d);
    assert S.Merge(l[i..], r[j..], d) == [l[i]] + S.Merge(l[i + 1..], r[j..], d);
    Associative(sorted, [l[i]], S.Merge(l[i + 1..], r[j..], d));
  }

  lemma TakeRight(sorted: seq<Point>, l: seq<Point>, r: seq<Point>, i: nat, j: nat, d: nat)
    requires i <= |l| && j < |r| && (i == |l| || Coord(l[i], d) > Coord(r[j], d))
    ensures sorted + S.Merge(l[i..], r[j..], d) == sorted + [r[j]] + S.Merge(l[i..], r[j + 1..], d)
  {
    assert r[j..] == [r[j]] + r[j + 1..] && r[j..][1..] == r[j + 1..];
    assert S.Merge(l[i..], r[j..], d) == [r[j]] + S.Merge(l[i..], r[j + 1..], d);
    Associative(sorted, [r[j]], S.Merge(l[i..], r[j + 1..], d));
  }

  /** The merge loop of merge_sort. */
  method MergeLoop(l: seq<Point>, r: seq<Point>, d: nat) returns (sorted: seq<Point>)
    requires forall p :: p in l || p in r ==> d < |p|
    ensures sorted == S.Merge(l, r, d)
  {
    sorted := [];
    var i, j := 0, 0;
    while !(i == |l| && j == |r|)
      invariant 0 <= i <= |l| && 0 <= j <= |r|
      invariant sorted + S.Merge(l[i..], r[j..], d) == S.Merge(l, r, d)
      decreases |l| - i + |r| - j
    {
      if j == |r| {
        TakeLeft(sorted, l, r, i, j, d);
        sorted := sorted + [l[i]];
        i := i + 1;
      } else if i == |l| {
        TakeRight(sorted, l, r, i, j, d);
        sorted := sorted + [r[j]];
        j := j + 1;
      } else if l[i][d] <= r[j][d] {
        TakeLeft(sorted, l, r, i, j, d);
        sorted := sorted + [l[i]];
        i := i + 1;
      } else {
        TakeRight(sorted, l, r, i, j, d);
        sorted := sorted + [r[j]];
        j := j + 1;
      }
    }
  }

  lemma SortedShape(s: seq<Point>, d: nat)
    requires s != [] && forall p :: p in s ==> d < |p|
    ensures forall p :: p in S.MergeSort(s, d) ==> d < |p|
  {
    S.MergeSortIsStable(s, d);
    forall p | p in S.MergeSort(s, d) ensures d < |p| {
      assert p in multiset(s);
    }
  }

  lemma SortOne(a: seq<Point>, begin: nat, d: nat)
    requires begin < |a|
    ensures S.MergeSort(a[begin..begin + 1], d) == [a[begin]]
  {
  }

  lemma HalfSize(n: nat)
    requires n != 1
    ensures n / 2 >= 1 && n - n / 2 >= 1 <==> n != 0
  {
  }

  lemma SortHalves(a: seq<Point>, begin: nat, mid: nat, end: nat, d: nat)
    requires begin < mid < end <= |a| && mid == begin + (end - begin) / 2
    ensures S.MergeSort(a[begin..end], d) == S.Merge(S.MergeSort(a[begin..mid], d), S.MergeSort(a[mid..end], d), d)
  {
    var s, h := a[begin..end], (end - begin) / 2;
    assert s[..h] == a[begin..mid] && s[h..] == a[mid..end];
  }

  /** Info: what merge_sort hands to a thread. */
  class SortInfo {
    const a: seq<Point>
    const begin: nat
    const end: nat
    const depth: nat
    const dimension: nat

    constructor (a: seq<Point>, begin: nat, end: nat, depth: nat, dimension: nat)
      ensures this.a == a && this.begin == begin && this.end == end && this.depth == depth && this.dimension == dimension
    {
      this.a, this.begin, this.end, this.depth, this.dimension := a, begin, end, depth, dimension;
    }
  }

  /** A std::vector on the heap. */
  class Vector {
    const elems: seq<Point>

    constructor (elems: seq<Point>)
      ensures this.elems == elems
    {
      this.elems := elems;
    }
  }

  ghost predicate Sortable(a: seq<Point>, begin: nat, end: nat, d: nat) {
    begin <= end <= |a| && forall p :: p in a ==> d < |p|
  }

  /** wrapper: a sort in a thread of its own. */
  method Wrapper(info: SortInfo, forkDepth: nat, slots: Slots, heap: Allocator) returns (v: Vector)
    requires info in heap.live && Sortable(info.a, info.begin, info.end, info.dimension) && info.begin < info.end
    modifies slots, heap
    ensures fresh(v) && heap.live == old(heap.live) + {v} - {info}
    ensures v.elems == S.MergeSort(info.a[info.begin..info.end], info.dimension)
    ensures SlotsKept(old(slots.count), slots.count, slots.kept - old(slots.kept), slots.limit, true)
    ensures slots.asked == old(slots.asked) + SortAsks(info.end - info.begin, info.depth, forkDepth)
    decreases info.end - info.begin, 1
  {
    var sorted := MergeSort(info.a, info.begin, info.end, info.depth, info.dimension, true, forkDepth, slots, heap);
    v := new Vector(sorted.value);
    heap.Add(v);
    heap.Delete(info);
  }

  /** One half of a sort, in a thread if one is granted. */
  method SortHalf(a: seq<Point>, begin: nat, end: nat, depth: nat, d: nat, forkDepth: nat, slots: Slots, heap: Allocator)
    returns (v: Vector)
    requires Sortable(a, begin, end, d) && begin < end
    modifies slots, heap
    ensures fresh(v) && heap.live == old(heap.live) + {v}
    ensures v.elems == S.MergeSort(a[begin..end], d)
    ensures SlotsKept(old(slots.count), slots.count, slots.kept - old(slots.kept), slots.limit, false)
    ensures slots.asked == old(slots.asked) + (if depth < forkDepth then 1 else 0) + SortAsks(end - begin, depth + 1, forkDepth)
    decreases end - begin, 2
  {
    var spawned := AskThread(depth, forkDepth, slots);
    if spawned {
      var info := new SortInfo(a, begin, end, depth + 1, d);
      heap.Add(info);
      v := Wrapper(info, forkDepth, slots, heap);
    } else {
      var sorted := MergeSort(a, begin, end, depth + 1, d, false, forkDepth, slots, heap);
      v := new Vector(sorted.value);
      heap.Add(v);
    }
  }

  /** Merging the two halves and freeing them. */
  method MergeHalves(a: seq<Point>, begin: nat, mid: nat, end: nat, d: nat, l: Vector, r: Vector, heap: Allocator)
    returns (merged: seq<Point>)
    requires Sortable(a, begin, end, d) && begin < mid < end && mid == begin + (end - begin) / 2
    requires l in heap.live && r in heap.live && l != r
    requires l.elems == S.MergeSort(a[begin..mid], d) && r.elems == S.MergeSort(a[mid..end], d)
    modifies heap
    ensures merged == S.MergeSort(a[begin..end], d) && heap.live == old(heap.live) - {l, r}
  {
    SortedShape(a[begin..mid], d);
    SortedShape(a[mid..end], d);
    merged := MergeLoop(l.elems, r.elems, d);
    SortHalves(a, begin, mid, end, d);
    heap.Delete(l);
    heap.Delete(r);
  }

  /** merge_sort on the range [begin, end) of a: the stable sort, whatever make_thread answers, and all
      that was allocated on the way freed again. None: an empty range, whose halves fail the assertion. */
  method MergeSort(a: seq<Point>, begin: nat, end: nat, depth: nat, d: nat, isThread: bool, forkDepth: nat, slots: Slots,
                   heap: Allocator) returns (sorted: Option<seq<Point>>)
    requires Sortable(a, begin, end, d)
    modifies slots, heap
    ensures sorted == if begin == end then None else Some(S.MergeSort(a[begin..end], d))
    ensures heap.live == old(heap.live)
    ensures SlotsKept(old(slots.count), slots.count, slots.kept - old(slots.kept), slots.limit, isThread && sorted.Some?)
    ensures slots.asked == old(slots.asked) + SortAsks(end - begin, depth, forkDepth)
    ensures end - begin == 1 ==> slots.count == old(slots.count)
    decreases end - begin, 0, 1
  {
    if end - begin == 1 {
      SortOne(a, begin, d);
      slots.EndSingle(isThread);
      return Some([a[begin]]);
    }
    HalfSize(end - begin);
    HalvesAsks(end - begin, depth, forkDepth);
    var mid := begin + (end - begin) / 2;
    if !(mid - begin >= 1 && end - mid >= 1) {
      return None;
    }
    var merged := SortHalvesAndMerge(a, begin, mid, end, depth, d, forkDepth, slots, heap);
    if isThread {
      slots.DecrementTmpThreads();
    }
    sorted := Some(merged);
  }

  method SortHalvesAndMerge(a: seq<Point>, begin: nat, mid: nat, end: nat, depth: nat, d: nat, forkDepth: nat, slots: Slots,
                            heap: Allocator) returns (merged: seq<Point>)
    requires Sortable(a, begin, end, d) && begin < mid < end && mid == begin + (end - begin) / 2
    modifies slots, heap
    ensures merged == S.MergeSort(a[begin..end], d) && heap.live == old(heap.live)
    ensures SlotsKept(old(slots.count), slots.count, slots.kept - old(slots.kept), slots.limit, false)
    ensures slots.asked == old(slots.asked) + OwnAsks(depth, forkDepth)
      + SortAsks(mid - begin, depth + 1, forkDepth) + SortAsks(end - mid, depth + 1, forkDepth)
    decreases end - begin, 0, 0
  {
    var l := SortHalf(a, begin, mid, depth, d, forkDepth, slots, heap);
    var r := SortHalf(a, mid, end, depth, d, forkDepth, slots, heap);
    merged := MergeHalves(a, begin, mid, end, d, l, r, heap);
  }

  /** get_median_and_split. */
  method GetMedian(a: seq<Point>, d: nat) returns (median: real)
    requires a != [] && forall p :: p in a ==> d < |p|
    ensures median == Median(a, d)
  {
    var idx := |a| / 2;
    if |a| % 2 == 1 {
      median := a[idx][d];
    } else {
      median := (a[idx][d] + a[idx - 1][d]) / 2.0;
    }
  }

  /** The loop that shares the points out to the two sides. */
  method ShareOut(a: seq<Point>, d: nat, median: real) returns (left: seq<Point>, right: seq<Point>)
    requires forall p :: p in a ==> d < |p|
    ensures left == Lower(a, d, median) && right == Upper(a, d, median)
  {
    left, right := [], [];
    for i := 0 to |a|
      invariant left + Lower(a[i..], d, median) == Lower(a, d, median)
      invariant right + Upper(a[i..], d, median) == Upper(a, d, median)
    {
      NextShared(left, right, a, i, d, median);
      if a[i][d] < median {
        left := left + [a[i]];
      } else {
        right := right + [a[i]];
      }
    }
  }

  lemma NextShared(left: seq<Point>, right: seq<Point>, a: seq<Point>, i: nat, d: nat, median: real)
    requires i < |a|
    ensures var low := Coord(a[i], d) < median;
      && left + Lower(a[i..], d, median) == (if low then left + [a[i]] else left) + Lower(a[i + 1..], d, median)
      && right + Upper(a[i..], d, median) == (if low then right else right + [a[i]]) + Upper(a[i + 1..], d, median)
  {
    assert a[i..][1..] == a[i + 1..];
    Associative(left, [a[i]], Lower(a[i + 1..], d, median));
    Associative(right, [a[i]], Upper(a[i + 1..], d, median));
  }

  method CycleDimensions(dim: nat, dims: nat) returns (next: nat)
    requires dims >= 1
    ensures next == NextDim(dim, dims)
  {
    if dim < dims - 1 {
      return dim + 1;
    }
    return 0;
  }

  /** c is in the left or right child slot of parent, and the other slot still holds other. */
  ghost predicate Linked(parent: Node, right: bool, c: Node?, other: Node?)
    reads parent
  {
    if right then parent.rChild == c && parent.lChild == other else parent.lChild == c && parent.rChild == other
  }

  /** The child slot, or the one on the other side. */
  ghost function Slot(parent: Node, right: bool): Node?
    reads parent
  {
    if right then parent.rChild else parent.lChild
  }

  lemma ShapedParts(a: seq<Point>, dims: nat, d: nat, m: real)
    requires Shaped(a, dims)
    ensures Shaped(Lower(a, d, m), dims) && Shaped(Upper(a, d, m), dims)
  {
    PartitionMultiset(a, d, m);
    var lo, up := Lower(a, d, m), Upper(a, d, m);
    forall i | 0 <= i < |lo| ensures |lo[i]| == dims { assert lo[i] in a; }
    forall i | 0 <= i < |up| ensures |up[i]| == dims { assert up[i] in a; }
  }

  lemma ShapedHas(a: seq<Point>, dims: nat, d: nat)
    requires Shaped(a, dims) && d < dims
    ensures forall p :: p in a ==> d < |p|
  {
  }

  /** The median of the sorted sample, and the loop that shares out all the points. */
  method SplitAt(a: seq<Point>, end: nat, d: nat, dims: nat, sorted: seq<Point>)
    returns (median: real, left: seq<Point>, right: seq<Point>)
    requires 1 <= end <= |a| && d < dims && Shaped(a, dims) && sorted == S.MergeSort(a[..end], d)
    ensures |sorted| == end && median == SampleMedian(a, end, d)
    ensures left == Lower(a, d, median) && right == Upper(a, d, median)
    ensures Shaped(left, dims) && Shaped(right, dims)
  {
    ShapedHas(a, dims, d);
    SortedShape(a[..end], d);
    S.MergeSortIsStable(a[..end], d);
    median := GetMedian(sorted, d);
    left, right := ShareOut(a, d, median);
    ShapedParts(a, dims, d, median);
  }

  /** Sorting the sample, taking its median, and sharing out all the points. */
  method SplitPoints(a: seq<Point>, end: nat, d: nat, depth: nat, dims: nat, forkDepth: nat, slots: Slots, heap: Allocator)
    returns (size: nat, median: real, left: seq<Point>, right: seq<Point>)
    requires 1 <= end <= |a| && d < dims && Shaped(a, dims)
    modifies slots, heap
    ensures size == end && median == SampleMedian(a, end, d)
    ensures left == Lower(a, d, median) && right == Upper(a, d, median)
    ensures Shaped(left, dims) && Shaped(right, dims)
    ensures slots.asked == old(slots.asked) + SortAsks(end, depth, forkDepth)
    ensures heap.live == old(heap.live) && SlotsKept(old(slots.count), slots.count, slots.kept - old(slots.kept), slots.limit, false)
  {
    ShapedHas(a, dims, d);
    assert a[0..end] == a[..end];
    var sorted := MergeSort(a, 0, end, depth, d, false, forkDepth, slots, heap);
    median, left, right := SplitAt(a, end, d, dims, sorted.value);
    size := |sorted.value|;
  }

  /** Whether the next callee of a call at this depth gets a thread of its own. */
  method AskThread(depth: nat, forkDepth: nat, slots: Slots) returns (spawned: bool)
    modifies slots
    ensures spawned <==> depth < forkDepth && old(slots.count) < slots.limit
    ensures slots.count == old(slots.count) + if spawned then 1 else 0
    ensures slots.asked == old(slots.asked) + (if depth < forkDepth then 1 else 0) && slots.kept == old(slots.kept)
  {
    spawned := false;
    if depth < forkDepth {
      spawned := slots.MakeThread();
    }
  }

  /** new node_info. */
  method NewInfo(n: Node, right: bool, part: seq<Point>, depth: nat, next: nat, isThread: bool, heap: Allocator)
    returns (info: NodeInfo)
    modifies heap
    ensures fresh(info) && heap.live == old(heap.live) + {info}
    ensures info.a == part && info.depth == depth && info.dimension == next && info.right == right && info.parent == n
    ensures info.isThread == isThread
  {
    info := new NodeInfo(part, depth, next, right, n, isThread);
    heap.Add(info);
  }

  /** new Node, hung into the slot of this call. */
  method NewChild(info: NodeInfo, median: real, size: nat, heap: Allocator) returns (n: Node)
    modifies heap, info.parent`lChild, info.parent`rChild
    ensures fresh(n) && n.dimension == info.dimension && n.median == median && n.numPts == size
    ensures n.lChild == null && n.rChild == null && n.point == None && n.parent == info.parent && n.Repr == {n}
    ensures heap.live == old(heap.live) + {n}
    ensures Linked(info.parent, info.right, n, old(Slot(info.parent, !info.right)))
  {
    n := new Node(info.dimension, median, size);
    heap.Add(n);
    n.parent := info.parent;
    if info.right { info.parent.rChild := n; } else { info.parent.lChild := n; }
  }

  lemma JoinShows(n: Node, lc: Node?, rc: Node?, l: Tree, r: Tree)
    requires n.lChild == lc && n.rChild == rc && n.point == None && n.Repr == {n} + ReprOf(lc) + ReprOf(rc)
    requires n !in ReprOf(lc) && n !in ReprOf(rc) && ReprOf(lc) !! ReprOf(rc)
    requires Shows(lc, l, n, ReprOf(lc)) && Shows(rc, r, n, ReprOf(rc))
    ensures Shows(n, Split(n.dimension, n.median, n.numPts, l, r), n.parent, n.Repr)
  {
    ShowsOwn(lc, l, n);
    ShowsOwn(rc, r, n);
  }

  lemma ShowsOwn(c: Node?, t: Tree, parent: Node?)
    requires Shows(c, t, parent, ReprOf(c))
    ensures c != null ==> c in c.Repr
  {
  }

  /** The second call below a new inner node, whose left subtree is in place. */
  method RunRight(n: Node, ghost l: Node?, ghost lt: Tree, info: NodeInfo, dims: nat, forkDepth: nat, slots: Slots,
                  heap: Allocator)
    requires info in heap.live && info.parent == n && info.right
    requires info.dimension < dims && Shaped(info.a, dims) && Splits(info.a, info.dimension, dims)
    requires n.lChild == l && n.rChild == null && n.point == None && n !in ReprOf(l) && Shows(l, lt, n, ReprOf(l))
    modifies slots, heap, n`lChild, n`rChild, n`Repr
    ensures n in n.Repr && ReprOf(l) <= n.Repr && fresh(n.Repr - {n} - ReprOf(l))
    ensures heap.live == old(heap.live) - {info} + (n.Repr - {n} - ReprOf(l))
    ensures Shows(n, Split(n.dimension, n.median, n.numPts, lt, BuildTree(info.a, info.dimension, dims)), n.parent, n.Repr)
    ensures SlotsKept(old(slots.count), slots.count, slots.kept - old(slots.kept), slots.limit, info.isThread)
    ensures slots.asked == old(slots.asked) + TreeAsks(BuildTree(info.a, info.dimension, dims), info.depth, forkDepth)
    decreases |info.a|, Wait(info.a, info.dimension, dims), 4
  {
    ghost var lr := ReprOf(l);
    ghost var r := PopulateNodes(info, dims, forkDepth, slots, heap);
    assert ReprOf(l) == lr && lr !! ReprOf(r);
    n.Repr := {n} + lr + ReprOf(r);
    JoinShows(n, l, r, lt, BuildTree(info.a, info.dimension, dims));
    assert n.Repr - {n} - lr == ReprOf(r);
  }

  method RunRightChild(n: Node, ghost l: Node?, ghost lt: Tree, right: seq<Point>, depth: nat, next: nat,
                       dims: nat, forkDepth: nat, slots: Slots, heap: Allocator)
    requires next < dims && Shaped(right, dims) && Splits(right, next, dims)
    requires n.lChild == l && n.rChild == null && n.point == None && n !in ReprOf(l) && Shows(l, lt, n, ReprOf(l))
    modifies slots, heap, n`lChild, n`rChild, n`Repr
    ensures n in n.Repr && ReprOf(l) <= n.Repr && fresh(n.Repr - {n} - ReprOf(l))
    ensures heap.live == old(heap.live) + (n.Repr - {n} - ReprOf(l))
    ensures Shows(n, Split(n.dimension, n.median, n.numPts, lt, BuildTree(right, next, dims)), n.parent, n.Repr)
    ensures SlotsKept(old(slots.count), slots.count, slots.kept - old(slots.kept), slots.limit, false)
    ensures slots.asked == old(slots.asked) + (if depth < forkDepth then 1 else 0) + TreeAsks(BuildTree(right, next, dims), depth + 1, forkDepth)
    decreases |right|, Wait(right, next, dims), 5
  {
    var spawned := AskThread(depth, forkDepth, slots);
    var info := NewInfo(n, true, right, depth + 1, next, spawned, heap);
    RunRight(n, l, lt, info, dims, forkDepth, slots, heap);
  }

  /** The first call below a new inner node: in a thread of its own if one is granted, else inline. */
  method RunChild(n: Node, right: bool, part: seq<Point>, depth: nat, next: nat, dims: nat, forkDepth: nat,
                  slots: Slots, heap: Allocator) returns (ghost c: Node?)
    requires next < dims && Shaped(part, dims) && Splits(part, next, dims) && Slot(n, right) == null
    modifies slots, heap, n`lChild, n`rChild
    ensures Linked(n, right, c, old(Slot(n, !right)))
    ensures heap.live == old(heap.live) + ReprOf(c) && fresh(ReprOf(c))
    ensures Shows(c, BuildTree(part, next, dims), n, ReprOf(c))
    ensures SlotsKept(old(slots.count), slots.count, slots.kept - old(slots.kept), slots.limit, false)
    ensures slots.asked == old(slots.asked) + (if depth < forkDepth then 1 else 0) + TreeAsks(BuildTree(part, next, dims), depth + 1, forkDepth)
    decreases |part|, Wait(part, next, dims), 4
  {
    var spawned := AskThread(depth, forkDepth, slots);
    var info := NewInfo(n, right, part, depth + 1, next, spawned, heap);
    c := PopulateNodes(info, dims, forkDepth, slots, heap);
  }

  /** Both calls below a new inner node, the left one first. */
  method RunChildren(n: Node, a: seq<Point>, dim: nat, left: seq<Point>, right: seq<Point>, depth: nat, next: nat,
                     dims: nat, forkDepth: nat, slots: Slots, heap: Allocator)
    requires |a| >= 2 && dim < dims && Splits(a, dim, dims)
    requires left == LeftPart(a, dim) && right == RightPart(a, dim) && next == NextDim(dim, dims)
    requires Shaped(left, dims) && Shaped(right, dims)
    requires n.lChild == null && n.rChild == null && n.point == None
    modifies slots, heap, n`lChild, n`rChild, n`Repr
    ensures n in n.Repr && fresh(n.Repr - {n}) && heap.live == old(heap.live) + (n.Repr - {n})
    ensures Shows(n, Split(n.dimension, n.median, n.numPts, BuildTree(left, next, dims), BuildTree(right, next, dims)),
                  n.parent, n.Repr)
    ensures SlotsKept(old(slots.count), slots.count, slots.kept - old(slots.kept), slots.limit, false)
    ensures slots.asked == old(slots.asked) + OwnAsks(depth, forkDepth)
      + TreeAsks(BuildTree(left, next, dims), depth + 1, forkDepth) + TreeAsks(BuildTree(right, next, dims), depth + 1, forkDepth)
    decreases |a|, Wait(a, dim, dims), 0
  {
    WaitDecreases(a, dim, dims);
    ghost var l := RunChild(n, false, left, depth, next, dims, forkDepth, slots, heap);
    RunRightChild(n, l, BuildTree(left, next, dims), right, depth, next, dims, forkDepth, slots, heap);
  }

  /** populate_nodes on one point. */
  method BuildLeaf(info: NodeInfo, heap: Allocator) returns (n: Node)
    requires |info.a| == 1 && info in heap.live
    modifies heap, info.parent`lChild, info.parent`rChild
    ensures Linked(info.parent, info.right, n, old(Slot(info.parent, !info.right)))
    ensures heap.live == old(heap.live) - {info} + n.Repr && fresh(n.Repr)
    ensures Shows(n, Leaf(info.dimension, info.a[0]), info.parent, n.Repr)
  {
    n := NewChild(info, 0.0, 1, heap);
    n.point := Some(info.a[0]);
    heap.Delete(info);
  }

  /** The common end of populate_nodes. */
  method EndCall(info: NodeInfo, slots: Slots, heap: Allocator)
    requires info in heap.live
    modifies slots, heap
    ensures heap.live == old(heap.live) - {info}
    ensures slots.count == if !info.isThread then old(slots.count) else if old(slots.count) == 0 then UINT_MAX else old(slots.count) - 1
    ensures slots.asked == old(slots.asked) && slots.kept == old(slots.kept)
    ensures SlotsKept(old(slots.count), slots.count, slots.kept - old(slots.kept), slots.limit, info.isThread)
  {
    if info.isThread {
      slots.DecrementTmpThreads();
    }
    heap.Delete(info);
  }

  /** The new inner node, still without children, and the two sides of its points. */
  method SplitNode(info: NodeInfo, dims: nat, forkDepth: nat, slots: Slots, heap: Allocator)
    returns (n: Node, left: seq<Point>, right: seq<Point>)
    requires |info.a| >= 2 && info.dimension < dims && Shaped(info.a, dims)
    modifies slots, heap, info.parent`lChild, info.parent`rChild
    ensures left == LeftPart(info.a, info.dimension) && right == RightPart(info.a, info.dimension)
    ensures Shaped(left, dims) && Shaped(right, dims)
    ensures fresh(n) && n.lChild == null && n.rChild == null && n.point == None && n.parent == info.parent
    ensures n.dimension == info.dimension && n.numPts == SampleEnd(|info.a|)
    ensures n.median == SampleMedian(info.a, n.numPts, info.dimension)
    ensures Linked(info.parent, info.right, n, old(Slot(info.parent, !info.right)))
    ensures heap.live == old(heap.live) + {n}
    ensures SlotsKept(old(slots.count), slots.count, slots.kept - old(slots.kept), slots.limit, false)
    ensures slots.asked == old(slots.asked) + SortAsks(SampleEnd(|info.a|), info.depth, forkDepth)
  {
    var localEnd := if |info.a| < 100 then |info.a| else |info.a| / 4;
    var size, median;
    size, median, left, right := SplitPoints(info.a, localEnd, info.dimension, info.depth, dims, forkDepth, slots, heap);
    n := NewChild(info, median, size, heap);
  }

  /** A new inner node with both its subtrees. */
  method FillNode(info: NodeInfo, dims: nat, forkDepth: nat, slots: Slots, heap: Allocator) returns (n: Node)
    requires |info.a| >= 2
    requires info.dimension < dims && Shaped(info.a, dims) && Splits(info.a, info.dimension, dims)
    modifies slots, heap, info.parent`lChild, info.parent`rChild
    ensures Linked(info.parent, info.right, n, old(Slot(info.parent, !info.right)))
    ensures heap.live == old(heap.live) + n.Repr && fresh(n.Repr)
    ensures var (lp, rp, next) := (LeftPart(info.a, info.dimension), RightPart(info.a, info.dimension), NextDim(info.dimension, dims));
      Shows(n, Split(info.dimension, SampleMedian(info.a, SampleEnd(|info.a|), info.dimension), SampleEnd(|info.a|),
                     BuildTree(lp, next, dims), BuildTree(rp, next, dims)), info.parent, n.Repr)
    ensures SlotsKept(old(slots.count), slots.count, slots.kept - old(slots.kept), slots.limit, false)
    ensures var (lp, rp, next) := (LeftPart(info.a, info.dimension), RightPart(info.a, info.dimension), NextDim(info.dimension, dims));
      slots.asked == old(slots.asked) + SortAsks(SampleEnd(|info.a|), info.depth, forkDepth) + OwnAsks(info.depth, forkDepth)
        + TreeAsks(BuildTree(lp, next, dims), info.depth + 1, forkDepth) + TreeAsks(BuildTree(rp, next, dims), info.depth + 1, forkDepth)
    decreases |info.a|, Wait(info.a, info.dimension, dims), 1
  {
    var left, right;
    n, left, right := SplitNode(info, dims, forkDepth, slots, heap);
    var next := CycleDimensions(info.dimension, dims);
    RunChildren(n, info.a, info.dimension, left, right, info.depth, next, dims, forkDepth, slots, heap);
  }

  /** populate_nodes on two or more points. */
  method BuildInner(info: NodeInfo, dims: nat, forkDepth: nat, slots: Slots, heap: Allocator) returns (n: Node)
    requires |info.a| >= 2
    requires info.dimension < dims && Shaped(info.a, dims) && Splits(info.a, info.dimension, dims)
    modifies slots, heap, info.parent`lChild, info.parent`rChild
    ensures Linked(info.parent, info.right, n, old(Slot(info.parent, !info.right)))
    ensures heap.live == old(heap.live) + n.Repr && fresh(n.Repr)
    ensures Shows(n, BuildTree(info.a, info.dimension, dims), info.parent, n.Repr)
    ensures SlotsKept(old(slots.count), slots.count, slots.kept - old(slots.kept), slots.limit, false)
    ensures slots.asked == old(slots.asked) + TreeAsks(BuildTree(info.a, info.dimension, dims), info.depth, forkDepth)
    decreases |info.a|, Wait(info.a, info.dimension, dims), 2
  {
    n := FillNode(info, dims, forkDepth, slots, heap);
    InnerTree(info.a, info.dimension, dims);
    InnerAsks(info.a, info.dimension, dims, info.depth, forkDepth);
  }

  /** populate_nodes: fills its own child slot with the sequential kd-tree of its points, touches no other
      slot of an existing node, frees the node_info it was given, and allocates the nodes and nothing else
      that stays. */
  method PopulateNodes(info: NodeInfo, dims: nat, forkDepth: nat, slots: Slots, heap: Allocator) returns (ghost c: Node?)
    requires info in heap.live
    requires info.dimension < dims && Shaped(info.a, dims) && Splits(info.a, info.dimension, dims)
    requires Slot(info.parent, info.right) == null
    modifies slots, heap, info.parent`lChild, info.parent`rChild
    ensures Linked(info.parent, info.right, c, old(Slot(info.parent, !info.right)))
    ensures heap.live == old(heap.live) - {info} + ReprOf(c) && fresh(ReprOf(c))
    ensures Shows(c, BuildTree(info.a, info.dimension, dims), info.parent, ReprOf(c))
    ensures SlotsKept(old(slots.count), slots.count, slots.kept - old(slots.kept), slots.limit, info.isThread)
    ensures slots.asked == old(slots.asked) + TreeAsks(BuildTree(info.a, info.dimension, dims), info.depth, forkDepth)
    ensures |info.a| == 1 ==> slots.count == old(slots.count)
    decreases |info.a|, Wait(info.a, info.dimension, dims), 3
  {
    c := null;
    FewAsks(info.a, info.dimension, dims, info.depth, forkDepth);
    if |info.a| != 0 {
      if |info.a| == 1 {
        c := BuildLeaf(info, heap);
        slots.EndSingle(info.isThread);
        return;
      }
      c := BuildInner(info, dims, forkDepth, slots, heap);
    }
    EndCall(info, slots, heap);
  }

  /** Of two node_infos the first has gone while the nodes of a subtree have come. */
  lemma RootLive(live: set<object>, l: object, r: object, nodes: set<object>)
    requires l !in live && r !in live && l != r && r !in nodes
    ensures live + {l} + {r} - {l} + nodes - {r} == live + nodes
  {
  }

  /** make_tree either builds, or finds no points and exits, or is stopped by the assertion in merge_sort
      because its sample is empty. */
  datatype BuildResult = Built | NoPoints | EmptySample

  class Knn {
    const cores: nat
    const dims: nat
    const trainPts: seq<Point>
    const heap: Allocator
    var root: Node?
    var slots: Slots

    constructor (cores: nat, dims: nat, trainPts: seq<Point>)
      ensures this.cores == cores && this.dims == dims && this.trainPts == trainPts && root == null
      ensures fresh(heap) && heap.live == {}
    {
      this.cores, this.dims, this.trainPts, root := cores, dims, trainPts, null;
      heap := new Allocator();
      slots := new Slots(0);
    }

    /** make_tree: the sequential kd-tree of all training points, each node allocated once, and nothing
        else left allocated. With a limit of at least 2 the slot counter ends within it. */
    method MakeTree() returns (result: BuildResult)
      requires dims >= 1 && Shaped(trainPts, dims) && root == null
      requires |trainPts| >= 4 ==> RootSplits(trainPts, dims)
      modifies this`root, this`slots, heap
      ensures result == if trainPts == [] then NoPoints else if 2 <= |trainPts| <= 3 then EmptySample else Built
      ensures result.Built? ==>
        && Shows(root, BuildRoot(trainPts, dims), null, ReprOf(root))
        && fresh(ReprOf(root)) && heap.live == old(heap.live) + ReprOf(root)
      ensures !result.Built? ==> root == null && heap.live == old(heap.live)
      ensures fresh(slots) && slots.limit == ThreadLimit(cores) && (slots.limit >= 2 ==> slots.count <= slots.limit)
      ensures result.Built? ==> slots.asked == RootAsks(BuildRoot(trainPts, dims), ForkDepth(cores))
    {
      slots := new Slots(ThreadLimit(cores));
      var forkDepth := ForkDepth(cores);
      if |trainPts| == 0 {
        return NoPoints;
      }
      if |trainPts| == 1 {
        root := SinglePoint();
        return Built;
      }
      result := SortAndBuild(forkDepth, slots);
    }

    /** make_tree for two points or more. */
    method SortAndBuild(forkDepth: nat, slots: Slots) returns (result: BuildResult)
      requires dims >= 1 && Shaped(trainPts, dims) && root == null && |trainPts| >= 2 && slots.asked == 0
      requires |trainPts| >= 4 ==> RootSplits(trainPts, dims)
      modifies this`root, slots, heap
      ensures result == if |trainPts| <= 3 then EmptySample else Built
      ensures result.Built? ==>
        && Shows(root, BuildRoot(trainPts, dims), null, ReprOf(root))
        && fresh(ReprOf(root)) && heap.live == old(heap.live) + ReprOf(root)
        && slots.asked == RootAsks(BuildRoot(trainPts, dims), forkDepth)
      ensures !result.Built? ==> root == null && heap.live == old(heap.live)
      ensures slots.limit >= 2 && old(slots.count) <= slots.limit ==> slots.count <= slots.limit
    {
      ShapedHas(trainPts, dims, 0);
      var sorted := MergeSort(trainPts, 0, |trainPts| / 4, 0, 0, false, forkDepth, slots, heap);
      if sorted.None? {
        return EmptySample;
      }
      root := BuildRootNode(sorted.value, forkDepth, slots);
      result := Built;
    }

    method SinglePoint() returns (n: Node)
      requires |trainPts| == 1 && dims >= 1
      modifies heap
      ensures Shows(n, BuildRoot(trainPts, dims), null, n.Repr)
      ensures fresh(n.Repr) && heap.live == old(heap.live) + n.Repr
      ensures forall forkDepth :: RootAsks(BuildRoot(trainPts, dims), forkDepth) == 0
    {
      n := new Node(0, 0.0, 1);
      heap.Add(n);
      n.point := Some(trainPts[0]);
    }

    /** make_tree once the sample is sorted. */
    method BuildRootNode(sorted: seq<Point>, forkDepth: nat, slots: Slots) returns (n: Node)
      requires dims >= 1 && Shaped(trainPts, dims) && |trainPts| >= 4 && RootSplits(trainPts, dims)
      requires sorted == S.MergeSort(trainPts[0..|trainPts| / 4], 0)
      requires slots.asked == SortAsks(|trainPts| / 4, 0, forkDepth)
      modifies slots, heap
      ensures Shows(n, BuildRoot(trainPts, dims), null, n.Repr)
      ensures fresh(n.Repr) && heap.live == old(heap.live) + n.Repr
      ensures slots.limit >= 2 && old(slots.count) <= slots.limit ==> slots.count <= slots.limit
      ensures slots.asked == RootAsks(BuildRoot(trainPts, dims), forkDepth)
    {
      assert trainPts[0..|trainPts| / 4] == trainPts[..|trainPts| / 4];
      var median, left, right := SplitAt(trainPts, |trainPts| / 4, 0, dims, sorted);
      n := new Node(0, median, |trainPts|);
      heap.Add(n);
      RootTasks(n, left, right, forkDepth, slots);
    }

    /** The two questions make_tree asks before its first task. With a limit of at least 2 there are then
        two slots to give back, granted to its tasks or kept by others. */
    method LeftRootTask(n: Node, info: NodeInfo, forkDepth: nat, slots: Slots) returns (ghost l: Node?)
      requires info in heap.live && info.parent == n && !info.right && n.lChild == null && info.isThread
      requires info.dimension < dims && Shaped(info.a, dims) && Splits(info.a, info.dimension, dims)
      modifies slots, heap, n`lChild, n`rChild
      ensures n.lChild == l && n.rChild == old(n.rChild)
      ensures heap.live == old(heap.live) - {info} + ReprOf(l) && fresh(ReprOf(l))
      ensures Shows(l, BuildTree(info.a, info.dimension, dims), n, ReprOf(l))
      ensures slots.limit >= 2 && old(slots.count) <= slots.limit ==> 1 <= slots.count <= slots.limit
      ensures slots.asked == old(slots.asked) + 2 + TreeAsks(BuildTree(info.a, info.dimension, dims), info.depth, forkDepth)
    {
      var madeLeft := slots.MakeThread();
      var madeRight := slots.MakeThread();
      assert madeRight ==> madeLeft;
      l := PopulateNodes(info, dims, forkDepth, slots, heap);
    }

    method RootInfos(n: Node, left: seq<Point>, right: seq<Point>) returns (lInfo: NodeInfo, rInfo: NodeInfo)
      requires dims >= 1
      modifies heap
      ensures fresh(lInfo) && fresh(rInfo) && lInfo != rInfo && heap.live == old(heap.live) + {lInfo} + {rInfo}
      ensures lInfo.parent == rInfo.parent == n && !lInfo.right && rInfo.right
      ensures lInfo.a == left && rInfo.a == right && lInfo.dimension == rInfo.dimension == NextDim(0, dims)
      ensures lInfo.isThread && rInfo.isThread && lInfo.depth == rInfo.depth == 1
    {
      var next := CycleDimensions(0, dims);
      lInfo := NewInfo(n, false, left, 1, next, true, heap);
      rInfo := NewInfo(n, true, right, 1, next, true, heap);
    }

    /** The left task of make_tree; what the right one will get is allocated before. */
    method RootLeft(n: Node, left: seq<Point>, right: seq<Point>, forkDepth: nat, slots: Slots)
      returns (ghost l: Node?, rInfo: NodeInfo)
      requires dims >= 1 && n.lChild == null && n.rChild == null
      requires Shaped(left, dims) && Splits(left, NextDim(0, dims), dims)
      modifies slots, heap, n`lChild, n`rChild
      ensures n.lChild == l && n.rChild == null
      ensures fresh(rInfo) && rInfo.parent == n && rInfo.right && rInfo.isThread && rInfo.depth == 1
      ensures rInfo.a == right && rInfo.dimension == NextDim(0, dims)
      ensures fresh(ReprOf(l)) && rInfo in heap.live && heap.live - {rInfo} == old(heap.live) + ReprOf(l)
      ensures Shows(l, BuildTree(left, NextDim(0, dims), dims), n, ReprOf(l))
      ensures slots.limit >= 2 && old(slots.count) <= slots.limit ==> 1 <= slots.count <= slots.limit
      ensures slots.asked == old(slots.asked) + 2 + TreeAsks(BuildTree(left, NextDim(0, dims), dims), 1, forkDepth)
    {
      var lInfo;
      lInfo, rInfo := RootInfos(n, left, right);
      l := LeftRootTask(n, lInfo, forkDepth, slots);
      RootLive(old(heap.live), lInfo, rInfo, ReprOf(l));
    }

    /** The two tasks of make_tree, both marked is_thread. Granting the right one a thread implies granting
        the left one, so with threads that run to their end at once the left task always goes first. */
    method RootTasks(n: Node, left: seq<Point>, right: seq<Point>, forkDepth: nat, slots: Slots)
      requires dims >= 1 && n.lChild == null && n.rChild == null && n.point == None
      requires Shaped(left, dims) && Splits(left, NextDim(0, dims), dims)
      requires Shaped(right, dims) && Splits(right, NextDim(0, dims), dims)
      modifies slots, heap, n`lChild, n`rChild, n`Repr
      ensures n in n.Repr && fresh(n.Repr - {n}) && heap.live == old(heap.live) + (n.Repr - {n})
      ensures var next := NextDim(0, dims);
        Shows(n, Split(n.dimension, n.median, n.numPts, BuildTree(left, next, dims), BuildTree(right, next, dims)), n.parent, n.Repr)
      ensures slots.limit >= 2 && old(slots.count) <= slots.limit ==> slots.count <= slots.limit
      ensures slots.asked == old(slots.asked) + 2 + TreeAsks(BuildTree(left, NextDim(0, dims), dims), 1, forkDepth)
        + TreeAsks(BuildTree(right, NextDim(0, dims), dims), 1, forkDepth)
    {
      ghost var l;
      var rInfo;
      l, rInfo := RootLeft(n, left, right, forkDepth, slots);
      RunRight(n, l, BuildTree(left, NextDim(0, dims), dims), rInfo, dims, forkDepth, slots, heap);
    }

    /** ~KNN: frees every node once; what was allocated besides stays. */
    method Destroy()
      requires exists t :: Shows(root, t, null, ReprOf(root))
      requires ReprOf(root) <= heap.live
      modifies heap
      ensures heap.live == old(heap.live) - ReprOf(root)
    {
      ghost var t :| Shows(root, t, null, ReprOf(root));
      DeleteNodes(root, heap, t, null);
    }
  }

  /** delete_nodes: children first, then the node itself. Allocator.Delete demands that a node is still
      live, so no node is freed twice. */
  method DeleteNodes(node: Node?, heap: Allocator, ghost t: Tree, ghost parent: Node?)
    requires Shows(node, t, parent, ReprOf(node)) && ReprOf(node) <= heap.live
    modifies heap
    ensures heap.live == old(heap.live) - ReprOf(node)
    decreases ReprOf(node)
  {
    if node != null {
      DeleteNodes(node.lChild, heap, if t.Split? then t.left else Empty, node);
      DeleteNodes(node.rChild, heap, if t.Split? then t.right else Empty, node);
      heap.Delete(node);
    }
  }

  /** Building and tearing down leaves nothing allocated. */
  method BuildAndDestroy(cores: nat, dims: nat, pts: seq<Point>) returns (knn: Knn)
    requires dims >= 1 && Shaped(pts, dims) && RootSplits(pts, dims)
    ensures fresh(knn) && knn.heap.live == {}
  {
    knn := new Knn(cores, dims, pts);
    var result := knn.MakeTree();
    knn.Destroy();
  }
}
