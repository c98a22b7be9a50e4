/** The merge sort of knnClass.cpp, as a specification function, and why its result is the only
    stable sort of its input. */
module StableSort {
  import opened Points
  import opened Sequences

  /** The merge loop: on equal keys the left element goes first. */
  function Merge(x: seq<Point>, y: seq<Point>, d: nat): seq<Point> {
    if x == [] then y
    else if y == [] then x
    else if Coord(x[0], d) <= Coord(y[0], d) then [x[0]] + Merge(x[1..], y, d)
    else [y[0]] + Merge(x, y[1..], d)
  }

  lemma MergeEmpty(x: seq<Point>, d: nat)
    ensures Merge(x, [], d) == x
  {
  }

  function MergeSort(s: seq<Point>, d: nat): seq<Point>
    requires s != []
    decreases |s|
  {
    if |s| == 1 then s
    else Merge(MergeSort(s[..|s|/2], d), MergeSort(s[|s|/2..], d), d)
  }

  predicate Sorted(s: seq<Point>, d: nat) {
    forall i, j :: 0 <= i < j < |s| ==> Coord(s[i], d) <= Coord(s[j], d)
  }

  /** The elements of s whose key is v, in order. */
  function WithKey(s: seq<Point>, d: nat, v: real): seq<Point> {
    if s == [] then []
    else (if Coord(s[0], d) == v then [s[0]] else []) + WithKey(s[1..], d, v)
  }

  /** Sorted, a permutation, and equal keys stay in input order. */
  ghost predicate StableSortOf(out: seq<Point>, s: seq<Point>, d: nat) {
    && Sorted(out, d)
    && multiset(out) == multiset(s)
    && forall v :: WithKey(out, d, v) == WithKey(s, d, v)
  }

  lemma {:induction false} WithKeyConcat(x: seq<Point>, y: seq<Point>, d: nat, v: real)
    ensures WithKey(x + y, d, v) == WithKey(x, d, v) + WithKey(y, d, v)
  {
    if x == [] {
      assert x + y == y;
    } else {
      WithKeyConcat(x[1..], y, d, v);
      Tail(x, y);
      Associative(if Coord(x[0], d) == v then [x[0]] else [], WithKey(x[1..], d, v), WithKey(y, d, v));
    }
  }

  lemma WithKeyCons(p: Point, s: seq<Point>, d: nat, v: real)
    ensures WithKey([p] + s, d, v) == (if Coord(p, d) == v then [p] else []) + WithKey(s, d, v)
  {
    assert ([p] + s)[1..] == s;
  }

  lemma {:induction false} WithKeyMember(s: seq<Point>, d: nat, v: real)
    ensures WithKey(s, d, v) != [] <==> exists i :: 0 <= i < |s| && Coord(s[i], d) == v
  {
    if s != [] {
      WithKeyMember(s[1..], d, v);
      if i :| 0 <= i < |s| && Coord(s[i], d) == v {
        assert i > 0 ==> s[1..][i - 1] == s[i];
      }
    }
  }

  lemma {:induction false} MergeMultiset(x: seq<Point>, y: seq<Point>, d: nat)
    ensures multiset(Merge(x, y, d)) == multiset(x) + multiset(y)
    decreases |x| + |y|
  {
    if x != [] && y != [] {
      if Coord(x[0], d) <= Coord(y[0], d) {
        MergeMultiset(x[1..], y, d);
        Elements(x);
      } else {
        MergeMultiset(x, y[1..], d);
        Elements(y);
      }
    }
  }

  lemma SortedCons(p: Point, s: seq<Point>, d: nat)
    requires Sorted(s, d)
    requires forall q :: q in s ==> Coord(p, d) <= Coord(q, d)
    ensures Sorted([p] + s, d)
  {
    var t := [p] + s;
    forall i, j | 0 <= i < j < |t| ensures Coord(t[i], d) <= Coord(t[j], d) {
      assert t[j] == s[j - 1];
      assert i > 0 ==> t[i] == s[i - 1];
    }
  }

  lemma SortedHead(s: seq<Point>, d: nat)
    requires Sorted(s, d) && s != []
    ensures Sorted(s[1..], d)
    ensures forall q :: q in s ==> Coord(s[0], d) <= Coord(q, d)
  {
  }

  lemma {:induction false} MergeSorted(x: seq<Point>, y: seq<Point>, d: nat)
    requires Sorted(x, d) && Sorted(y, d)
    ensures Sorted(Merge(x, y, d), d)
    decreases |x| + |y|
  {
    if x != [] && y != [] {
      SortedHead(x, d);
      SortedHead(y, d);
      var (p, rest) := if Coord(x[0], d) <= Coord(y[0], d) then (x[0], Merge(x[1..], y, d))
                       else (y[0], Merge(x, y[1..], d));
      if Coord(x[0], d) <= Coord(y[0], d) {
        MergeSorted(x[1..], y, d);
        MergeMultiset(x[1..], y, d);
      } else {
        MergeSorted(x, y[1..], d);
        MergeMultiset(x, y[1..], d);
      }
      forall q | q in rest ensures Coord(p, d) <= Coord(q, d) {
        assert q in multiset(rest);
        assert q in x || q in y;
      }
      SortedCons(p, rest, d);
    }
  }

  lemma {:induction false} WithKeyAbsent(s: seq<Point>, d: nat, v: real)
    requires forall q :: q in s ==> Coord(q, d) != v
    ensures WithKey(s, d, v) == []
  {
    if s != [] {
      WithKeyAbsent(s[1..], d, v);
    }
  }

  lemma {:induction false} MergeStable(x: seq<Point>, y: seq<Point>, d: nat, v: real)
    requires Sorted(x, d) && Sorted(y, d)
    ensures WithKey(Merge(x, y, d), d, v) == WithKey(x, d, v) + WithKey(y, d, v)
    decreases |x| + |y|
  {
    if x != [] && y != [] {
      SortedHead(x, d);
      SortedHead(y, d);
      if Coord(x[0], d) <= Coord(y[0], d) {
        MergeStable(x[1..], y, d, v);
        WithKeyCons(x[0], Merge(x[1..], y, d), d, v);
        Associative(if Coord(x[0], d) == v then [x[0]] else [], WithKey(x[1..], d, v), WithKey(y, d, v));
      } else {
        MergeStable(x, y[1..], d, v);
        WithKeyCons(y[0], Merge(x, y[1..], d), d, v);
        if Coord(y[0], d) == v {
          WithKeyAbsent(x, d, v);
        }
      }
    }
  }

  /** merge_sort returns the stable sort of the range it is given. */
  lemma {:induction false} MergeSortIsStable(s: seq<Point>, d: nat)
    requires s != []
    ensures StableSortOf(MergeSort(s, d), s, d)
    ensures |MergeSort(s, d)| == |s|
    decreases |s|
  {
    if |s| > 1 {
      var a, b := s[..|s|/2], s[|s|/2..];
      assert s == a + b;
      MergeSortIsStable(a, d);
      MergeSortIsStable(b, d);
      var x, y := MergeSort(a, d), MergeSort(b, d);
      MergeSorted(x, y, d);
      MergeMultiset(x, y, d);
      forall v ensures WithKey(MergeSort(s, d), d, v) == WithKey(s, d, v) {
        MergeStable(x, y, d, v);
        WithKeyConcat(a, b, d, v);
      }
    }
    assert |multiset(MergeSort(s, d))| == |multiset(s)|;
  }

  lemma {:induction false} WithKeyHead(s: seq<Point>, d: nat)
    requires s != []
    ensures var w := WithKey(s, d, Coord(s[0], d)); w != [] && w[0] == s[0]
  {
  }

  /** There is only one stable sort: sortedness and the order among equal keys decide every element. */
  lemma {:induction false} StableSortUnique(a: seq<Point>, b: seq<Point>, d: nat)
    requires Sorted(a, d) && Sorted(b, d)
    requires forall v :: WithKey(a, d, v) == WithKey(b, d, v)
    ensures a == b
    decreases |a|
  {
    if a == [] {
      NoKeys(a, b, d);
    } else {
      SameHead(a, b, d);
      SameTails(a, b, d);
      StableSortUnique(a[1..], b[1..], d);
      HeadAndTail(a, b);
    }
  }

  lemma NoKeys(a: seq<Point>, b: seq<Point>, d: nat)
    requires a == [] && forall v :: WithKey(a, d, v) == WithKey(b, d, v)
    ensures b == []
  {
    if b != [] {
      assert WithKey(a, d, Coord(b[0], d)) == [];
      WithKeyHead(b, d);
    }
  }

  lemma HeadAndTail(a: seq<Point>, b: seq<Point>)
    requires a != [] && b != [] && a[0] == b[0] && a[1..] == b[1..]
    ensures a == b
  {
    assert a == [a[0]] + a[1..] && b == [b[0]] + b[1..];
  }

  lemma SameTail(a: seq<Point>, b: seq<Point>, d: nat, v: real)
    requires a != [] && b != [] && a[0] == b[0] && WithKey(a, d, v) == WithKey(b, d, v)
    ensures WithKey(a[1..], d, v) == WithKey(b[1..], d, v)
  {
    var h := if Coord(a[0], d) == v then [a[0]] else [];
    assert (h + WithKey(a[1..], d, v))[|h|..] == WithKey(a[1..], d, v);
    assert (h + WithKey(b[1..], d, v))[|h|..] == WithKey(b[1..], d, v);
  }

  lemma SameTails(a: seq<Point>, b: seq<Point>, d: nat)
    requires a != [] && b != [] && a[0] == b[0] && Sorted(a, d) && Sorted(b, d)
    requires forall v :: WithKey(a, d, v) == WithKey(b, d, v)
    ensures Sorted(a[1..], d) && Sorted(b[1..], d)
    ensures forall v :: WithKey(a[1..], d, v) == WithKey(b[1..], d, v)
  {
    forall v ensures WithKey(a[1..], d, v) == WithKey(b[1..], d, v) {
      SameTail(a, b, d, v);
    }
  }

  lemma SameHead(a: seq<Point>, b: seq<Point>, d: nat)
    requires Sorted(a, d) && Sorted(b, d) && a != []
    requires forall v :: WithKey(a, d, v) == WithKey(b, d, v)
    ensures b != [] && a[0] == b[0]
  {
    var v := Coord(a[0], d);
    WithKeyHead(a, d);
    WithKeyMember(b, d, v);
    assert WithKey(a, d, v) == WithKey(b, d, v);
    var w := Coord(b[0], d);
    WithKeyHead(b, d);
    WithKeyMember(a, d, w);
    assert WithKey(a, d, w) == WithKey(b, d, w);
  }
}
