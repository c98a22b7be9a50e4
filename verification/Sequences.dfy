/** Facts about sequences and their elements that the proofs use by name. */
module Sequences {
  lemma Associative<T>(a: seq<T>, b: seq<T>, c: seq<T>)
    ensures a + (b + c) == a + b + c
  {
  }

  lemma Tail<T>(x: seq<T>, y: seq<T>)
    requires x != []
    ensures x + y != [] && (x + y)[0] == x[0] && (x + y)[1..] == x[1..] + y
  {
  }

  lemma Inserted<T>(x: seq<T>, c: T, y: seq<T>)
    ensures multiset(x + ([c] + y)) == multiset(x + y) + multiset{c}
  {
  }

  lemma Elements<T>(s: seq<T>)
    requires s != []
    ensures s == [s[0]] + s[1..] && multiset(s) == multiset{s[0]} + multiset(s[1..])
    ensures multiset(s) - multiset{s[0]} == multiset(s[1..])
    ensures forall x :: x in s <==> x == s[0] || x in s[1..]
  {
    assert s == [s[0]] + s[1..];
  }

  function Reverse<T>(s: seq<T>): seq<T> {
    if s == [] then [] else Reverse(s[1..]) + [s[0]]
  }

  lemma {:induction false} ReverseFacts<T>(s: seq<T>)
    ensures |Reverse(s)| == |s| && multiset(Reverse(s)) == multiset(s)
    ensures forall i :: 0 <= i < |s| ==> Reverse(s)[i] == s[|s| - 1 - i]
  {
    if s != [] {
      ReverseFacts(s[1..]);
      Elements(s);
      Inserted(Reverse(s[1..]), s[0], []);
      assert Reverse(s[1..]) + ([s[0]] + []) == Reverse(s) && Reverse(s[1..]) + [] == Reverse(s[1..]);
    }
  }

  /** n indices in a row. */
  function Indices(start: nat, n: nat): seq<nat> {
    seq(n, i requires 0 <= i < n => start + i)
  }

  lemma IndicesJoin(start: nat, n: nat, m: nat)
    ensures Indices(start, n) + Indices(start + n, m) == Indices(start, n + m)
  {
  }
}
