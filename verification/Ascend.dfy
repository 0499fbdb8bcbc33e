/** Iterating over a set of integers in ascending order, as std::set and std::map do. */
module Ascend {
  import opened Basics

  ghost predicate Ascends(q: seq<int>, s: set<int>) {
    && |q| == |s| && (forall x :: x in q <==> x in s)
    && forall i, j :: 0 <= i < j < |q| ==> q[i] < q[j]
  }

  /** A set can be listed in ascending order in one way only. */
  lemma {:induction false} AscendsUnique(q: seq<int>, r: seq<int>, s: set<int>)
    requires Ascends(q, s) && Ascends(r, s)
    ensures q == r
  {
    if q != [] {
      var x, y := Last(q), Last(r);
      assert q == Front(q) + [x] && r == Front(r) + [y];
      assert x in q && y in r && x in r && y in q;
      assert x == y;
      AscendsFront(q, s);
      AscendsFront(r, s);
      AscendsUnique(Front(q), Front(r), s - {x});
    }
  }

  lemma AscendsFront(q: seq<int>, s: set<int>)
    requires Ascends(q, s) && q != []
    ensures Ascends(Front(q), s - {Last(q)})
  {
    assert q == Front(q) + [Last(q)];
    assert Last(q) in q;
    forall x ensures x in Front(q) <==> x in s - {Last(q)} { assert x in q <==> x in s; }
  }

  ghost function Sorted(s: set<int>): seq<int> {
    if exists q :: Ascends(q, s) then var q :| Ascends(q, s); q else []
  }

  /** The elements of a set in ascending order, as std::set iterates. */
  method Ascending(s: set<int>) returns (q: seq<int>)
    ensures Ascends(q, s)
  {
    q := [];
    var left := s;
    while left != {}
      invariant left <= s && |q| + |left| == |s|
      invariant forall x :: x in s <==> x in left || x in q
      invariant forall x, y :: x in q && y in left ==> x < y
      invariant forall i, j :: 0 <= i < j < |q| ==> q[i] < q[j]
      decreases |left|
    {
      var x := Least(left);
      assert forall i :: 0 <= i < |q| ==> q[i] in q;
      q := q + [x];
      left := left - {x};
    }
  }

  lemma SomeElement(s: set<int>)
    requires s != {}
    ensures exists x :: x in s
  {
    assert (forall x :: x !in s) ==> s == {};
  }

  lemma SameElements(a: set<int>, b: set<int>)
    requires forall x :: x in a <==> x in b
    ensures a == b
  {
    assert (forall x :: x in a <==> x in b) ==> a == b;
  }

  method Least(s: set<int>) returns (m: int)
    requires s != {}
    ensures m in s && forall x :: x in s ==> m <= x
  {
    SomeElement(s);
    var first :| first in s;
    m := first;
    var left := s - {m};
    while left != {}
      invariant left <= s && m in s && forall x :: x in s && x !in left ==> m <= x
      decreases |left|
    {
      SomeElement(left);
      var x :| x in left;
      left := left - {x};
      if x < m { m := x; }
    }
  }
}
