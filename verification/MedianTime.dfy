/** The median time of the last eleven blocks, and why it never goes back. */
module MedianTime {
  import opened Basics
  import opened BlockTree
  import opened ChainLaws

  const MEDIAN_TIME_SPAN := 11

  /** How many elements are less than m. */
  function Below(w: seq<int>, m: int): nat {
    if w == [] then 0 else (if w[0] < m then 1 else 0) + Below(w[1..], m)
  }

  /** m is the element in the middle of the sorted window, the upper one of two. */
  predicate IsMedian(w: seq<int>, m: int) { Below(w, m) <= |w| / 2 < Below(w, m + 1) }

  lemma {:induction false} BelowMonotone(w: seq<int>, m: int, n: int)
    requires m <= n
    ensures Below(w, m) <= Below(w, n) <= |w|
  {
    if w != [] { BelowMonotone(w[1..], m, n); }
  }

  lemma {:induction false} BelowConcat(v: seq<int>, w: seq<int>, m: int)
    ensures Below(v + w, m) == Below(v, m) + Below(w, m)
  {
    if v == [] {
      assert v + w == w;
    } else {
      assert (v + w)[1..] == v[1..] + w;
      BelowConcat(v[1..], w, m);
    }
  }

  lemma MedianUnique(w: seq<int>, m: int, n: int)
    requires IsMedian(w, m) && IsMedian(w, n)
    ensures m == n
  {
    if m < n { BelowMonotone(w, m + 1, n); } else if n < m { BelowMonotone(w, n + 1, m); }
  }

  // ---------- sorting ----------

  ghost predicate Ordered(s: seq<int>) { forall i, j :: 0 <= i <= j < |s| ==> s[i] <= s[j] }

  function Insert(x: int, s: seq<int>): seq<int> {
    if s == [] || x <= s[0] then [x] + s else [s[0]] + Insert(x, s[1..])
  }

  function Sorted(s: seq<int>): seq<int> { if s == [] then [] else Insert(s[0], Sorted(s[1..])) }

  lemma {:induction false} InsertOrdered(x: int, s: seq<int>)
    requires Ordered(s)
    ensures Ordered(Insert(x, s)) && |Insert(x, s)| == |s| + 1
    ensures forall y :: y in Insert(x, s) ==> y == x || y in s
  {
    if s != [] && x > s[0] {
      InsertOrdered(x, s[1..]);
      var r := Insert(x, s[1..]);
      assert forall y :: y in s[1..] ==> y in s;
      forall k | 0 <= k < |r| ensures s[0] <= r[k] {
        var y := r[k];
        assert y in r;
      }
    }
  }

  lemma {:induction false} InsertBelow(x: int, s: seq<int>, m: int)
    ensures Below(Insert(x, s), m) == Below(s, m) + if x < m then 1 else 0
  {
    if s == [] || x <= s[0] {
      assert ([x] + s)[1..] == s;
    } else {
      InsertBelow(x, s[1..], m);
      assert Insert(x, s)[1..] == Insert(x, s[1..]);
    }
  }

  lemma {:induction false} SortedIsOrdered(s: seq<int>)
    ensures Ordered(Sorted(s)) && |Sorted(s)| == |s|
    ensures forall m :: Below(Sorted(s), m) == Below(s, m)
  {
    if s != [] {
      SortedIsOrdered(s[1..]);
      InsertOrdered(s[0], Sorted(s[1..]));
      forall m ensures Below(Sorted(s), m) == Below(s, m) { InsertBelow(s[0], Sorted(s[1..]), m); }
    }
  }

  lemma {:induction false} OrderedRank(s: seq<int>, j: nat)
    requires Ordered(s) && j < |s|
    ensures Below(s, s[j]) <= j < Below(s, s[j] + 1)
  {
    if j > 0 {
      OrderedRank(s[1..], j - 1);
    } else {
      NoneBelow(s, s[0]);
    }
  }

  lemma {:induction false} NoneBelow(s: seq<int>, m: int)
    requires forall i :: 0 <= i < |s| ==> m <= s[i]
    ensures Below(s, m) == 0
  {
    if s != [] { NoneBelow(s[1..], m); }
  }

  // ---------- the window ----------

  function Window(times: seq<int>): (w: seq<int>)
    ensures |w| == Min(|times|, MEDIAN_TIME_SPAN)
  {
    times[|times| - Min(|times|, MEDIAN_TIME_SPAN)..]
  }

  ghost function TimesOf(t: Tree, p: seq<Hash>): (times: seq<int>)
    requires IsChain(t, p)
    ensures |times| == |p|
  {
    seq(|p|, i requires 0 <= i < |p| => TimeAt(t, p, i))
  }

  ghost function TimeAt(t: Tree, p: seq<Hash>, i: nat): int
    requires IsChain(t, p) && i < |p|
  {
    assert ChainAt(t, p, i);
    t[p[i]].time
  }

  /** Walks back over at most eleven blocks and takes the middle of their sorted times. */
  method GetMedianTimePast(t: Tree, h: Hash, ghost p: seq<Hash>) returns (median: int)
    requires p != [] && IsChain(t, p) && Last(p) == h
    ensures IsMedian(Window(TimesOf(t, p)), median)
  {
    ghost var times := TimesOf(t, p);
    var pmedian := [];
    var pindex := Some(h);
    var i := 0;
    while i < MEDIAN_TIME_SPAN && pindex.Some?
      invariant 0 <= i <= MEDIAN_TIME_SPAN && i <= |p| && pmedian == times[|p| - i..]
      invariant pindex == if i < |p| then Some(p[|p| - 1 - i]) else None
    {
      assert ChainAt(t, p, |p| - 1 - i) && times[|p| - 1 - i] == TimeAt(t, p, |p| - 1 - i);
      var b := t[pindex.value];
      pmedian := [b.time] + pmedian;
      pindex := if b.height == 0 then None else Some(b.prev);
      i := i + 1;
    }
    assert pmedian == Window(times);
    var sorted := Sorted(pmedian);
    SortedIsOrdered(pmedian);
    OrderedRank(sorted, |sorted| / 2);
    median := sorted[|sorted| / 2];
  }

  // ---------- never decreasing ----------

  /** A block later than the median does not lower it. */
  lemma MedianNotLowered(times: seq<int>, time: int, m: int, n: int)
    requires times != [] && IsMedian(Window(times), m) && time > m && IsMedian(Window(times + [time]), n)
    ensures m <= n
  {
    var w, all := Window(times), times + [time];
    var kept := if |times| < MEDIAN_TIME_SPAN then w else w[1..];
    assert Window(all) == kept + [time];
    BelowConcat(kept, [time], m);
    assert Below([time], m) == 0;
    if n < m { BelowMonotone(Window(all), n + 1, m); }
  }

  /** The rule for timestamps: each block is later than the median of its parent. */
  ghost predicate Accepted(times: seq<int>) {
    forall k, m :: 0 < k < |times| && IsMedian(Window(times[..k]), m) ==> times[k] > m
  }

  lemma {:induction false} MedianExists(w: seq<int>)
    requires w != []
    ensures exists m :: IsMedian(w, m)
  {
    SortedIsOrdered(w);
    OrderedRank(Sorted(w), |w| / 2);
    assert IsMedian(w, Sorted(w)[|w| / 2]);
  }

  /** Along an accepted chain the median never decreases. */
  lemma {:induction false} MedianNeverDecreases(times: seq<int>, i: nat, j: nat, m: int, n: int)
    requires Accepted(times) && 0 < i <= j <= |times|
    requires IsMedian(Window(times[..i]), m) && IsMedian(Window(times[..j]), n)
    ensures m <= n
    decreases j
  {
    if i == j {
      MedianUnique(Window(times[..i]), m, n);
    } else {
      MedianExists(Window(times[..j - 1]));
      var l :| IsMedian(Window(times[..j - 1]), l);
      MedianNeverDecreases(times, i, j - 1, m, l);
      assert times[..j] == times[..j - 1] + [times[j - 1]];
      MedianNotLowered(times[..j - 1], times[j - 1], l, n);
    }
  }
}
