/** Block locators: a logarithmic list of a node's blocks, from which a peer finds the last one it shares. */
module Locator {
  import opened Basics
  import opened BlockTree
  import opened ChainSpec
  import opened ChainLaws

  function Power2(k: nat): (p: nat)
    ensures p > 0
  {
    if k == 0 then 1 else 2 * Power2(k - 1)
  }

  /** How deep below the tip the i-th entry is: 0, 1, ..., 11, 13, 17, 25, ... */
  function DepthOf(i: nat): nat { if i <= 10 then i else 9 + Power2(i - 10) }

  /** The step from entry i to the next. */
  function StepOf(i: nat): nat { if i <= 10 then 1 else Power2(i - 10) }

  lemma DepthStep(i: nat)
    ensures DepthOf(i + 1) == DepthOf(i) + StepOf(i) && StepOf(i + 1) == if i >= 10 then 2 * StepOf(i) else StepOf(i)
  {
  }

  lemma {:induction false} DepthIncreases(i: nat, j: nat)
    requires i < j
    ensures DepthOf(i) < DepthOf(j)
  {
    DepthStep(j - 1);
    if i < j - 1 { DepthIncreases(i, j - 1); }
  }

  /** Entry i is at depth i up to eleven, and less than twice the depth before it plus one beyond. */
  lemma DepthsAreDense(i: nat)
    ensures i <= 11 ==> DepthOf(i) == i
    ensures i >= 11 ==> DepthOf(i + 1) < 2 * (DepthOf(i) + 1)
  {
    DepthStep(i);
  }

  /** The locator of the last block of a chain p has n entries for blocks of p, and genesis. */
  ghost predicate IsLocator(vHave: seq<Hash>, p: seq<Hash>, genesis: Hash, n: nat) {
    && |vHave| == n + 1 && vHave[n] == genesis
    && (forall i :: 0 <= i < n ==> EntryAt(vHave, p, i))
    && DepthOf(n) >= |p|
  }

  ghost predicate EntryAt(vHave: seq<Hash>, p: seq<Hash>, i: nat)
    requires i < |vHave|
  {
    DepthOf(i) < |p| && vHave[i] == p[|p| - 1 - DepthOf(i)]
  }

  /** The length of a locator is logarithmic in the height. */
  lemma LocatorIsShort(vHave: seq<Hash>, p: seq<Hash>, genesis: Hash, n: nat)
    requires IsLocator(vHave, p, genesis, n) && n > 11
    ensures Power2(|vHave| - 12) < |p|
  {
    assert EntryAt(vHave, p, n - 1);
  }

  class BlockLocator {
    var vHave: seq<Hash>

    constructor ()
      ensures vHave == []
    {
      vHave := [];
    }

    /** Walks back from a block, in steps that double after the first ten. */
    method Set(t: Tree, h: Hash, hashGenesisBlock: Hash, ghost p: seq<Hash>) returns (ghost n: nat)
      requires p != [] && IsChain(t, p) && Last(p) == h
      modifies this
      ensures IsLocator(vHave, p, hashGenesisBlock, n)
    {
      vHave := [];
      var nStep := 1;
      n := 0;
      var pindex := Some(h);
      while pindex.Some?
        invariant n == |vHave| && nStep == StepOf(n)
        invariant pindex == if DepthOf(n) < |p| then Some(p[|p| - 1 - DepthOf(n)]) else None
        invariant forall i :: 0 <= i < n ==> EntryAt(vHave, p, i)
        decreases |p| - DepthOf(n)
      {
        ghost var before := vHave;
        vHave := vHave + [pindex.value];
        forall i | 0 <= i < n + 1 ensures EntryAt(vHave, p, i) { assert i < n ==> EntryAt(before, p, i); }
        DepthStep(n);
        pindex := StepBack(t, pindex.value, nStep, p, |p| - 1 - DepthOf(n));
        if |vHave| > 10 { nStep := nStep * 2; }
        n := n + 1;
      }
      ghost var before := vHave;
      vHave := vHave + [hashGenesisBlock];
      forall i | 0 <= i < n ensures EntryAt(vHave, p, i) { assert EntryAt(before, p, i); }
    }

    /** The first entry in the receiver's main chain. */
    method GetBlockIndex(s: Chain, genesis: Hash) returns (h: Hash)
      ensures h == FirstShared(s, vHave, genesis)
    {
      for i := 0 to |vHave|
        invariant FirstShared(s, vHave[i..], genesis) == FirstShared(s, vHave, genesis)
      {
        assert vHave[i..][0] == vHave[i] && vHave[i..][1..] == vHave[i + 1..];
        if vHave[i] in s.tree && IsInMainChain(s, vHave[i]) { return vHave[i]; }
      }
      h := genesis;
    }

    /** Retraces the depth of that entry in the sender's chain. */
    method GetDistanceBack(s: Chain) returns (nDistance: nat)
      ensures nDistance == DepthOf(SharedAt(s, vHave))
    {
      nDistance := 0;
      var nStep := 1;
      for i := 0 to |vHave|
        invariant nDistance == DepthOf(i) && nStep == StepOf(i)
        invariant SharedAt(s, vHave) == i + SharedAt(s, vHave[i..])
      {
        assert vHave[i..][0] == vHave[i] && vHave[i..][1..] == vHave[i + 1..];
        if vHave[i] in s.tree && IsInMainChain(s, vHave[i]) { return; }
        DepthStep(i);
        nDistance := nDistance + nStep;
        if nDistance > 10 { nStep := nStep * 2; }
      }
    }
  }

  /** nStep blocks back, or None past genesis. */
  method StepBack(t: Tree, h: Hash, nStep: nat, ghost p: seq<Hash>, ghost k: nat) returns (r: Option<Hash>)
    requires IsChain(t, p) && k < |p| && p[k] == h
    ensures r == if nStep <= k then Some(p[k - nStep]) else None
  {
    r := Some(h);
    var i := 0;
    while r.Some? && i < nStep
      invariant 0 <= i <= nStep && r == if i <= k then Some(p[k - i]) else None
      invariant r.None? ==> k < i
    {
      assert ChainAt(t, p, k - i);
      r := if t[r.value].height == 0 then None else Some(t[r.value].prev);
      i := i + 1;
    }
  }

  predicate Shared(s: Chain, h: Hash) { h in s.tree && IsInMainChain(s, h) }

  function FirstShared(s: Chain, vHave: seq<Hash>, genesis: Hash): Hash {
    if vHave == [] then genesis else if Shared(s, vHave[0]) then vHave[0] else FirstShared(s, vHave[1..], genesis)
  }

  function SharedAt(s: Chain, vHave: seq<Hash>): (i: nat)
    ensures i <= |vHave|
    ensures i < |vHave| ==> Shared(s, vHave[i])
    ensures forall j :: 0 <= j < i ==> !Shared(s, vHave[j])
  {
    if vHave == [] || Shared(s, vHave[0]) then 0
    else
      var i := SharedAt(s, vHave[1..]);
      assert forall j :: 1 <= j < i + 1 ==> vHave[j] == vHave[1..][j - 1];
      i + 1
  }

  lemma {:induction false} FirstIsAt(s: Chain, vHave: seq<Hash>, genesis: Hash)
    ensures FirstShared(s, vHave, genesis)
            == if SharedAt(s, vHave) < |vHave| then vHave[SharedAt(s, vHave)] else genesis
  {
    if vHave != [] && !Shared(s, vHave[0]) { FirstIsAt(s, vHave[1..], genesis); }
  }

  // ---------- what the receiver finds ----------

  /** p is the sender's chain, and the receiver's main chain shares exactly its first c blocks. */
  ghost predicate SharesPrefix(s: Chain, p: seq<Hash>, c: nat) {
    0 < c <= |p| && forall k :: 0 <= k < |p| ==> (Shared(s, p[k]) <==> k < c)
  }

  /** Chains of one tree of blocks share a prefix: the blocks up to the fork. */
  lemma SharedIsPrefix(s: Chain, g: Hash, all: Tree, p: seq<Hash>)
    requires Good(s, g) && IsChain(all, p) && p != [] && p[0] == g
    requires forall h :: h in s.tree ==> h in all && all[h] == s.tree[h]
    ensures SharesPrefix(s, p, CommonPrefix(p, Path(s.tree, g, s.best)))
  {
    var q := Path(s.tree, g, s.best);
    var c := CommonPrefix(p, q);
    PathEnds(s.tree, g, s.best);
    PathIsChain(s.tree, g, s.best);
    assert p[..1] == q[..1];
    CommonPrefixMaximal(p, q, 1);
    forall i | 0 <= i < |q| ensures ChainAt(all, q, i) { assert ChainAt(s.tree, q, i); }
    forall k | 0 <= k < |p| ensures Shared(s, p[k]) <==> k < c {
      InMainChainIffAncestor(s, g, p[k]);
      SharedPosition(all, p, q, k);
    }
  }

  lemma SharedPosition(all: Tree, p: seq<Hash>, q: seq<Hash>, k: nat)
    requires IsChain(all, p) && IsChain(all, q) && k < |p|
    ensures p[k] in q <==> k < CommonPrefix(p, q)
  {
    var c := CommonPrefix(p, q);
    if k < c {
      assert p[k] == p[..c][k] == q[..c][k] == q[k];
    } else if p[k] in q {
      var j :| 0 <= j < |q| && q[j] == p[k];
      ChainsMeet(all, p, q, k, j);
      CommonPrefixMaximal(p, q, k + 1);
    }
  }

  lemma {:induction false} ChainsMeet(t: Tree, p: seq<Hash>, q: seq<Hash>, i: nat, j: nat)
    requires IsChain(t, p) && IsChain(t, q) && i < |p| && j < |q| && p[i] == q[j]
    ensures i == j && p[..i + 1] == q[..i + 1]
  {
    assert ChainAt(t, p, i) && ChainAt(t, q, j);
    if i > 0 {
      ChainsMeet(t, p, q, i - 1, j - 1);
      assert p[..i + 1] == p[..i] + [p[i]] && q[..i + 1] == q[..i] + [q[i]];
    }
  }

  /** With the fork d blocks below the sender's tip, the receiver finds a shared block at depth d if d is at
      most eleven, and at a depth below twice d otherwise. */
  lemma FindsSharedBlock(s: Chain, vHave: seq<Hash>, p: seq<Hash>, n: nat, c: nat) returns (depth: nat)
    requires p != [] && IsLocator(vHave, p, p[0], n) && SharesPrefix(s, p, c)
    ensures |p| - c <= depth < |p| && FirstShared(s, vHave, p[0]) == p[|p| - 1 - depth]
    ensures Shared(s, p[|p| - 1 - depth])
    ensures |p| - c <= 11 ==> depth == |p| - c
    ensures |p| - c > 11 ==> depth < 2 * (|p| - c)
    ensures SharedAt(s, vHave) < n ==> depth == DepthOf(SharedAt(s, vHave))
    ensures SharedAt(s, vHave) >= n ==> depth == |p| - 1
  {
    var d, i := |p| - c, SharedAt(s, vHave);
    FirstIsAt(s, vHave, p[0]);
    assert Shared(s, p[0]) && vHave[n] == p[0];
    assert i <= n;
    if i < n {
      depth := DepthOf(i);
      assert EntryAt(vHave, p, i);
    } else {
      depth := |p| - 1;
    }
    if i > 0 {
      assert EntryAt(vHave, p, i - 1) && !Shared(s, vHave[i - 1]);
      DepthsAreDense(i - 1);
      DepthsAreDense(i);
    }
  }

  /** The distance retraced is the true depth of the block found, unless only the trailing genesis matched. */
  lemma DistanceIsDepth(s: Chain, vHave: seq<Hash>, p: seq<Hash>, n: nat, c: nat)
    requires p != [] && IsLocator(vHave, p, p[0], n) && SharesPrefix(s, p, c)
    ensures var distance := DepthOf(SharedAt(s, vHave));
      if SharedAt(s, vHave) < n then distance < |p| && FirstShared(s, vHave, p[0]) == p[|p| - 1 - distance]
      else FirstShared(s, vHave, p[0]) == p[0] && distance > |p| - 1
  {
    var depth := FindsSharedBlock(s, vHave, p, n, c);
    FirstIsAt(s, vHave, p[0]);
    assert Shared(s, p[0]) && vHave[n] == p[0];
  }

  /** A sender's locator, read by a receiver in a consistent state. */
  method LocateFork(all: Tree, tip: Hash, s: Chain, genesis: Hash, ghost p: seq<Hash>)
    returns (h: Hash, ghost depth: nat)
    requires Good(s, genesis) && IsChain(all, p) && p != [] && p[0] == genesis && Last(p) == tip
    requires forall x :: x in s.tree ==> x in all && all[x] == s.tree[x]
    ensures depth < |p| && h == p[|p| - 1 - depth] && IsAncestor(s.tree, genesis, h, s.best)
    ensures var d := |p| - CommonPrefix(p, Path(s.tree, genesis, s.best));
      if d <= 11 then depth == d else d <= depth < 2 * d
  {
    var locator := new BlockLocator();
    ghost var n := locator.Set(all, tip, genesis, p);
    h := locator.GetBlockIndex(s, genesis);
    SharedIsPrefix(s, genesis, all, p);
    depth := FindsSharedBlock(s, locator.vHave, p, n, CommonPrefix(p, Path(s.tree, genesis, s.best)));
    InMainChainIffAncestor(s, genesis, h);
  }
}
