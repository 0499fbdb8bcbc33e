/** The pointer walks over the block tree: each follows pprev or pnext along a chain. */
module ChainWalk {
  import opened Basics
  import opened BlockTree
  import opened ChainSpec
  import opened ChainLaws

  /** Chains that meet at some position agree below it. */
  lemma {:induction false} ChainsAgree(t: Tree, p: seq<Hash>, q: seq<Hash>, i: nat, j: nat)
    requires IsChain(t, p) && IsChain(t, q) && i < |p| && j < |q| && p[i] == q[j]
    ensures i == j && forall m :: 0 <= m <= i ==> p[m] == q[m]
  {
    assert ChainAt(t, p, i) && ChainAt(t, q, j);
    if i > 0 {
      ChainsAgree(t, p, q, i - 1, j - 1);
    }
  }

  /** k is where p and q part. */
  ghost predicate PartAt(p: seq<Hash>, q: seq<Hash>, k: nat) {
    && 0 < k <= |p| && k <= |q| && p[..k] == q[..k]
    && (k < |p| && k < |q| ==> p[k] != q[k])
  }

  lemma MeetBelowPart(t: Tree, p: seq<Hash>, q: seq<Hash>, k: nat, i: nat, j: nat)
    requires IsChain(t, p) && IsChain(t, q) && PartAt(p, q, k) && i < |p| && j < |q| && p[i] == q[j]
    ensures i < k
  {
    ChainsAgree(t, p, q, i, j);
  }

  /** Walks two pointers, from a down p and from b down q, until they meet: at the fork. */
  method FindFork(t: Tree, a: Hash, b: Hash, ghost p: seq<Hash>, ghost q: seq<Hash>, ghost k: nat) returns (pfork: Hash)
    requires IsChain(t, p) && IsChain(t, q) && PartAt(p, q, k) && a == Last(p) && b == Last(q)
    ensures pfork == p[k - 1]
  {
    assert p[..k][k - 1] == q[..k][k - 1];
    ghost var i, j: int := |p| - 1, |q| - 1;
    pfork := a;
    var plonger := b;
    while pfork != plonger
      invariant k - 1 <= i < |p| && k - 1 <= j < |q| && pfork == p[i] && plonger == q[j]
      decreases i
    {
      assert ChainAt(t, p, i) && ChainAt(t, q, j);
      while t[plonger].height > t[pfork].height
        invariant k - 1 <= j < |q| && plonger == q[j] && ChainAt(t, q, j)
        decreases j
      {
        assert ChainAt(t, q, j - 1);
        plonger := t[plonger].prev;
        j := j - 1;
      }
      if pfork == plonger { break; }
      pfork := t[pfork].prev;
      i := i - 1;
    }
    MeetBelowPart(t, p, q, k, i, j);
  }

  /** r lists s backwards. */
  ghost predicate IsReverse(s: seq<Hash>, r: seq<Hash>) {
    |r| == |s| && forall x :: 0 <= x < |r| ==> r[x] == s[|s| - 1 - x]
  }

  /** The blocks from pindex down to just above pfork. */
  method ListDown(t: Tree, pindex: Hash, pfork: Hash, ghost p: seq<Hash>, ghost k: nat) returns (list: seq<Hash>)
    requires IsChain(t, p) && 0 < k <= |p| && pindex == Last(p) && pfork == p[k - 1]
    ensures IsReverse(p[k..], list)
  {
    ChainDistinct(t, p);
    list := [];
    var at := pindex;
    while at != pfork
      invariant |list| <= |p| - k && at == p[|p| - 1 - |list|]
      invariant forall x :: 0 <= x < |list| ==> list[x] == p[|p| - 1 - x]
      decreases |p| - |list|
    {
      assert ChainAt(t, p, |p| - 1 - |list|);
      list := list + [at];
      at := t[at].prev;
    }
  }

  method Reversed(list: seq<Hash>) returns (r: seq<Hash>)
    ensures IsReverse(list, r)
    ensures forall s :: IsReverse(s, list) ==> r == s
  {
    r := [];
    for i := 0 to |list|
      invariant |r| == i && forall x :: 0 <= x < i ==> r[i - 1 - x] == list[x]
    {
      r := [list[i]] + r;
    }
  }

  /** Walks down from pindexNew while the parent outweighs the current chain. */
  method FindIntermediate(t: Tree, pindexNew: Hash, trust: nat, ghost q: seq<Hash>)
    returns (pindexIntermediate: Hash, secondary: seq<Hash>)
    requires IsChain(t, q) && q != [] && Known(t, q) && pindexNew == Last(q)
    ensures var i := FirstHeavier(t, q, |q| - 1, trust);
      pindexIntermediate == q[i] && IsReverse(q[i + 1..], secondary)
  {
    ghost var i := |q| - 1;
    pindexIntermediate, secondary := pindexNew, [];
    assert ChainAt(t, q, i);
    while t[pindexIntermediate].height > 0 && HasHeavyParent(t, pindexIntermediate, trust)
      invariant 0 <= i < |q| && pindexIntermediate == q[i] && ChainAt(t, q, i)
      invariant FirstHeavier(t, q, i, trust) == FirstHeavier(t, q, |q| - 1, trust)
      invariant |secondary| == |q| - 1 - i && forall x :: 0 <= x < |secondary| ==> secondary[x] == q[|q| - 1 - x]
      decreases i
    {
      assert ChainAt(t, q, i - 1);
      secondary := secondary + [pindexIntermediate];
      pindexIntermediate := t[pindexIntermediate].prev;
      i := i - 1;
    }
    assert i > 0 ==> ChainAt(t, q, i - 1);
  }

  predicate HasHeavyParent(t: Tree, h: Hash, trust: nat)
    requires h in t
  {
    t[h].prev in t && t[t[h].prev].trust > trust
  }

  /** Walks pprev from the end of p down to a height. */
  method WalkBack(t: Tree, from: Hash, nHeight: nat, ghost p: seq<Hash>) returns (found: Hash)
    requires IsChain(t, p) && nHeight < |p| && from == Last(p)
    ensures found == p[nHeight]
  {
    ghost var i := |p| - 1;
    found := from;
    assert ChainAt(t, p, i);
    while t[found].height > nHeight
      invariant nHeight <= i < |p| && found == p[i] && ChainAt(t, p, i)
      decreases i
    {
      assert ChainAt(t, p, i - 1);
      found := t[found].prev;
      i := i - 1;
    }
  }

  /** From any block of the chain p, walks pprev down or pnext up to the wanted height. */
  method WalkToHeight(t: Tree, next: map<Hash, Hash>, from: Hash, nHeight: nat, ghost p: seq<Hash>)
    returns (found: Hash)
    requires IsChain(t, p) && nHeight < |p| && from in p
    requires forall i :: 0 <= i < |p| - 1 ==> p[i] in next && next[p[i]] == p[i + 1]
    ensures found == p[nHeight]
  {
    ghost var i :| 0 <= i < |p| && p[i] == from;
    found := from;
    assert ChainAt(t, p, i);
    while t[found].height > nHeight
      invariant 0 <= i < |p| && found == p[i] && ChainAt(t, p, i)
      decreases i
    {
      assert ChainAt(t, p, i - 1);
      found := t[found].prev;
      i := i - 1;
    }
    while t[found].height < nHeight
      invariant 0 <= i <= nHeight && found == p[i] && ChainAt(t, p, i)
      decreases nHeight - i
    {
      assert ChainAt(t, p, i + 1);
      found := next[found];
      i := i + 1;
    }
  }
}
