/** The block tree: every known block points to its parent, down to one genesis block. */
module BlockTree {
  import opened Basics
  import opened Ledger

  datatype BlockIndex = BlockIndex(prev: Hash, height: nat, trust: nat, time: int, txs: seq<Tx>)

  type Tree = map<Hash, BlockIndex>

  ghost predicate WfTree(t: Tree, g: Hash) {
    && g in t && t[g].height == 0
    && (forall h :: h in t && t[h].height == 0 ==> h == g)
    && (forall h {:trigger LinksToParent(t, h)} :: h in t && t[h].height > 0 ==> LinksToParent(t, h))
  }

  predicate LinksToParent(t: Tree, h: Hash)
    requires h in t
  {
    && t[h].prev in t
    && t[t[h].prev].height + 1 == t[h].height
    && t[t[h].prev].trust <= t[h].trust
  }

  /** The chain from genesis to h. */
  ghost function Path(t: Tree, g: Hash, h: Hash): (p: seq<Hash>)
    requires WfTree(t, g) && h in t
    ensures |p| == t[h].height + 1
    decreases t[h].height
  {
    if t[h].height == 0 then [h] else
      assert LinksToParent(t, h);
      Path(t, g, t[h].prev) + [h]
  }

  /** Position i of a path holds a block of height i whose own path is the first i+1 blocks. */
  lemma {:induction false} PathAt(t: Tree, g: Hash, h: Hash, i: nat)
    requires WfTree(t, g) && h in t && i <= t[h].height
    ensures Path(t, g, h)[i] in t && t[Path(t, g, h)[i]].height == i
    ensures Path(t, g, Path(t, g, h)[i]) == Path(t, g, h)[..i + 1]
    ensures i > 0 ==> t[Path(t, g, h)[i]].prev == Path(t, g, h)[i - 1]
    ensures t[Path(t, g, h)[i]].trust <= t[h].trust
    decreases t[h].height
  {
    var p := Path(t, g, h);
    assert t[h].height > 0 ==> LinksToParent(t, h);
    if i == t[h].height {
      assert p[..i + 1] == p;
    } else {
      PathAt(t, g, t[h].prev, i);
      assert p[..i + 1] == Path(t, g, t[h].prev)[..i + 1];
    }
  }

  lemma PathEnds(t: Tree, g: Hash, h: Hash)
    requires WfTree(t, g) && h in t
    ensures Path(t, g, h)[0] == g && Path(t, g, h)[t[h].height] == h
  {
    PathAt(t, g, h, 0);
  }

  /** Heights along a path are its positions, so it visits no block twice and membership fixes the position. */
  lemma PathPositions(t: Tree, g: Hash, h: Hash)
    requires WfTree(t, g) && h in t
    ensures forall i :: 0 <= i < |Path(t, g, h)| ==> Path(t, g, h)[i] in t && t[Path(t, g, h)[i]].height == i
    ensures forall a :: a in Path(t, g, h) ==> a in t && t[a].height <= t[h].height && Path(t, g, h)[t[a].height] == a
    ensures Distinct(Path(t, g, h))
  {
    forall i | 0 <= i < |Path(t, g, h)|
      ensures Path(t, g, h)[i] in t && t[Path(t, g, h)[i]].height == i
    {
      PathAt(t, g, h, i);
    }
  }

  /** Adding blocks changes no existing path. */
  lemma {:induction false} PathStable(t: Tree, t': Tree, g: Hash, h: Hash)
    requires WfTree(t, g) && WfTree(t', g) && h in t
    requires forall x :: x in t ==> x in t' && t'[x] == t[x]
    ensures Path(t', g, h) == Path(t, g, h)
    decreases t[h].height
  {
    if t[h].height > 0 {
      assert LinksToParent(t, h) && LinksToParent(t', h);
      PathStable(t, t', g, t[h].prev);
    }
  }

  // ---------- forks ----------

  /** Length of the longest common prefix. */
  ghost function CommonPrefix(p: seq<Hash>, q: seq<Hash>): (k: nat)
    ensures k <= |p| && k <= |q| && p[..k] == q[..k]
    ensures k < |p| && k < |q| ==> p[k] != q[k]
  {
    if p == [] || q == [] || p[0] != q[0] then 0
    else
      var k := CommonPrefix(p[1..], q[1..]);
      assert p[..k + 1] == [p[0]] + p[1..][..k] && q[..k + 1] == [q[0]] + q[1..][..k];
      k + 1
  }

  /** a is h or one of its ancestors. */
  ghost predicate IsAncestor(t: Tree, g: Hash, a: Hash, h: Hash)
    requires WfTree(t, g) && h in t
  {
    a in Path(t, g, h)
  }

  /** f is the fork of a and b: the highest common ancestor. */
  ghost predicate IsFork(t: Tree, g: Hash, f: Hash, a: Hash, b: Hash)
    requires WfTree(t, g) && a in t && b in t
  {
    && IsAncestor(t, g, f, a) && IsAncestor(t, g, f, b)
    && forall x :: IsAncestor(t, g, x, a) && IsAncestor(t, g, x, b) ==> x in t && f in t && t[x].height <= t[f].height
  }

  lemma {:induction false} CommonPrefixMaximal(p: seq<Hash>, q: seq<Hash>, n: nat)
    requires n <= |p| && n <= |q| && p[..n] == q[..n]
    ensures n <= CommonPrefix(p, q)
  {
    if n > 0 {
      assert p[0] == p[..n][0] && q[0] == q[..n][0];
      assert p[1..][..n - 1] == p[..n][1..] && q[1..][..n - 1] == q[..n][1..];
      CommonPrefixMaximal(p[1..], q[1..], n - 1);
    }
  }

  lemma CommonAncestorInPrefix(t: Tree, g: Hash, a: Hash, b: Hash, x: Hash)
    requires WfTree(t, g) && a in t && b in t && x in Path(t, g, a) && x in Path(t, g, b)
    ensures x in t && t[x].height < CommonPrefix(Path(t, g, a), Path(t, g, b))
  {
    PathPositions(t, g, a); PathPositions(t, g, b);
    PathAt(t, g, a, t[x].height); PathAt(t, g, b, t[x].height);
    CommonPrefixMaximal(Path(t, g, a), Path(t, g, b), t[x].height + 1);
  }

  /** The last block of the common prefix of two paths is their fork, and it always exists. */
  lemma ForkIsCommonPrefix(t: Tree, g: Hash, a: Hash, b: Hash)
    requires WfTree(t, g) && a in t && b in t
    ensures CommonPrefix(Path(t, g, a), Path(t, g, b)) > 0
    ensures IsFork(t, g, Path(t, g, a)[CommonPrefix(Path(t, g, a), Path(t, g, b)) - 1], a, b)
  {
    PathEnds(t, g, a); PathEnds(t, g, b);
    CommonAncestorInPrefix(t, g, a, b, g);
    var k := CommonPrefix(Path(t, g, a), Path(t, g, b));
    var f := Path(t, g, a)[k - 1];
    PathAt(t, g, a, k - 1);
    assert f in Path(t, g, a)[..k];
    forall x | IsAncestor(t, g, x, a) && IsAncestor(t, g, x, b)
      ensures x in t && t[x].height <= t[f].height
    {
      CommonAncestorInPrefix(t, g, a, b, x);
    }
  }

  lemma ForkUnique(t: Tree, g: Hash, f: Hash, f': Hash, a: Hash, b: Hash)
    requires WfTree(t, g) && a in t && b in t && IsFork(t, g, f, a, b) && IsFork(t, g, f', a, b)
    ensures f == f'
  {
    PathPositions(t, g, a);
  }

  // ---------- main-chain links ----------

  /** The forward links along p: each block but the last points to its successor. */
  ghost function Links(p: seq<Hash>): map<Hash, Hash> {
    if |p| <= 1 then map[] else Links(Front(p))[p[|p| - 2] := p[|p| - 1]]
  }

  lemma {:induction false} LinksAt(p: seq<Hash>)
    requires Distinct(p)
    ensures forall h :: h in Links(p) <==> h in p && h != Last(p)
    ensures forall i :: 0 <= i < |p| - 1 ==> p[i] in Links(p) && Links(p)[p[i]] == p[i + 1]
  {
    if |p| > 1 {
      LinksAt(Front(p));
      assert p == Front(p) + [Last(p)];
      forall i | 0 <= i < |p| - 1
        ensures p[i] in Links(p) && Links(p)[p[i]] == p[i + 1]
      {
        if i < |p| - 2 { assert p[i] != p[|p| - 2] && Front(p)[i] == p[i]; }
      }
    }
  }
}
