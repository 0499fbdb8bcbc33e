/** What every call of SetBestChain keeps, even one in which a postponed block is refused: the tip stays in the
    tree, and only proper ancestors of it have a forward link. */
module LinkLaws {
  import opened Basics
  import opened BlockTree
  import opened ChainSpec
  import opened ChainLaws

  /** Only proper ancestors of the tip have a forward link. */
  ghost predicate LinksBelow(t: Tree, g: Hash, next: map<Hash, Hash>, tip: Hash)
    requires WfTree(t, g) && tip in t
  {
    forall h :: h in next ==> h != tip && IsAncestor(t, g, h, tip)
  }

  /** The tip is in the tree, and whatever IsInMainChain accepts is the tip or an ancestor of it. */
  ghost predicate Anchored(s: Chain, g: Hash) {
    Rooted(s, g) && LinksBelow(s.tree, g, s.next, s.best)
  }

  lemma GoodIsAnchored(s: Chain, g: Hash)
    requires Good(s, g)
    ensures Anchored(s, g)
  {
    forall h | h in s.next ensures h != s.best && IsAncestor(s.tree, g, h, s.best) {
      PathPositions(s.tree, g, s.best);
      PathEnds(s.tree, g, s.best);
      LinksAt(Path(s.tree, g, s.best));
    }
  }

  lemma InMainChainIsAncestor(s: Chain, g: Hash, h: Hash)
    requires Anchored(s, g) && IsInMainChain(s, h)
    ensures IsAncestor(s.tree, g, h, s.best)
  {
    PathEnds(s.tree, g, s.best);
  }

  // ---------- Reorganize ----------

  /** Unlinking the end of p from position k on takes away the links of the blocks below those. */
  lemma {:induction false} UnlinkKeys(t: Tree, next: map<Hash, Hash>, p: seq<Hash>, k: nat)
    requires IsChain(t, p) && 0 < k <= |p| && Known(t, p[k..])
    ensures forall h :: h in Unlink(next, t, p[k..]) ==> h in next && h !in p[k - 1..|p| - 1]
    decreases |p|
  {
    if k < |p| {
      var q, a := Front(p), p[|p| - 2];
      assert Front(p[k..]) == q[k..] && ChainAt(t, p, |p| - 1);
      ChainPrefix(t, p, |p| - 1);
      UnlinkKeys(t, next - {a}, q, k);
      assert p[k - 1..|p| - 1] == q[k - 1..|q| - 1] + [a];
    }
  }

  /** Linking the end of q from position k on adds the links of the blocks below those. */
  lemma {:induction false} LinkKeys(t: Tree, next: map<Hash, Hash>, q: seq<Hash>, k: nat)
    requires IsChain(t, q) && 0 < k <= |q| && Known(t, q[k..])
    ensures forall h :: h in Link(next, t, q[k..]) ==> h in next || h in q[..|q| - 1]
    decreases |q|
  {
    if k < |q| {
      var f := Front(q);
      assert Front(q[k..]) == f[k..] && ChainAt(t, q, |q| - 1);
      ChainPrefix(t, q, |q| - 1);
      LinkKeys(t, next, f, k);
      assert q[..|q| - 1] == f[..|f| - 1] + [q[|q| - 2]];
    }
  }

  lemma ProperAncestor(t: Tree, g: Hash, h: Hash, tip: Hash)
    requires WfTree(t, g) && tip in t
    ensures (h != tip && IsAncestor(t, g, h, tip)) <==> h in Path(t, g, tip)[..t[tip].height]
  {
    var p := Path(t, g, tip);
    PathEnds(t, g, tip);
    PathPositions(t, g, tip);
    assert p == p[..t[tip].height] + [tip];
  }

  lemma RelinkBelow(t: Tree, g: Hash, next: map<Hash, Hash>, a: Hash, b: Hash)
    requires WfTree(t, g) && a in t && b in t && LinksBelow(t, g, next, a)
    ensures var p, q := Path(t, g, a), Path(t, g, b);
      var k := CommonPrefix(p, q);
      && Known(t, p[k..]) && Known(t, q[k..])
      && LinksBelow(t, g, Link(Unlink(next, t, p[k..]), t, q[k..]), b)
  {
    var p, q := Path(t, g, a), Path(t, g, b);
    var k := CommonPrefix(p, q);
    ForkIsCommonPrefix(t, g, a, b);
    PathIsChain(t, g, a); PathIsChain(t, g, b);
    var unlinked := Unlink(next, t, p[k..]);
    UnlinkKeys(t, next, p, k);
    LinkKeys(t, unlinked, q, k);
    forall h | h in Link(unlinked, t, q[k..]) ensures h != b && IsAncestor(t, g, h, b) {
      ProperAncestor(t, g, h, b);
      if h in unlinked {
        ProperAncestor(t, g, h, a);
        LeftBelowFork(p, q, k, h);
      }
    }
  }

  /** What is left of the path p when its end from the fork on is taken away lies below the end of q. */
  lemma LeftBelowFork(p: seq<Hash>, q: seq<Hash>, k: nat, h: Hash)
    requires 0 < k <= |p| && k <= |q| && p[..k] == q[..k] && h in p[..|p| - 1] && h !in p[k - 1..|p| - 1]
    ensures h in q[..|q| - 1]
  {
    var i :| 0 <= i < |p| - 1 && p[i] == h;
    assert i < k - 1;
    assert p[..k][i] == q[..k][i];
  }

  lemma ReorganizeBelow(s: Chain, g: Hash, new': Hash, vs: Verdicts)
    requires Anchored(s, g) && new' in s.tree
    ensures var (ok, s') := Reorganize(s, g, new', vs);
      && s'.tree == s.tree && s'.best == s.best
      && if ok then LinksBelow(s.tree, g, s'.next, new') else s' == s.(supply := s'.supply)
  {
    RelinkBelow(s.tree, g, s.next, s.best, new');
  }

  // ---------- SetBestChain ----------

  lemma BelowChild(t: Tree, g: Hash, next: map<Hash, Hash>, h: Hash)
    requires WfTree(t, g) && h in t && t[h].height > 0
    requires LinksToParent(t, h) && LinksBelow(t, g, next, t[h].prev)
    ensures LinksBelow(t, g, next, h) && LinksBelow(t, g, next[t[h].prev := h], h)
  {
    var parent := t[h].prev;
    PathPositions(t, g, h);
    PathPositions(t, g, parent);
    PathEnds(t, g, parent);
    assert Path(t, g, h) == Path(t, g, parent) + [h];
    assert forall x :: IsAncestor(t, g, x, parent) ==> x != h;
  }

  /** Whether or not a postponed block is refused, only proper ancestors of h are linked. */
  lemma {:induction false} PostponedBelow(s: Chain, g: Hash, h: Hash, i: nat, vs: Verdicts)
    requires WfTree(s.tree, g) && h in s.tree && i <= s.tree[h].height && Known(s.tree, Path(s.tree, g, h)[i + 1..])
    requires Path(s.tree, g, h)[i] in s.tree && LinksBelow(s.tree, g, s.next, Path(s.tree, g, h)[i])
    ensures LinksBelow(s.tree, g, Postponed(s, Path(s.tree, g, h)[i + 1..], vs).1.next, h)
    decreases s.tree[h].height
  {
    PathEnds(s.tree, g, h);
    if i < s.tree[h].height {
      PathTail(s.tree, g, h, i + 1);
      PostponedBelow(s, g, s.tree[h].prev, i, vs);
      var (ok, s1) := Postponed(s, Path(s.tree, g, s.tree[h].prev)[i + 1..], vs);
      BelowChild(s.tree, g, s1.next, h);
    }
  }

  lemma SwitchBranchBelow(s: Chain, g: Hash, new': Hash, vs: Verdicts)
    requires Anchored(s, g) && new' in s.tree
    ensures var r := SwitchBranch(s, g, new', vs);
      && r.chain.tree == s.tree && r.chain.best == s.best
      && if r.ok then LinksBelow(s.tree, g, r.chain.next, new')
         else r.complete && r.chain == s.(supply := r.chain.supply)
  {
    PathKnown(s.tree, g, new');
    var q, i := Path(s.tree, g, new'), Pivot(s, g, new');
    ReorganizeBelow(s, g, q[i], vs);
    var r := Reorganize(s, g, q[i], vs);
    if r.0 { PostponedBelow(r.1, g, new', i, vs); }
  }

  /** Every call keeps the tip in the tree and the links below it; one that fails changes at most supplies. */
  lemma SetBestChainAnchors(s: Chain, g: Hash, new': Hash, vs: Verdicts)
    requires Anchored(s, g) && new' in s.tree && s.tree[new'].height > 0
    ensures var r := SetBestChain(s, g, new', vs);
      && r.chain.tree == s.tree && Anchored(r.chain, g)
      && if r.ok then r.chain.best == new' else r.complete && r.chain == s.(supply := r.chain.supply)
  {
    assert LinksToParent(s.tree, new');
    if s.tree[new'].prev == s.best {
      BelowChild(s.tree, g, s.next, new');
    } else {
      SwitchBranchBelow(s, g, new', vs);
    }
  }

  lemma GrowAnchored(s: Chain, g: Hash, b: NewBlock)
    requires Anchored(s, g) && b.hash !in s.tree && b.prev in s.tree
    ensures Anchored(s.(tree := Insert(s.tree, b)), g)
  {
    var t, t' := s.tree, Insert(s.tree, b);
    InsertKeepsTree(t, g, b);
    PathStable(t, t', g, s.best);
  }

  lemma AddAnchors(s: Chain, g: Hash, b: NewBlock, vs: Verdicts)
    requires Anchored(s, g) && b.hash !in s.tree && b.prev in s.tree
    ensures var r := AddToBlockIndex(s, g, b, vs);
      && Anchored(r.chain, g) && r.chain.tree == Insert(s.tree, b)
      && (r.chain.best == s.best || r.chain.best == b.hash)
  {
    GrowAnchored(s, g, b);
    InsertKeepsTree(s.tree, g, b);
    var s1 := s.(tree := Insert(s.tree, b));
    if s1.tree[b.hash].trust > s1.tree[s.best].trust {
      SetBestChainAnchors(s1, g, b.hash, vs);
    }
  }
}
