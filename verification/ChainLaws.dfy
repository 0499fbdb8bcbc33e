/** What every run of tip extensions and reorganisations keeps. */
module ChainLaws {
  import opened Basics
  import opened Ledger
  import opened LedgerLaws
  import opened BlockTree
  import opened ChainSpec

  /** p starts at genesis height and each block's parent stands before it. */
  ghost predicate IsChain(t: Tree, p: seq<Hash>) {
    forall i :: 0 <= i < |p| ==> ChainAt(t, p, i)
  }

  ghost predicate ChainAt(t: Tree, p: seq<Hash>, i: nat)
    requires i < |p|
  {
    p[i] in t && t[p[i]].height == i && (i > 0 ==> t[p[i]].prev == p[i - 1])
  }

  lemma ChainPrefix(t: Tree, p: seq<Hash>, k: nat)
    requires IsChain(t, p) && k <= |p|
    ensures IsChain(t, p[..k])
  {
    forall i | 0 <= i < k ensures ChainAt(t, p[..k], i) { assert ChainAt(t, p, i); }
  }

  lemma ChainDistinct(t: Tree, p: seq<Hash>)
    requires IsChain(t, p)
    ensures Distinct(p) && Known(t, p)
  {
    forall i, j | 0 <= i < j < |p| ensures p[i] != p[j] {
      assert ChainAt(t, p, i) && ChainAt(t, p, j);
    }
    forall h | h in p ensures h in t {
      var i :| 0 <= i < |p| && p[i] == h;
      assert ChainAt(t, p, i);
    }
  }

  lemma PathIsChain(t: Tree, g: Hash, h: Hash)
    requires WfTree(t, g) && h in t
    ensures IsChain(t, Path(t, g, h)) && Distinct(Path(t, g, h)) && Known(t, Path(t, g, h))
  {
    forall i | 0 <= i < |Path(t, g, h)|
      ensures ChainAt(t, Path(t, g, h), i)
    {
      PathAt(t, g, h, i);
    }
    ChainDistinct(t, Path(t, g, h));
  }

  /** The recorded supply of every block of p is the unspent value after connecting p up to it. */
  ghost predicate SupplyMatches(t: Tree, supply: map<Hash, int>, p: seq<Hash>)
    requires Known(t, p)
  {
    forall i :: 0 <= i < |p| ==> SupplyAt(t, supply, p, i)
  }

  ghost predicate SupplyAt(t: Tree, supply: map<Hash, int>, p: seq<Hash>, i: nat)
    requires Known(t, p) && i < |p|
  {
    Replay(t, p[..i + 1]).Some? && SupplyOf(supply, p[i]) == Total(Replay(t, p[..i + 1]).value)
  }

  /** The links, the index and the supplies describe the chain that ends at tip. */
  ghost predicate Consistent(s: Chain, g: Hash, tip: Hash) {
    && WfTree(s.tree, g) && tip in s.tree
    && var p := Path(s.tree, g, tip);
    && s.next == Links(p)
    && Known(s.tree, p)
    && SupplyMatches(s.tree, s.supply, p)
    && Replay(s.tree, p).Some? && Prunes(s.index, Replay(s.tree, p).value)
  }

  ghost predicate Good(s: Chain, g: Hash) { Consistent(s, g, s.best) }

  // ---------- disconnecting and connecting stretches ----------

  /** Disconnecting the end of a chain leaves an index that prunes the replay of what remains. */
  lemma {:induction false} DisconnectAllReplays(t: Tree, v: TxMap, p: seq<Hash>, k: nat)
    requires Known(t, p) && 0 < k <= |p|
    requires Replay(t, p).Some? && Prunes(v, Replay(t, p).value)
    requires Known(t, p[k..]) && DisconnectAll(t, v, p[k..]).Some?
    ensures Known(t, p[..k]) && Replay(t, p[..k]).Some?
    ensures Prunes(DisconnectAll(t, v, p[k..]).value, Replay(t, p[..k]).value)
    decreases |p|
  {
    if k == |p| {
      assert p[..k] == p;
    } else {
      assert Front(p[k..]) == Front(p)[k..] && Front(p)[..k] == p[..k];
      var db := Replay(t, Front(p)).value;
      DisconnectPrunes(db, Last(p), t[Last(p)].txs, v);
      DisconnectAllReplays(t, Disconnect(v, t[Last(p)].txs).value, Front(p), k);
    }
  }

  /** The index and the supplies describe the chain p. */
  ghost predicate Tracks(t: Tree, w: Work, p: seq<Hash>)
    requires Known(t, p)
  {
    Replay(t, p).Some? && Prunes(w.index, Replay(t, p).value) && SupplyMatches(t, w.supply, p)
  }

  lemma ExtendSupplyAt(t: Tree, supply: map<Hash, int>, p: seq<Hash>, h: Hash, n: int, i: nat)
    requires Known(t, p) && Known(t, p + [h]) && h !in p && i < |p| && SupplyAt(t, supply, p, i)
    ensures SupplyAt(t, supply[h := n], p + [h], i)
  {
    assert (p + [h])[..i + 1] == p[..i + 1] && p[i] in p;
  }

  lemma LastSupplyAt(t: Tree, supply: map<Hash, int>, p: seq<Hash>, h: Hash, n: int)
    requires Known(t, p + [h]) && Replay(t, p + [h]).Some? && n == Total(Replay(t, p + [h]).value)
    ensures SupplyAt(t, supply[h := n], p + [h], |p|)
  {
    assert (p + [h])[..|p| + 1] == p + [h];
  }

  lemma ExtendSupply(t: Tree, supply: map<Hash, int>, p: seq<Hash>, h: Hash, n: int)
    requires Known(t, p) && h in t && h !in p
    requires SupplyMatches(t, supply, p)
    requires Replay(t, p + [h]).Some? && n == Total(Replay(t, p + [h]).value)
    ensures SupplyMatches(t, supply[h := n], p + [h])
  {
    var q, supply' := p + [h], supply[h := n];
    forall i | 0 <= i < |q| ensures SupplyAt(t, supply', q, i) {
      if i < |p| { ExtendSupplyAt(t, supply, p, h, n, i); } else { LastSupplyAt(t, supply, p, h, n); }
    }
  }

  /** One accepted block carries both the replay and the recorded supply one block further. */
  lemma ConnectStepTracks(t: Tree, w: Work, p: seq<Hash>, h: Hash, vs: Verdicts)
    requires p != [] && IsChain(t, p + [h]) && Known(t, p) && Known(t, p + [h]) && h in t
    requires Tracks(t, w, p) && ConnectStep(t, w, h, vs).0
    ensures Tracks(t, ConnectStep(t, w, h, vs).1, p + [h])
  {
    assert Front(p + [h]) == p && p[..|p| - 1 + 1] == p;
    assert ChainAt(t, p + [h], |p|) && SupplyAt(t, w.supply, p, |p| - 1);
    ChainDistinct(t, p + [h]);
    var v := Replay(t, p).value;
    PrunesConnectTxs(w.index, v, h, t[h].txs);
    ConnectConserves(v, h, t[h].txs);
    ExtendSupply(t, w.supply, p, h, SupplyOf(ConnectStep(t, w, h, vs).1.supply, h));
  }

  lemma {:induction false} ConnectAllTracks(t: Tree, w: Work, p: seq<Hash>, k: nat, vs: Verdicts)
    requires IsChain(t, p) && 0 < k <= |p| && Known(t, p) && Known(t, p[..k]) && Known(t, p[k..])
    requires Tracks(t, w, p[..k])
    ensures ConnectAll(t, w, p[k..], vs).0 ==> Tracks(t, ConnectAll(t, w, p[k..], vs).1, p)
    decreases |p|
  {
    if k == |p| {
      assert p[..k] == p;
    } else {
      var q, h := Front(p), Last(p);
      assert Front(p[k..]) == q[k..] && q[..k] == p[..k] && p == q + [h];
      ChainPrefix(t, p, |p| - 1);
      ConnectAllTracks(t, w, q, k, vs);
      var (ok, w1) := ConnectAll(t, w, q[k..], vs);
      if ok && ConnectStep(t, w1, h, vs).0 {
        ConnectStepTracks(t, w1, q, h, vs);
      }
    }
  }

  /** Only the blocks being connected get a new supply. */
  lemma {:induction false} ConnectAllSupplies(t: Tree, w: Work, hs: seq<Hash>, vs: Verdicts)
    requires Known(t, hs)
    ensures forall h :: h !in hs ==> SupplyOf(ConnectAll(t, w, hs, vs).1.supply, h) == SupplyOf(w.supply, h)
  {
    if hs != [] {
      assert hs == Front(hs) + [Last(hs)];
      ConnectAllSupplies(t, w, Front(hs), vs);
    }
  }

  // ---------- links ----------

  lemma {:induction false} UnlinkTail(t: Tree, p: seq<Hash>, k: nat)
    requires IsChain(t, p) && 0 < k <= |p| && Known(t, p[k..])
    ensures Unlink(Links(p), t, p[k..]) == Links(p[..k])
    decreases |p|
  {
    if k == |p| {
      assert p[..k] == p;
    } else {
      var q, a := Front(p), p[|p| - 2];
      assert q[..k] == p[..k] && Front(p[k..]) == q[k..];
      assert ChainAt(t, p, |p| - 1);
      ChainPrefix(t, p, |p| - 1);
      ChainDistinct(t, q);
      LinksAt(q);
      assert Links(p) - {a} == Links(q);
      UnlinkTail(t, q, k);
    }
  }

  lemma {:induction false} LinkTail(t: Tree, p: seq<Hash>, k: nat)
    requires IsChain(t, p) && 0 < k <= |p| && Known(t, p[k..])
    ensures Link(Links(p[..k]), t, p[k..]) == Links(p)
    decreases |p|
  {
    if k == |p| {
      assert p[..k] == p;
    } else {
      assert Front(p)[..k] == p[..k] && Front(p[k..]) == Front(p)[k..];
      assert ChainAt(t, p, |p| - 1);
      ChainPrefix(t, p, |p| - 1);
      LinkTail(t, Front(p), k);
    }
  }

  // ---------- Reorganize ----------

  lemma SupplyPrefix(t: Tree, supply: map<Hash, int>, p: seq<Hash>, k: nat)
    requires Known(t, p) && SupplyMatches(t, supply, p) && k <= |p|
    ensures Known(t, p[..k]) && SupplyMatches(t, supply, p[..k])
  {
    forall i | 0 <= i < k ensures SupplyAt(t, supply, p[..k], i) {
      assert SupplyAt(t, supply, p, i);
      assert p[..k][..i + 1] == p[..i + 1];
    }
  }

  lemma SupplyFrame(t: Tree, supply: map<Hash, int>, supply': map<Hash, int>, p: seq<Hash>)
    requires Known(t, p) && SupplyMatches(t, supply, p)
    requires forall h :: h in p ==> SupplyOf(supply', h) == SupplyOf(supply, h)
    ensures SupplyMatches(t, supply', p)
  {
    forall i | 0 <= i < |p| ensures SupplyAt(t, supply', p, i) {
      assert SupplyAt(t, supply, p, i) && p[i] in p;
    }
  }

  /** A successful reorganisation makes links, index and supplies describe the new chain.
      A failed one changes neither index nor links, and the node stays consistent. */
  lemma ReorganizeKeeps(s: Chain, g: Hash, new': Hash, vs: Verdicts)
    requires Good(s, g) && new' in s.tree
    ensures var (ok, s') := Reorganize(s, g, new', vs);
      && s' == s.(index := s'.index, supply := s'.supply, next := s'.next)
      && (ok ==> Consistent(s', g, new'))
      && (!ok ==> s'.index == s.index && s'.next == s.next && Good(s', g))
  {
    var t := s.tree;
    PathIsChain(t, g, s.best); PathIsChain(t, g, new');
    var p, q := Path(t, g, s.best), Path(t, g, new');
    var k := CommonPrefix(p, q);
    ForkIsCommonPrefix(t, g, s.best, new');
    if DisconnectAll(t, s.index, p[k..]).Some? {
      var v := DisconnectAll(t, s.index, p[k..]).value;
      DisconnectAllReplays(t, s.index, p, k);
      SupplyPrefix(t, s.supply, p, k);
      ConnectAllTracks(t, Work(v, s.supply), q, k, vs);
      ConnectAllSupplies(t, Work(v, s.supply), q[k..], vs);
      var (ok, w) := ConnectAll(t, Work(v, s.supply), q[k..], vs);
      if ok {
        UnlinkTail(t, p, k);
        LinkTail(t, q, k);
      } else {
        forall h | h in p ensures SupplyOf(w.supply, h) == SupplyOf(s.supply, h) {
          OffForkNotInPath(t, g, s.best, new', h);
        }
        SupplyFrame(t, s.supply, w.supply, p);
      }
    }
  }

  lemma OffForkNotInPath(t: Tree, g: Hash, a: Hash, b: Hash, x: Hash)
    requires WfTree(t, g) && a in t && b in t && x in Path(t, g, a)
    ensures x !in Path(t, g, b)[CommonPrefix(Path(t, g, a), Path(t, g, b))..]
  {
    var q := Path(t, g, b);
    var k := CommonPrefix(Path(t, g, a), q);
    PathPositions(t, g, b);
    forall i | k <= i < |q| ensures q[i] != x {
      if q[i] == x { CommonAncestorInPrefix(t, g, a, b, x); }
    }
  }

  // ---------- SetBestChain ----------

  lemma InnerKeeps(s: Chain, g: Hash, tip: Hash, h: Hash, vs: Verdicts)
    requires Consistent(s, g, tip) && h in s.tree && s.tree[h].height > 0 && s.tree[h].prev == tip
    ensures var (ok, s') := Inner(s, h, vs);
      && s'.tree == s.tree && s'.best == s.best
      && (ok ==> Consistent(s', g, h))
      && (!ok ==> s' == s)
  {
    var p := Path(s.tree, g, tip);
    PathIsChain(s.tree, g, h); PathIsChain(s.tree, g, tip);
    assert Path(s.tree, g, h) == p + [h] && Front(p + [h]) == p;
    PathEnds(s.tree, g, tip);
    var w := Work(s.index, s.supply);
    if ConnectStep(s.tree, w, h, vs).0 {
      ConnectStepTracks(s.tree, w, p, h, vs);
    }
  }

  /** The end of a path is the end of the parent's path and the block. */
  lemma PathTail(t: Tree, g: Hash, h: Hash, k: nat)
    requires WfTree(t, g) && h in t && k <= t[h].height && Known(t, Path(t, g, h)[k..])
    ensures t[h].height > 0 ==>
              && LinksToParent(t, h)
              && var q, q0 := Path(t, g, h), Path(t, g, t[h].prev);
              && q == q0 + [h] && Front(q[k..]) == q0[k..] && Last(q[k..]) == h && Known(t, q0[k..])
              && (forall i :: 0 <= i < |q0| ==> q[i] == q0[i])
  {
    if t[h].height > 0 {
      assert LinksToParent(t, h);
      var q, q0 := Path(t, g, h), Path(t, g, t[h].prev);
      assert q == q0 + [h];
      assert q[k..] == q0[k..] + [h];
      forall x | x in q0[k..] ensures x in t { assert x in q[k..]; }
    }
  }

  /** The node is consistent at some block of q from position i on, below the last. */
  ghost predicate StopsAt(s: Chain, g: Hash, q: seq<Hash>, i: nat) {
    exists j :: i <= j < |q| - 1 && Consistent(s, g, q[j])
  }

  lemma StopsLater(s: Chain, g: Hash, q: seq<Hash>, h: Hash, i: nat)
    requires q != [] && (StopsAt(s, g, q, i) || (i < |q| && Consistent(s, g, Last(q))))
    ensures StopsAt(s, g, q + [h], i)
  {
    if StopsAt(s, g, q, i) {
      var j :| i <= j < |q| - 1 && Consistent(s, g, q[j]);
      assert (q + [h])[j] == q[j];
    } else {
      assert (q + [h])[|q| - 1] == Last(q);
    }
  }

  /** Postponed blocks either all connect, or the node stops, consistent, at some block below the last. */
  lemma {:induction false} PostponedKeeps(s: Chain, g: Hash, h: Hash, i: nat, vs: Verdicts)
    requires WfTree(s.tree, g) && h in s.tree && i <= s.tree[h].height
    requires Consistent(s, g, Path(s.tree, g, h)[i]) && Known(s.tree, Path(s.tree, g, h)[i + 1..])
    ensures var q := Path(s.tree, g, h);
      var (ok, s') := Postponed(s, q[i + 1..], vs);
      && (ok ==> Consistent(s', g, h))
      && (!ok ==> StopsAt(s', g, q, i))
    decreases s.tree[h].height
  {
    var q := Path(s.tree, g, h);
    PathEnds(s.tree, g, h);
    if i < s.tree[h].height {
      var parent := s.tree[h].prev;
      PathTail(s.tree, g, h, i + 1);
      var q0 := Path(s.tree, g, parent);
      PostponedKeeps(s, g, parent, i, vs);
      var (ok, s1) := Postponed(s, q0[i + 1..], vs);
      if ok {
        InnerKeeps(s1, g, parent, h, vs);
        PathEnds(s.tree, g, parent);
        if !Inner(s1, h, vs).0 { StopsLater(s1, g, q0, h, i); }
      } else {
        StopsLater(s1, g, q0, h, i);
      }
    }
  }

  lemma ShorterLinks(q: seq<Hash>, j: nat)
    requires Distinct(q) && j < |q| - 1
    ensures Links(q[..j + 1]) != Links(q)
  {
    LinksAt(q); LinksAt(q[..j + 1]);
    assert Last(q[..j + 1]) == q[j];
    assert q[j] in Links(q) && q[j] !in Links(q[..j + 1]);
  }

  /** The links of a shorter chain are not those of the whole chain. */
  lemma ConsistentTipUnique(s: Chain, g: Hash, h: Hash, j: nat)
    requires WfTree(s.tree, g) && h in s.tree && j < s.tree[h].height
    requires Consistent(s, g, Path(s.tree, g, h)[j])
    ensures !Consistent(s, g, h)
  {
    var q := Path(s.tree, g, h);
    PathAt(s.tree, g, h, j);
    PathPositions(s.tree, g, h);
    ShorterLinks(q, j);
  }

  lemma FinishKeeps(s: Chain, g: Hash, h: Hash, i: nat, vs: Verdicts)
    requires WfTree(s.tree, g) && h in s.tree && i <= s.tree[h].height
    requires Consistent(s, g, Path(s.tree, g, h)[i]) && Known(s.tree, Path(s.tree, g, h)[i + 1..])
    ensures var r := Finish((true, s), Path(s.tree, g, h)[i + 1..], vs);
      r.ok && r.chain.tree == s.tree && r.chain.best == s.best && (Consistent(r.chain, g, h) <==> r.complete)
  {
    var q := Path(s.tree, g, h);
    PostponedKeeps(s, g, h, i, vs);
    var (complete, s2) := Postponed(s, q[i + 1..], vs);
    if !complete {
      var j :| i <= j < |q| - 1 && Consistent(s2, g, q[j]);
      ConsistentTipUnique(s2, g, h, j);
    }
  }

  lemma SwitchBranchKeeps(s: Chain, g: Hash, new': Hash, vs: Verdicts)
    requires Good(s, g) && new' in s.tree
    ensures var r := SwitchBranch(s, g, new', vs);
      && r.chain.tree == s.tree && r.chain.best == s.best
      && (r.ok ==> (Consistent(r.chain, g, new') <==> r.complete))
      && (!r.ok ==> r.complete && Good(r.chain, g) && r.chain == s.(supply := r.chain.supply))
  {
    PathKnown(s.tree, g, new');
    var q, i := Path(s.tree, g, new'), Pivot(s, g, new');
    var r := Reorganize(s, g, q[i], vs);
    ReorganizeKeeps(s, g, q[i], vs);
    if r.0 {
      assert r == (true, r.1);
      FinishKeeps(r.1, g, new', i, vs);
    }
  }

  /** A call that fails changes neither index nor links.  A call that succeeds leaves the node
      consistent if and only if none of the blocks whose connection was postponed was refused. */
  lemma SetBestChainKeeps(s: Chain, g: Hash, new': Hash, vs: Verdicts)
    requires Good(s, g) && new' in s.tree && s.tree[new'].height > 0
    ensures var r := SetBestChain(s, g, new', vs);
      && r.chain.tree == s.tree
      && (r.ok ==> r.chain.best == new' && (Good(r.chain, g) <==> r.complete))
      && (!r.ok ==> r.complete && Good(r.chain, g) && r.chain == s.(supply := r.chain.supply))
  {
    if s.tree[new'].prev == s.best {
      InnerKeeps(s, g, s.best, new', vs);
    } else {
      SwitchBranchKeeps(s, g, new', vs);
    }
  }

  /** The pivot is the new block itself or already outweighs the current chain. */
  lemma PivotOutweighs(s: Chain, g: Hash, new': Hash)
    requires Rooted(s, g) && new' in s.tree
    ensures var q, i := Path(s.tree, g, new'), Pivot(s, g, new');
      Known(s.tree, q) && (i == s.tree[new'].height || s.tree[q[i]].trust > s.tree[s.best].trust)
  {
    PathKnown(s.tree, g, new');
    FirstHeavierOutweighs(s.tree, Path(s.tree, g, new'), s.tree[new'].height, s.tree[s.best].trust);
  }

  lemma {:induction false} FirstHeavierOutweighs(t: Tree, q: seq<Hash>, i: nat, trust: nat)
    requires i < |q| && Known(t, q)
    ensures var j := FirstHeavier(t, q, i, trust); j == i || t[q[j]].trust > trust
  {
    if i > 0 && t[q[i - 1]].trust > trust { FirstHeavierOutweighs(t, q, i - 1, trust); }
  }

  // ---------- runs ----------

  /** Arrive: a block reaches AddToBlockIndex.  Force: a sync-checkpoint makes a known block the best one. */
  datatype Event = Arrive(b: NewBlock, vs: Verdicts) | Force(h: Hash, vs: Verdicts)

  ghost predicate Rooted(s: Chain, g: Hash) { WfTree(s.tree, g) && s.best in s.tree }

  ghost function Step(s: Chain, g: Hash, e: Event): Switch
    requires Rooted(s, g)
  {
    match e
    case Arrive(b, vs) => AddToBlockIndex(s, g, b, vs)
    case Force(h, vs) =>
      if h !in s.tree || IsInMainChain(s, h) then Switch(true, true, s) else SetBestChain(s, g, h, vs)
  }

  /** A state reached from s by the events, each of them with all its postponed blocks accepted. */
  ghost predicate Reaches(s: Chain, g: Hash, events: seq<Event>, s': Chain) {
    if events == [] then s' == s else
      exists m :: Reaches(s, g, Front(events), m) && Rooted(m, g)
               && Step(m, g, Last(events)).complete && s' == Step(m, g, Last(events)).chain
  }

  lemma GrowTree(s: Chain, g: Hash, b: NewBlock)
    requires Good(s, g) && b.hash !in s.tree && b.prev in s.tree
    ensures Good(s.(tree := Insert(s.tree, b)), g)
  {
    var t, t' := s.tree, Insert(s.tree, b);
    InsertKeepsTree(t, g, b);
    PathStable(t, t', g, s.best);
    var p := Path(t, g, s.best);
    forall i | 0 <= i <= |p| ensures Known(t', p[..i]) && Known(t, p[..i]) && Replay(t', p[..i]) == Replay(t, p[..i]) {
      ReplayStable(t, t', p[..i]);
    }
    assert p[..|p|] == p;
    forall i | 0 <= i < |p| ensures SupplyAt(t', s.supply, p, i) { assert SupplyAt(t, s.supply, p, i); }
  }

  lemma {:induction false} ReplayStable(t: Tree, t': Tree, p: seq<Hash>)
    requires Known(t, p) && forall x :: x in t ==> x in t' && t'[x] == t[x]
    ensures Known(t', p) && Replay(t', p) == Replay(t, p)
  {
    if |p| > 1 { ReplayStable(t, t', Front(p)); }
  }

  lemma InMainChainIffAncestor(s: Chain, g: Hash, h: Hash)
    requires Good(s, g)
    ensures IsInMainChain(s, h) <==> IsAncestor(s.tree, g, h, s.best)
  {
    PathPositions(s.tree, g, s.best);
    PathEnds(s.tree, g, s.best);
    LinksAt(Path(s.tree, g, s.best));
  }

  lemma StepKeeps(s: Chain, g: Hash, e: Event)
    requires Good(s, g) && Step(s, g, e).complete
    ensures Good(Step(s, g, e).chain, g)
  {
    match e
    case Arrive(b, vs) =>
      if b.hash !in s.tree && b.prev in s.tree {
        GrowTree(s, g, b);
        var s1 := s.(tree := Insert(s.tree, b));
        if s1.tree[b.hash].trust > s1.tree[s.best].trust {
          SetBestChainKeeps(s1, g, b.hash, vs);
        }
      }
    case Force(h, vs) =>
      if h in s.tree && !IsInMainChain(s, h) {
        InMainChainIffAncestor(s, g, h);
        PathEnds(s.tree, g, s.best);
        SetBestChainKeeps(s, g, h, vs);
      }
  }

  /** Every run keeps the node consistent. */
  lemma {:induction false} RunKeeps(s: Chain, g: Hash, events: seq<Event>, s': Chain)
    requires Good(s, g) && Reaches(s, g, events, s')
    ensures Good(s', g)
    decreases |events|
  {
    if events != [] {
      var m :| Reaches(s, g, Front(events), m) && Rooted(m, g)
               && Step(m, g, Last(events)).complete && s' == Step(m, g, Last(events)).chain;
      RunKeeps(s, g, Front(events), m);
      StepKeeps(m, g, Last(events));
    }
  }

  ghost predicate IsStart(s: Chain, g: Hash) {
    && s.tree.Keys == {g} && s.tree[g].height == 0
    && s.best == g && s.next == map[] && s.index == map[] && s.supply == map[]
  }

  lemma StartIsGood(s: Chain, g: Hash)
    requires IsStart(s, g)
    ensures Good(s, g)
  {
    assert Path(s.tree, g, g) == [g] && [g][..1] == [g];
    assert SupplyAt(s.tree, s.supply, [g], 0);
  }

  /** After any run, the links are exactly those of the chain to the best block, the unspent outputs
      are those of a replay of that chain from an empty index, and the recorded supply is their value. */
  lemma EveryRun(s: Chain, g: Hash, events: seq<Event>, s': Chain)
    requires IsStart(s, g) && Reaches(s, g, events, s')
    ensures Rooted(s', g)
    ensures forall h :: IsInMainChain(s', h) <==> IsAncestor(s'.tree, g, h, s'.best)
    ensures var p := Path(s'.tree, g, s'.best);
      && (forall h :: h in s'.next <==> h in p && h != s'.best)
      && (forall i :: 0 <= i < |p| - 1 ==> p[i] in s'.next && s'.next[p[i]] == p[i + 1])
      && Known(s'.tree, p) && Replay(s'.tree, p).Some?
      && Unspent(s'.index) == Unspent(Replay(s'.tree, p).value)
      && SupplyOf(s'.supply, s'.best) == Total(s'.index)
  {
    StartIsGood(s, g);
    RunKeeps(s, g, events, s');
    forall h ensures IsInMainChain(s', h) <==> IsAncestor(s'.tree, g, h, s'.best) {
      InMainChainIffAncestor(s', g, h);
    }
    var t, p := s'.tree, Path(s'.tree, g, s'.best);
    PathIsChain(t, g, s'.best);
    PathEnds(t, g, s'.best);
    LinksAt(p);
    assert SupplyAt(t, s'.supply, p, |p| - 1) && p[..|p| - 1 + 1] == p;
    PrunedSameUnspent(s'.index, Replay(t, p).value);
    PrunedSameTotal(s'.index, Replay(t, p).value);
  }
}
