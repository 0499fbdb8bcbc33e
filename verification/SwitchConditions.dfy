/** When a switch of the best chain succeeds, in terms of the blocks involved: what has to hold before the call
    for blocks to be disconnected, for blocks to be connected, and for the node to be consistent afterwards. */
module SwitchConditions {
  import opened Basics
  import opened Ledger
  import opened LedgerLaws
  import opened BlockTree
  import opened TxDatabase
  import opened ChainSpec
  import opened ChainLaws
  import opened FreshIds

  // ---------- disconnecting ----------

  /** Block i of p does not spend from an id that a later block of p has. */
  ghost predicate SparesLater(t: Tree, p: seq<Hash>, i: nat)
    requires Known(t, p) && i < |p|
  {
    forall j :: i < j < |p| ==> Spares(t[p[i]].txs, Ids(t[p[j]].txs))
  }

  lemma DisconnectNeedsEntries(v: TxMap, txs: seq<Tx>, missing: set<TxId>)
    requires missing !! v.Keys && !Spares(txs, missing)
    ensures Disconnect(v, txs) == None
  {
    var tx, id :| tx in txs && id in missing && SpendsFrom(tx, id);
    var o :| o in tx.vin && o.hash == id;
    DisconnectNeedsEntry(v, txs, tx, o);
  }

  lemma SparesBoth(txs: seq<Tx>, a: set<TxId>, b: set<TxId>)
    ensures Spares(txs, a + b) <==> Spares(txs, a) && Spares(txs, b)
  {
  }

  /** One block: it can be disconnected from a replay without some entries exactly if it does not spend from those. */
  lemma DisconnectLast(db: TxMap, h: Hash, txs: seq<Tx>, missing: set<TxId>)
    requires Connect(db, h, txs).Some?
    ensures var v := Connect(db, h, txs).value.view;
      Disconnect(v - missing, txs) == if Spares(txs, missing) then Some(db - (missing + Ids(txs))) else None
  {
    var v := Connect(db, h, txs).value.view;
    if Spares(txs, missing) {
      DisconnectUndoesConnect(db, h, txs);
      DisconnectWithout(v, txs, missing);
      assert db - Ids(txs) - missing == db - (missing + Ids(txs));
    } else {
      DisconnectNeedsEntries(v - missing, txs, missing);
    }
  }

  lemma SparesLaterNext(t: Tree, p: seq<Hash>, i: nat)
    requires i < |p| - 1 && Known(t, p) && Known(t, Front(p))
    ensures SparesLater(t, p, i) <==> SparesLater(t, Front(p), i) && Spares(t[p[i]].txs, Ids(t[Last(p)].txs))
  {
    assert forall j :: 0 <= j < |p| - 1 ==> Front(p)[j] == p[j];
  }

  /** The blocks of p from position k on spend neither from the ids nor from an id that a later of them has. */
  ghost predicate SparesFrom(t: Tree, p: seq<Hash>, k: nat, ids: set<TxId>)
    requires Known(t, p)
  {
    forall i :: k <= i < |p| ==> Spares(t[p[i]].txs, ids) && SparesLater(t, p, i)
  }

  lemma SparesFromNext(t: Tree, p: seq<Hash>, k: nat, ids: set<TxId>)
    requires Known(t, p) && k < |p| && Known(t, Front(p))
    ensures var txs := t[Last(p)].txs;
      SparesFrom(t, p, k, ids) <==> Spares(txs, ids) && SparesFrom(t, Front(p), k, ids + Ids(txs))
  {
    var q, txs := Front(p), t[Last(p)].txs;
    forall i | k <= i < |q|
      ensures Spares(t[q[i]].txs, ids + Ids(txs)) && SparesLater(t, q, i)
         <==> Spares(t[p[i]].txs, ids) && SparesLater(t, p, i)
    {
      SparesBoth(t[q[i]].txs, ids, Ids(txs));
      SparesLaterNext(t, p, i);
    }
  }

  /** The last block goes first. */
  lemma DisconnectAllNext(t: Tree, v: TxMap, p: seq<Hash>, k: nat)
    requires Known(t, p) && k < |p| && Known(t, p[k..])
    ensures Known(t, Front(p)) && Known(t, Front(p)[k..])
    ensures DisconnectAll(t, v, p[k..]) ==
            match Disconnect(v, t[Last(p)].txs) { case None => None case Some(w) => DisconnectAll(t, w, Front(p)[k..]) }
  {
    FrontAndLast(p);
    assert Front(p[k..]) == Front(p)[k..] && Last(p[k..]) == Last(p);
  }

  /** The blocks of a chain from position k on can be disconnected, from its replay without some entries, exactly
      if none of them spends from those entries or from an id that a later block has again. */
  lemma {:induction false} DisconnectsWithout(t: Tree, p: seq<Hash>, k: nat, missing: set<TxId>)
    requires Known(t, p) && 0 < k <= |p| && Replay(t, p).Some? && Known(t, p[k..])
    ensures DisconnectAll(t, Replay(t, p).value - missing, p[k..]).Some? <==> SparesFrom(t, p, k, missing)
    decreases |p|
  {
    if k < |p| {
      var h := Last(p);
      DisconnectAllNext(t, Replay(t, p).value - missing, p, k);
      DisconnectLast(Replay(t, Front(p)).value, h, t[h].txs, missing);
      SparesFromNext(t, p, k, missing);
      if Spares(t[h].txs, missing) { DisconnectsWithout(t, Front(p), k, missing + Ids(t[h].txs)); }
    }
  }

  /** The same for an index that lacks some spent entries, as reorganisations leave it. */
  ghost predicate CanDisconnect(t: Tree, v: TxMap, p: seq<Hash>, k: nat)
    requires Known(t, p) && Replay(t, p).Some?
  {
    SparesFrom(t, p, k, Replay(t, p).value.Keys - v.Keys)
  }

  lemma DisconnectsExactly(t: Tree, v: TxMap, p: seq<Hash>, k: nat)
    requires Known(t, p) && 0 < k <= |p| && Replay(t, p).Some? && Known(t, p[k..])
    requires Prunes(v, Replay(t, p).value)
    ensures DisconnectAll(t, v, p[k..]).Some? <==> CanDisconnect(t, v, p, k)
  {
    var s := Replay(t, p).value;
    assert v == s - (s.Keys - v.Keys);
    DisconnectsWithout(t, p, k, s.Keys - v.Keys);
  }

  /** From the full index, the end of a chain can be disconnected if and only if none of its blocks spends from
      an id that a later block has again. */
  lemma ReusedIdsExactly(t: Tree, p: seq<Hash>, k: nat)
    requires Known(t, p) && 0 < k <= |p| && Replay(t, p).Some? && Known(t, p[k..])
    ensures DisconnectAll(t, Replay(t, p).value, p[k..]).Some?
       <==> forall i, j :: k <= i < j < |p| ==> Spares(t[p[i]].txs, Ids(t[p[j]].txs))
  {
    var s := Replay(t, p).value;
    assert s - {} == s;
    DisconnectsWithout(t, p, k, {});
    assert forall i :: k <= i < |p| ==> (SparesLater(t, p, i) <==>
        forall j :: i < j < |p| ==> Spares(t[p[i]].txs, Ids(t[p[j]].txs)));
  }

  // ---------- connecting ----------

  /** Block h is accepted on top of the replay of the chain p. */
  ghost predicate Acceptable(t: Tree, p: seq<Hash>, h: Hash, vs: Verdicts)
    requires Known(t, p) && p != [] && h in t
  {
    && Replay(t, p).Some?
    && var v := Replay(t, p).value;
      Accepts(v, Context(h, t[h].time, |p| - 1, Total(v)), t[h].txs, vs(h))
  }

  ghost predicate AcceptableAt(t: Tree, p: seq<Hash>, j: nat, vs: Verdicts)
    requires Known(t, p) && 0 < j < |p|
  {
    Acceptable(t, p[..j], p[j], vs)
  }

  /** All blocks of p from position k on are accepted, each on top of those before it. */
  ghost predicate AllAcceptable(t: Tree, p: seq<Hash>, k: nat, vs: Verdicts)
    requires Known(t, p) && 0 < k
  {
    forall j :: k <= j < |p| ==> AcceptableAt(t, p, j, vs)
  }

  lemma AcceptsPruned(d: TxMap, s: TxMap, c: Context, txs: seq<Tx>, verdict: Verdict)
    requires Prunes(d, s)
    ensures Accepts(d, c, txs, verdict) <==> Accepts(s, c, txs, verdict)
  {
    PrunesConnectTxs(d, s, c.hash, txs);
  }

  lemma ConnectStepExactly(t: Tree, w: Work, p: seq<Hash>, h: Hash, vs: Verdicts)
    requires p != [] && IsChain(t, p + [h]) && Known(t, p) && h in t && Tracks(t, w, p)
    ensures ConnectStep(t, w, h, vs).0 <==> Acceptable(t, p, h, vs)
  {
    assert ChainAt(t, p + [h], |p|) && SupplyAt(t, w.supply, p, |p| - 1) && p[..|p| - 1 + 1] == p;
    AcceptsPruned(w.index, Replay(t, p).value, ContextOf(t, w.supply, h), t[h].txs, vs(h));
  }

  lemma AcceptableNext(t: Tree, p: seq<Hash>, k: nat, vs: Verdicts)
    requires 0 < k < |p| && Known(t, p) && Known(t, Front(p))
    ensures AllAcceptable(t, p, k, vs) <==> AllAcceptable(t, Front(p), k, vs) && Acceptable(t, Front(p), Last(p), vs)
  {
    assert forall j :: 0 <= j < |p| ==> p[..j] == Front(p)[..j];
    assert p[..|p| - 1] == Front(p);
    forall j | k <= j < |p| - 1 ensures AcceptableAt(t, p, j, vs) <==> AcceptableAt(t, Front(p), j, vs) {}
    assert AcceptableAt(t, p, |p| - 1, vs) <==> Acceptable(t, Front(p), Last(p), vs);
  }

  lemma {:induction false} ConnectAllExactly(t: Tree, w: Work, p: seq<Hash>, k: nat, vs: Verdicts)
    requires IsChain(t, p) && 0 < k <= |p| && Known(t, p) && Known(t, p[..k]) && Known(t, p[k..])
    requires Tracks(t, w, p[..k])
    ensures ConnectAll(t, w, p[k..], vs).0 <==> AllAcceptable(t, p, k, vs)
    decreases |p|
  {
    if k < |p| {
      var q, h := Front(p), Last(p);
      assert Front(p[k..]) == q[k..] && q[..k] == p[..k] && p == q + [h];
      ChainPrefix(t, p, |p| - 1);
      ConnectAllExactly(t, w, q, k, vs);
      ConnectAllTracks(t, w, q, k, vs);
      AcceptableNext(t, p, k, vs);
      var (ok, w1) := ConnectAll(t, w, q[k..], vs);
      if ok { ConnectStepExactly(t, w1, q, h, vs); }
    }
  }

  // ---------- switching ----------

  /** What a reorganisation of s to new needs. */
  ghost predicate CanReorganize(s: Chain, g: Hash, new': Hash, vs: Verdicts)
    requires Good(s, g) && new' in s.tree
  {
    PathKnown(s.tree, g, new');
    ForkIsCommonPrefix(s.tree, g, s.best, new');
    var p, q := Path(s.tree, g, s.best), Path(s.tree, g, new');
    var k := CommonPrefix(p, q);
    CanDisconnect(s.tree, s.index, p, k) && AllAcceptable(s.tree, q, k, vs)
  }

  lemma ReorganizesExactly(s: Chain, g: Hash, new': Hash, vs: Verdicts)
    requires Good(s, g) && new' in s.tree
    ensures Reorganize(s, g, new', vs).0 <==> CanReorganize(s, g, new', vs)
  {
    var t := s.tree;
    PathIsChain(t, g, s.best); PathIsChain(t, g, new');
    var p, q := Path(t, g, s.best), Path(t, g, new');
    var k := CommonPrefix(p, q);
    ForkIsCommonPrefix(t, g, s.best, new');
    DisconnectsExactly(t, s.index, p, k);
    if DisconnectAll(t, s.index, p[k..]).Some? {
      var v := DisconnectAll(t, s.index, p[k..]).value;
      DisconnectAllReplays(t, s.index, p, k);
      SupplyPrefix(t, s.supply, p, k);
      ConnectAllExactly(t, Work(v, s.supply), q, k, vs);
    }
  }

  lemma InnerExactly(s: Chain, g: Hash, tip: Hash, h: Hash, vs: Verdicts)
    requires Consistent(s, g, tip) && h in s.tree && s.tree[h].height > 0 && s.tree[h].prev == tip
    ensures Known(s.tree, Path(s.tree, g, tip))
    ensures Inner(s, h, vs).0 <==> Acceptable(s.tree, Path(s.tree, g, tip), h, vs)
  {
    var p := Path(s.tree, g, tip);
    PathIsChain(s.tree, g, h);
    assert Path(s.tree, g, h) == p + [h];
    ConnectStepExactly(s.tree, Work(s.index, s.supply), p, h, vs);
  }

  lemma PostponedNext(s: Chain, hs: seq<Hash>, front: seq<Hash>, h: Hash, vs: Verdicts)
    requires Known(s.tree, hs) && Known(s.tree, front) && hs != [] && Front(hs) == front && Last(hs) == h && h in s.tree
    ensures var (ok, s1) := Postponed(s, front, vs);
      Postponed(s, hs, vs).0 <==> ok && Inner(s1, h, vs).0
  {
  }

  lemma {:induction false} PostponedExactly(s: Chain, g: Hash, h: Hash, i: nat, vs: Verdicts)
    requires WfTree(s.tree, g) && h in s.tree && i <= s.tree[h].height && Known(s.tree, Path(s.tree, g, h))
    requires Consistent(s, g, Path(s.tree, g, h)[i]) && Known(s.tree, Path(s.tree, g, h)[i + 1..])
    ensures Postponed(s, Path(s.tree, g, h)[i + 1..], vs).0 <==> AllAcceptable(s.tree, Path(s.tree, g, h), i + 1, vs)
    decreases s.tree[h].height
  {
    var q := Path(s.tree, g, h);
    PathEnds(s.tree, g, h);
    if i < s.tree[h].height {
      var parent := s.tree[h].prev;
      PathTail(s.tree, g, h, i + 1);
      PathKnown(s.tree, g, parent);
      var q0 := Path(s.tree, g, parent);
      assert q == q0 + [h] && Front(q) == q0;
      PostponedExactly(s, g, parent, i, vs);
      AcceptableNext(s.tree, q, i + 1, vs);
      PostponedNext(s, q[i + 1..], q0[i + 1..], h, vs);
      if Postponed(s, q0[i + 1..], vs).0 {
        PostponedKeeps(s, g, parent, i, vs);
        InnerExactly(Postponed(s, q0[i + 1..], vs).1, g, parent, h, vs);
      }
    }
  }

  /** What a call of SetBestChain needs to succeed: the new block extends the best chain and is accepted, or the
      reorganisation to the pivot can be made. */
  ghost predicate CanSwitch(s: Chain, g: Hash, new': Hash, vs: Verdicts)
    requires Good(s, g) && new' in s.tree
  {
    if s.tree[new'].prev == s.best then
      Known(s.tree, Path(s.tree, g, s.best)) && Acceptable(s.tree, Path(s.tree, g, s.best), new', vs)
    else
      var target := Path(s.tree, g, new')[Pivot(s, g, new')];
      target in s.tree && CanReorganize(s, g, target, vs)
  }

  /** All blocks above the pivot, whose connection is postponed, are accepted on top of those before them. */
  ghost predicate PostponedAccepted(s: Chain, g: Hash, new': Hash, vs: Verdicts)
    requires Good(s, g) && new' in s.tree
  {
    PathKnown(s.tree, g, new');
    AllAcceptable(s.tree, Path(s.tree, g, new'), Pivot(s, g, new') + 1, vs)
  }

  lemma SwitchBranchExactly(s: Chain, g: Hash, new': Hash, vs: Verdicts)
    requires Good(s, g) && new' in s.tree
    ensures var r, target := SwitchBranch(s, g, new', vs), Path(s.tree, g, new')[Pivot(s, g, new')];
      && target in s.tree && (r.ok <==> CanReorganize(s, g, target, vs))
      && (r.ok ==> (r.complete <==> PostponedAccepted(s, g, new', vs)))
  {
    PathKnown(s.tree, g, new');
    var q, i := Path(s.tree, g, new'), Pivot(s, g, new');
    var r := Reorganize(s, g, q[i], vs);
    ReorganizesExactly(s, g, q[i], vs);
    ReorganizeKeeps(s, g, q[i], vs);
    if r.0 { PostponedExactly(r.1, g, new', i, vs); }
  }

  /** Nothing is postponed when the best chain is extended. */
  lemma NothingPostponed(s: Chain, g: Hash, new': Hash)
    requires Good(s, g) && new' in s.tree && s.tree[new'].height > 0 && s.tree[new'].prev == s.best
    ensures Pivot(s, g, new') == s.tree[new'].height
  {
    PathKnown(s.tree, g, new');
    PathEnds(s.tree, g, new');
    PathEnds(s.tree, g, s.best);
    PathAt(s.tree, g, new', s.tree[new'].height);
  }

  /** A call of SetBestChain succeeds if and only if the switch can be made, and a successful call leaves the node
      consistent if and only if the postponed blocks are accepted on top of those before them. */
  lemma SetBestChainExactly(s: Chain, g: Hash, new': Hash, vs: Verdicts)
    requires Good(s, g) && new' in s.tree && s.tree[new'].height > 0
    ensures var r := SetBestChain(s, g, new', vs);
      && (r.ok <==> CanSwitch(s, g, new', vs))
      && (r.ok ==> (Good(r.chain, g) <==> PostponedAccepted(s, g, new', vs)))
      && (r.ok ==> (r.complete <==> PostponedAccepted(s, g, new', vs)))
  {
    SetBestChainKeeps(s, g, new', vs);
    if s.tree[new'].prev == s.best {
      InnerExactly(s, g, s.best, new', vs);
      NothingPostponed(s, g, new');
    } else {
      SwitchBranchExactly(s, g, new', vs);
    }
  }

  // ---------- postponing is a reorganisation in two steps ----------

  /** The pivot lies above the fork, or is the new block itself. */
  lemma PivotAboveFork(s: Chain, g: Hash, new': Hash)
    requires Rooted(s, g) && new' in s.tree
    ensures var i := Pivot(s, g, new');
      i == s.tree[new'].height || CommonPrefix(Path(s.tree, g, s.best), Path(s.tree, g, new')) <= i
  {
    var p, q, i := Path(s.tree, g, s.best), Path(s.tree, g, new'), Pivot(s, g, new');
    var k := CommonPrefix(p, q);
    PivotOutweighs(s, g, new');
    if i < k {
      assert p[..k][i] == q[..k][i];
      PathAt(s.tree, g, s.best, i);
    }
  }

  lemma ForkBelow(p: seq<Hash>, q: seq<Hash>, n: nat)
    requires n <= |q| && CommonPrefix(p, q) <= n
    ensures CommonPrefix(p, q[..n]) == CommonPrefix(p, q)
  {
    var k, k' := CommonPrefix(p, q), CommonPrefix(p, q[..n]);
    assert q[..n][..k] == q[..k] && q[..n][..k'] == q[..k'];
    CommonPrefixMaximal(p, q, k');
    CommonPrefixMaximal(p, q[..n], k);
  }

  lemma AllAcceptableSplit(t: Tree, q: seq<Hash>, k: nat, n: nat, vs: Verdicts)
    requires 0 < k <= n <= |q| && Known(t, q) && Known(t, q[..n])
    ensures AllAcceptable(t, q, k, vs) <==> AllAcceptable(t, q[..n], k, vs) && AllAcceptable(t, q, n, vs)
  {
    forall j | k <= j < n ensures AcceptableAt(t, q[..n], j, vs) <==> AcceptableAt(t, q, j, vs) {
      assert q[..n][..j] == q[..j] && q[..n][j] == q[j];
    }
    assert forall j :: k <= j < n ==> (AcceptableAt(t, q[..n], j, vs) <==> AcceptableAt(t, q, j, vs));
  }

  /** The blocks that a switch via the pivot has to connect are those that a reorganisation to the new block has to. */
  lemma ViaPivot(s: Chain, g: Hash, new': Hash, vs: Verdicts)
    requires Good(s, g) && new' in s.tree
    ensures var target := Path(s.tree, g, new')[Pivot(s, g, new')];
      && target in s.tree
      && (CanReorganize(s, g, target, vs) && PostponedAccepted(s, g, new', vs) <==> CanReorganize(s, g, new', vs))
  {
    var p, q, i := Path(s.tree, g, s.best), Path(s.tree, g, new'), Pivot(s, g, new');
    PathKnown(s.tree, g, new');
    PathAt(s.tree, g, new', i);
    PathKnown(s.tree, g, q[i]);
    PivotAboveFork(s, g, new');
    ForkIsCommonPrefix(s.tree, g, s.best, new');
    ForkBelow(p, q, i + 1);
    AllAcceptableSplit(s.tree, q, CommonPrefix(p, q), i + 1, vs);
  }

  /** A block that extends the best chain only has to be accepted itself. */
  lemma ExtendingReorganizes(s: Chain, g: Hash, new': Hash, vs: Verdicts)
    requires Good(s, g) && new' in s.tree && s.tree[new'].height > 0 && s.tree[new'].prev == s.best
    ensures CanSwitch(s, g, new', vs) <==> CanReorganize(s, g, new', vs)
  {
    var p, q := Path(s.tree, g, s.best), Path(s.tree, g, new');
    assert LinksToParent(s.tree, new');
    assert q == p + [new'] && q[..|p|] == p;
    PathKnown(s.tree, g, new');
    PathKnown(s.tree, g, s.best);
    ForkIsCommonPrefix(s.tree, g, s.best, new');
    CommonPrefixMaximal(p, q, |p|);
    assert AllAcceptable(s.tree, q, |p|, vs) <==> AcceptableAt(s.tree, q, |p|, vs);
  }

  /** Postponing the connection of some blocks makes no difference to when the switch can be made: a call of
      SetBestChain succeeds and leaves the node consistent if and only if one reorganisation all the way to the new
      block would succeed. */
  lemma SetBestChainReorganizes(s: Chain, g: Hash, new': Hash, vs: Verdicts)
    requires Good(s, g) && new' in s.tree && s.tree[new'].height > 0
    ensures var r := SetBestChain(s, g, new', vs);
      && (r.ok && r.complete <==> CanReorganize(s, g, new', vs))
      && (r.ok && r.complete <==> Reorganize(s, g, new', vs).0)
  {
    SetBestChainExactly(s, g, new', vs);
    ReorganizesExactly(s, g, new', vs);
    if s.tree[new'].prev == s.best {
      ExtendingReorganizes(s, g, new', vs);
      SetBestChainKeeps(s, g, new', vs);
    } else {
      ViaPivot(s, g, new', vs);
    }
  }
}
