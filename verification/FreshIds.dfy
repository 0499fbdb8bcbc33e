/** Stronger guarantees when no transaction id occurs in two blocks of a chain that connects. */
module FreshIds {
  import opened Basics
  import opened Ledger
  import opened BlockTree
  import opened ChainSpec
  import opened ChainLaws

  ghost predicate FreshChain(t: Tree, p: seq<Hash>)
    requires Known(t, p)
  {
    forall i, j :: 1 <= i < j < |p| ==> Ids(t[p[i]].txs) !! Ids(t[p[j]].txs)
  }

  /** Every chain of the tree that connects has fresh ids. */
  ghost predicate FreshTree(t: Tree, g: Hash)
    requires WfTree(t, g)
  {
    forall h :: h in t ==>
      Known(t, Path(t, g, h)) && (Replay(t, Path(t, g, h)).Some? ==> FreshChain(t, Path(t, g, h)))
  }

  // ---------- the index holds only ids of connected blocks ----------

  lemma {:induction false} ConnectKeys(db: TxMap, h: Hash, txs: seq<Tx>)
    requires ConnectTxs(db, h, txs).Some?
    ensures ConnectTxs(db, h, txs).value.view.Keys == db.Keys + Ids(txs)
  {
    if txs != [] {
      IdsSplit(txs);
      ConnectKeys(db, h, Front(txs));
      var v := ConnectTxs(db, h, Front(txs)).value.view;
      if !Last(txs).IsCoinBase() {
        SpendMarks(v, Last(txs).vin, BlockPos(h, |txs| - 1, Last(txs)));
      }
    }
  }

  lemma {:induction false} ReplayKeysFresh(t: Tree, p: seq<Hash>, h: Hash)
    requires Known(t, p + [h]) && Known(t, p) && p != [] && h in t && FreshChain(t, p + [h]) && Replay(t, p).Some?
    ensures Replay(t, p).value.Keys !! Ids(t[h].txs)
  {
    if |p| > 1 {
      var q, l := Front(p), Last(p);
      assert p == q + [l];
      forall i, j | 1 <= i < j < |q + [h]| ensures Ids(t[(q + [h])[i]].txs) !! Ids(t[(q + [h])[j]].txs) {
        assert (q + [h])[i] == (p + [h])[i];
        assert j == |q| ==> (q + [h])[j] == (p + [h])[|p|];
        assert j < |q| ==> (q + [h])[j] == (p + [h])[j];
      }
      ReplayKeysFresh(t, q, h);
      ConnectKeys(Replay(t, q).value, l, t[l].txs);
      assert (p + [h])[|p| - 1] == l && (p + [h])[|p|] == h;
    }
  }

  lemma FreshPrefix(t: Tree, p: seq<Hash>, k: nat)
    requires Known(t, p) && FreshChain(t, p) && k <= |p|
    ensures Known(t, p[..k]) && FreshChain(t, p[..k])
  {
  }

  // ---------- exact replay ----------

  /** Disconnecting the last block of a chain gives the replay of the rest. */
  lemma DisconnectLastExact(t: Tree, p: seq<Hash>, q: seq<Hash>, h: Hash)
    requires p == q + [h] && q != [] && Known(t, p) && Known(t, q) && h in t && FreshChain(t, p) && Replay(t, p).Some?
    ensures FreshChain(t, q) && Replay(t, q).Some? && Disconnect(Replay(t, p).value, t[h].txs) == Replay(t, q)
  {
    assert Front(p) == q && Last(p) == h && p[..|q|] == q;
    FreshPrefix(t, p, |q|);
    ReplayKeysFresh(t, q, h);
    DisconnectUndoesConnect(Replay(t, q).value, h, t[h].txs);
  }

  /** With fresh ids, disconnecting the end of a chain never fails and gives exactly the replay of the rest. */
  lemma {:induction false} DisconnectAllExact(t: Tree, p: seq<Hash>, k: nat)
    requires Known(t, p) && FreshChain(t, p) && 0 < k <= |p| && Replay(t, p).Some? && Known(t, p[k..])
    ensures Known(t, p[..k]) && Replay(t, p[..k]).Some?
    ensures DisconnectAll(t, Replay(t, p).value, p[k..]) == Replay(t, p[..k])
    decreases |p|
  {
    if k == |p| {
      assert p[..k] == p;
    } else {
      var q, h := Front(p), Last(p);
      assert Front(p[k..]) == q[k..] && q[..k] == p[..k] && p == q + [h];
      DisconnectLastExact(t, p, q, h);
      DisconnectAllExact(t, q, k);
    }
  }

  lemma ConnectStepExact(t: Tree, w: Work, q: seq<Hash>, h: Hash, vs: Verdicts)
    requires q != [] && Known(t, q) && Known(t, q + [h]) && h in t && Replay(t, q) == Some(w.index)
             && ConnectStep(t, w, h, vs).0
    ensures Replay(t, q + [h]) == Some(ConnectStep(t, w, h, vs).1.index)
  {
    assert Front(q + [h]) == q && Last(q + [h]) == h;
  }

  lemma {:induction false} ConnectAllExact(t: Tree, w: Work, p: seq<Hash>, k: nat, vs: Verdicts)
    requires 0 < k <= |p| && Known(t, p) && Known(t, p[..k]) && Known(t, p[k..])
    requires Replay(t, p[..k]) == Some(w.index) && ConnectAll(t, w, p[k..], vs).0
    ensures Replay(t, p) == Some(ConnectAll(t, w, p[k..], vs).1.index)
    decreases |p|
  {
    if k == |p| {
      assert p[..k] == p;
    } else {
      var q, h := Front(p), Last(p);
      assert Front(p[k..]) == q[k..] && q[..k] == p[..k] && Last(p[k..]) == h && p == q + [h];
      ConnectAllExact(t, w, q, k, vs);
      ConnectStepExact(t, ConnectAll(t, w, q[k..], vs).1, q, h, vs);
    }
  }

  /** The index is exactly the replay of the chain to tip. */
  ghost predicate Exact(s: Chain, g: Hash, tip: Hash) {
    && Consistent(s, g, tip)
    && Known(s.tree, Path(s.tree, g, tip))
    && Replay(s.tree, Path(s.tree, g, tip)) == Some(s.index)
  }

  lemma ReorganizeExact(s: Chain, g: Hash, new': Hash, vs: Verdicts)
    requires Exact(s, g, s.best) && FreshTree(s.tree, g) && new' in s.tree
    ensures var (ok, s') := Reorganize(s, g, new', vs);
      ok ==> Exact(s', g, new')
  {
    var t := s.tree;
    ReorganizeKeeps(s, g, new', vs);
    PathIsChain(t, g, s.best); PathIsChain(t, g, new');
    var p, q := Path(t, g, s.best), Path(t, g, new');
    var k := CommonPrefix(p, q);
    ForkIsCommonPrefix(t, g, s.best, new');
    DisconnectAllExact(t, p, k);
    var w := Work(DisconnectAll(t, s.index, p[k..]).value, s.supply);
    if ConnectAll(t, w, q[k..], vs).0 {
      ConnectAllExact(t, w, q, k, vs);
    }
  }

  lemma InnerExact(s: Chain, g: Hash, tip: Hash, h: Hash, vs: Verdicts)
    requires Exact(s, g, tip) && h in s.tree && s.tree[h].height > 0 && s.tree[h].prev == tip
    requires Inner(s, h, vs).0
    ensures Exact(Inner(s, h, vs).1, g, h)
  {
    InnerKeeps(s, g, tip, h, vs);
    PathIsChain(s.tree, g, h);
    assert Front(Path(s.tree, g, h)) == Path(s.tree, g, tip);
  }

  lemma {:induction false} PostponedExact(s: Chain, g: Hash, h: Hash, i: nat, vs: Verdicts)
    requires WfTree(s.tree, g) && h in s.tree && i <= s.tree[h].height
    requires Exact(s, g, Path(s.tree, g, h)[i]) && Known(s.tree, Path(s.tree, g, h)[i + 1..])
    requires Postponed(s, Path(s.tree, g, h)[i + 1..], vs).0
    ensures Exact(Postponed(s, Path(s.tree, g, h)[i + 1..], vs).1, g, h)
    decreases s.tree[h].height
  {
    PathEnds(s.tree, g, h);
    if i < s.tree[h].height {
      var parent := s.tree[h].prev;
      PathTail(s.tree, g, h, i + 1);
      var q0 := Path(s.tree, g, parent);
      PostponedLast(s, Path(s.tree, g, h)[i + 1..], q0[i + 1..], h, vs);
      PostponedExact(s, g, parent, i, vs);
      InnerExact(Postponed(s, q0[i + 1..], vs).1, g, parent, h, vs);
    }
  }

  lemma PostponedLast(s: Chain, hs: seq<Hash>, front: seq<Hash>, h: Hash, vs: Verdicts)
    requires Known(s.tree, hs) && Known(s.tree, front) && hs != [] && Front(hs) == front && Last(hs) == h
    requires Postponed(s, hs, vs).0
    ensures Postponed(s, front, vs).0 && h in s.tree && Postponed(s, hs, vs) == Inner(Postponed(s, front, vs).1, h, vs)
  {
    assert h in hs;
  }

  lemma FinishExact(s: Chain, g: Hash, h: Hash, i: nat, vs: Verdicts)
    requires WfTree(s.tree, g) && h in s.tree && i <= s.tree[h].height
    requires Exact(s, g, Path(s.tree, g, h)[i]) && Known(s.tree, Path(s.tree, g, h)[i + 1..])
    requires Finish((true, s), Path(s.tree, g, h)[i + 1..], vs).complete
    ensures Exact(Finish((true, s), Path(s.tree, g, h)[i + 1..], vs).chain, g, h)
  {
    PostponedExact(s, g, h, i, vs);
  }

  lemma SwitchExact(s: Chain, g: Hash, new': Hash, vs: Verdicts)
    requires Exact(s, g, s.best) && FreshTree(s.tree, g) && new' in s.tree
    ensures var r := SwitchBranch(s, g, new', vs);
      r.ok && r.complete ==> Exact(r.chain, g, new')
  {
    PathKnown(s.tree, g, new');
    var q, i := Path(s.tree, g, new'), Pivot(s, g, new');
    var r := Reorganize(s, g, q[i], vs);
    ReorganizeExact(s, g, q[i], vs);
    if r.0 && Finish(r, q[i + 1..], vs).complete {
      assert r == (true, r.1);
      FinishExact(r.1, g, new', i, vs);
    }
  }

  lemma SetBestChainExact(s: Chain, g: Hash, new': Hash, vs: Verdicts)
    requires Exact(s, g, s.best) && FreshTree(s.tree, g) && new' in s.tree && s.tree[new'].height > 0
    requires SetBestChain(s, g, new', vs).complete
    ensures var r := SetBestChain(s, g, new', vs); Exact(r.chain, g, r.chain.best)
  {
    SetBestChainKeeps(s, g, new', vs);
    if SetBestChain(s, g, new', vs).ok {
      if s.tree[new'].prev == s.best {
        InnerExact(s, g, s.best, new', vs);
      } else {
        SwitchExact(s, g, new', vs);
      }
    }
  }

  // ---------- runs ----------

  lemma FreshSubtree(t: Tree, t': Tree, g: Hash)
    requires WfTree(t, g) && WfTree(t', g) && FreshTree(t', g)
    requires forall x :: x in t ==> x in t' && t'[x] == t[x]
    ensures FreshTree(t, g)
  {
    forall h | h in t
      ensures Known(t, Path(t, g, h)) && (Replay(t, Path(t, g, h)).Some? ==> FreshChain(t, Path(t, g, h)))
    {
      PathStable(t, t', g, h);
      PathIsChain(t, g, h);
      ReplayStable(t, t', Path(t, g, h));
    }
  }

  lemma GrowExact(s: Chain, g: Hash, b: NewBlock)
    requires Exact(s, g, s.best) && b.hash !in s.tree && b.prev in s.tree
    ensures Exact(s.(tree := Insert(s.tree, b)), g, s.best)
  {
    var t' := Insert(s.tree, b);
    GrowTree(s, g, b);
    PathStable(s.tree, t', g, s.best);
    ReplayStable(s.tree, t', Path(s.tree, g, s.best));
  }

  lemma StepExact(s: Chain, g: Hash, e: Event)
    requires Exact(s, g, s.best) && Step(s, g, e).complete
    requires WfTree(Step(s, g, e).chain.tree, g) && FreshTree(Step(s, g, e).chain.tree, g)
    ensures var s' := Step(s, g, e).chain; Exact(s', g, s'.best)
  {
    match e
    case Arrive(b, vs) =>
      if b.hash !in s.tree && b.prev in s.tree {
        GrowExact(s, g, b);
        var s1 := s.(tree := Insert(s.tree, b));
        if s1.tree[b.hash].trust > s1.tree[s.best].trust {
          SetBestChainKeeps(s1, g, b.hash, vs);
          SetBestChainExact(s1, g, b.hash, vs);
        }
      }
    case Force(h, vs) =>
      if h in s.tree && !IsInMainChain(s, h) {
        InMainChainIffAncestor(s, g, h);
        PathEnds(s.tree, g, s.best);
        SetBestChainKeeps(s, g, h, vs);
        SetBestChainExact(s, g, h, vs);
      }
  }

  lemma {:induction false} RunExact(s: Chain, g: Hash, events: seq<Event>, s': Chain)
    requires IsStart(s, g) && Reaches(s, g, events, s') && WfTree(s'.tree, g) && FreshTree(s'.tree, g)
    ensures Exact(s', g, s'.best)
    decreases |events|
  {
    StartIsGood(s, g);
    if events == [] {
      assert Path(s.tree, g, g) == [g];
    } else {
      var m :| Reaches(s, g, Front(events), m) && Rooted(m, g)
               && Step(m, g, Last(events)).complete && s' == Step(m, g, Last(events)).chain;
      RunKeeps(s, g, Front(events), m);
      StepTree(m, g, Last(events));
      FreshSubtree(m.tree, s'.tree, g);
      RunExact(s, g, Front(events), m);
      StepExact(m, g, Last(events));
    }
  }

  lemma StepTree(s: Chain, g: Hash, e: Event)
    requires Good(s, g) && Step(s, g, e).complete
    ensures forall x :: x in s.tree ==> x in Step(s, g, e).chain.tree && Step(s, g, e).chain.tree[x] == s.tree[x]
  {
    match e
    case Arrive(b, vs) =>
      if b.hash !in s.tree && b.prev in s.tree {
        InsertKeepsTree(s.tree, g, b);
        GrowTree(s, g, b);
        var s1 := s.(tree := Insert(s.tree, b));
        if s1.tree[b.hash].trust > s1.tree[s.best].trust { SetBestChainKeeps(s1, g, b.hash, vs); }
      }
    case Force(h, vs) =>
      if h in s.tree && !IsInMainChain(s, h) {
        InMainChainIffAncestor(s, g, h);
        PathEnds(s.tree, g, s.best);
        SetBestChainKeeps(s, g, h, vs);
      }
  }

  // ---------- no output is spent twice ----------

  /** The outpoints a block consumes, in order. */
  function Consumed(txs: seq<Tx>): seq<OutPoint> {
    if txs == [] then [] else Consumed(Front(txs)) + ConsumedByTx(Last(txs))
  }

  function ConsumedByTx(tx: Tx): seq<OutPoint> { if tx.IsCoinBase() then [] else tx.vin }

  function ConsumedBy(t: Tree, p: seq<Hash>): seq<OutPoint>
    requires Known(t, p)
  {
    if |p| <= 1 then [] else ConsumedBy(t, Front(p)) + Consumed(t[Last(p)].txs)
  }

  ghost predicate AllSpent(v: TxMap, os: seq<OutPoint>) {
    forall o :: o in os ==> InIndex(v, o) && v[o.hash].spent[o.n] != NullPos
  }

  ghost predicate SpentOnce(v: TxMap, os: seq<OutPoint>) { AllSpent(v, os) && Distinct(os) }

  /** One transaction with a new id: everything spent before stays spent, and nothing is spent again. */
  lemma ConsumeTx(db: TxMap, t: Tally, tx: Tx, pos: DiskTxPos, os: seq<OutPoint>)
    requires ConnectTx(db, t, tx, pos).Some? && pos != NullPos && tx.hash !in t.view
    requires SpentOnce(t.view, os)
    ensures SpentOnce(ConnectTx(db, t, tx, pos).value.view, os + ConsumedByTx(tx))
  {
    if tx.IsCoinBase() {
      assert os + [] == os;
      EntryKeepsSpent(t.view, os, tx, pos);
    } else {
      SpendExtends(t.view, os, tx.vin, pos);
      SpendMarks(t.view, tx.vin, pos);
      EntryKeepsSpent(Spend(t.view, tx.vin, pos).value, os + tx.vin, tx, pos);
    }
  }

  lemma {:induction false} ConsumedOnce(db: TxMap, h: Hash, txs: seq<Tx>, before: seq<OutPoint>)
    requires ConnectTxs(db, h, txs).Some? && UniqueIds(txs) && db.Keys !! Ids(txs)
    requires SpentOnce(db, before)
    ensures SpentOnce(ConnectTxs(db, h, txs).value.view, before + Consumed(txs))
  {
    if txs == [] {
      assert before + Consumed(txs) == before;
    } else {
      IdsSplit(txs);
      ConsumedOnce(db, h, Front(txs), before);
      ConnectKeys(db, h, Front(txs));
      ConsumeLast(db, h, txs, before);
    }
  }

  lemma ConsumeLast(db: TxMap, h: Hash, txs: seq<Tx>, before: seq<OutPoint>)
    requires txs != [] && ConnectTxs(db, h, txs).Some?
    requires Last(txs).hash !in ConnectTxs(db, h, Front(txs)).value.view
    requires SpentOnce(ConnectTxs(db, h, Front(txs)).value.view, before + Consumed(Front(txs)))
    ensures SpentOnce(ConnectTxs(db, h, txs).value.view, before + Consumed(txs))
  {
    var tx, os := Last(txs), before + Consumed(Front(txs));
    ConsumeTx(db, ConnectTxs(db, h, Front(txs)).value, tx, BlockPos(h, |txs| - 1, tx), os);
    ConsumedSplit(txs, before);
  }

  lemma ConsumedSplit(txs: seq<Tx>, before: seq<OutPoint>)
    requires txs != []
    ensures before + Consumed(txs) == (before + Consumed(Front(txs))) + ConsumedByTx(Last(txs))
  {
    AppendAssociative(before, Consumed(Front(txs)), ConsumedByTx(Last(txs)));
  }

  lemma EntryKeepsSpent(v: TxMap, os: seq<OutPoint>, tx: Tx, pos: DiskTxPos)
    requires AllSpent(v, os) && tx.hash !in v
    ensures AllSpent(v[tx.hash := NewEntry(pos, tx)], os)
  {
  }

  lemma SpendExtends(v: TxMap, os: seq<OutPoint>, vin: seq<OutPoint>, p: DiskTxPos)
    requires p != NullPos && Spend(v, vin, p).Some? && AllSpent(v, os) && Distinct(os)
    ensures AllSpent(Spend(v, vin, p).value, os + vin) && Distinct(os + vin)
  {
    SpendMarks(v, vin, p);
    var w := Spend(v, vin, p).value;
    forall o | o in os + vin ensures InIndex(w, o) && w[o.hash].spent[o.n] != NullPos {
      if o !in vin { assert OutPoint(o.hash, o.n) !in vin; }
    }
    forall i, j | 0 <= i < j < |os + vin| ensures (os + vin)[i] != (os + vin)[j] {
      if i < |os| <= j { assert os[i] in os && vin[j - |os|] in vin; }
    }
  }

  /** Along a chain with fresh ids, each output is spent by at most one input. */
  lemma {:induction false} NoDoubleSpend(t: Tree, p: seq<Hash>)
    requires Known(t, p) && FreshChain(t, p) && Replay(t, p).Some?
    ensures SpentOnce(Replay(t, p).value, ConsumedBy(t, p))
  {
    if |p| > 1 {
      FreshFront(t, p);
      NoDoubleSpend(t, Front(p));
      ConsumeBlock(t, p, Front(p), Last(p));
    }
  }

  lemma FreshFront(t: Tree, p: seq<Hash>)
    requires |p| > 1 && Known(t, p) && FreshChain(t, p) && Replay(t, p).Some?
    ensures var q, h := Front(p), Last(p);
      && p == q + [h] && h in t && Known(t, q) && FreshChain(t, q) && Replay(t, q).Some?
      && Replay(t, q).value.Keys !! Ids(t[h].txs)
  {
    FrontAndLast(p);
    FreshPrefix(t, p, |p| - 1);
    ReplayKeysFresh(t, Front(p), Last(p));
  }

  lemma ConsumeBlock(t: Tree, p: seq<Hash>, q: seq<Hash>, h: Hash)
    requires q != [] && p == q + [h] && Known(t, p) && Known(t, q) && h in t && Replay(t, p).Some? && Replay(t, q).Some?
    requires Replay(t, q).value.Keys !! Ids(t[h].txs) && SpentOnce(Replay(t, q).value, ConsumedBy(t, q))
    ensures SpentOnce(Replay(t, p).value, ConsumedBy(t, p))
  {
    assert Front(p) == q && Last(p) == h;
    ConsumedOnce(Replay(t, q).value, h, t[h].txs, ConsumedBy(t, q));
  }

  /** After any run over blocks with fresh ids, the index equals the replay of the best chain
      from an empty index, and no output of that chain was spent twice. */
  lemma EveryFreshRun(s: Chain, g: Hash, events: seq<Event>, s': Chain)
    requires IsStart(s, g) && Reaches(s, g, events, s') && WfTree(s'.tree, g) && FreshTree(s'.tree, g)
    ensures s'.best in s'.tree
    ensures var p := Path(s'.tree, g, s'.best);
      Known(s'.tree, p) && Replay(s'.tree, p) == Some(s'.index) && Distinct(ConsumedBy(s'.tree, p))
  {
    RunExact(s, g, events, s');
    NoDoubleSpend(s'.tree, Path(s'.tree, g, s'.best));
  }

  // ---------- why fresh ids are needed ----------

  lemma {:induction false} ReleaseNeedsEntry(v: TxMap, vin: seq<OutPoint>, o: OutPoint)
    requires o in vin && o.hash !in v
    ensures Release(v, vin) == None
  {
    var w := Release(v, Front(vin));
    if o in Front(vin) {
      ReleaseNeedsEntry(v, Front(vin), o);
    } else {
      assert vin == Front(vin) + [Last(vin)];
      ReleaseKeys(v, Front(vin));
    }
  }

  lemma {:induction false} ReleaseKeys(v: TxMap, vin: seq<OutPoint>)
    ensures Release(v, vin).Some? ==> Release(v, vin).value.Keys == v.Keys
  {
    if vin != [] { ReleaseKeys(v, Front(vin)); }
  }

  /** A block cannot be disconnected once the index has lost an entry that it spent from. */
  lemma {:induction false} DisconnectNeedsEntry(v: TxMap, txs: seq<Tx>, tx: Tx, o: OutPoint)
    requires tx in txs && !tx.IsCoinBase() && o in tx.vin && o.hash !in v
    ensures Disconnect(v, txs) == None
    decreases |txs|
  {
    if tx == Last(txs) {
      ReleaseNeedsEntry(v, tx.vin, o);
    } else {
      assert txs == Front(txs) + [Last(txs)];
      ReleaseKeys(v, Last(txs).vin);
      if DisconnectTx(v, Last(txs)).Some? {
        DisconnectNeedsEntry(DisconnectTx(v, Last(txs)).value, Front(txs), tx, o);
      }
    }
  }

  /** If a block reuses an id that an older block spent from, then disconnecting it succeeds,
      and from then on the older block cannot be disconnected. */
  lemma ReusedIdBlocksDisconnect(db: TxMap, h: Hash, txs: seq<Tx>, older: seq<Tx>, tx: Tx, o: OutPoint)
    requires Connect(db, h, txs).Some? && o.hash in Ids(txs)
    requires tx in older && !tx.IsCoinBase() && o in tx.vin
    ensures var d := Disconnect(Connect(db, h, txs).value.view, txs);
      d.Some? && Disconnect(d.value, older) == None
  {
    DisconnectUndoesConnect(db, h, txs);
    DisconnectNeedsEntry(db - Ids(txs), older, tx, o);
  }

  function CoinBase(id: TxId, value: int): Tx {
    Tx(id, 0, [OutPoint(0, 0xffff_ffff)], [TxOut(value, [])])
  }

  lemma ConnectLoneCoinBase(db: TxMap, h: Hash, tx: Tx)
    requires tx.IsCoinBase() && OutputsInRange(tx) && Dead(db, tx.hash)
    ensures Connect(db, h, [tx]).Some?
    ensures Connect(db, h, [tx]).value.view == db[tx.hash := NewEntry(BlockPos(h, 0, tx), tx)]
  {
    var txs := [tx];
    assert Front(txs) == [] && Last(txs) == tx;
    assert ConnectTxs(db, h, Front(txs)) == Some(Tally(db, 0, 0, 0, 0));
    assert CheckBlock(txs);
  }

  /** A block whose second transaction spends the only output of an earlier one. */
  lemma ConnectSpendingPair(v: TxMap, c: Tx, tx: Tx, o: OutPoint)
    requires c.IsCoinBase() && OutputsInRange(c) && Dead(v, c.hash) && OutputsInRange(tx) && Dead(v, tx.hash)
    requires !tx.IsCoinBase() && !tx.IsCoinStake() && tx.vin == [o] && c.hash != tx.hash && c.hash != o.hash
             && tx.hash != o.hash
    requires o.n == 0 && Spendable(v, o) && |v[o.hash].spent| == 1 && v[o.hash].pos.tx.time <= tx.time
    requires OutValue(v, o) == ValueOut(tx) && MoneyRange(ValueOut(tx))
    ensures Connect(v, 12, [c, tx]).Some?
    ensures o.hash in Connect(v, 12, [c, tx]).value.view && FullySpent(Connect(v, 12, [c, tx]).value.view[o.hash])
  {
    var b, pos := [c, tx], BlockPos(12, 1, tx);
    ConnectLoneCoinBase(v, 12, c);
    var t := ConnectTxs(v, 12, [c]).value;
    assert Front(b) == [c];
    assert Front(tx.vin) == [] && Last(tx.vin) == o;
    assert Spend(t.view, tx.vin, pos) == Some(Mark(t.view, o, pos));
    assert ValueIn(t.view, []) == 0 && ValueIn(t.view, tx.vin) == ValueOut(tx);
    assert tx.vin[..1] == tx.vin && InputRule(t.view, tx, 0);
  }

  /** Such blocks exist: 11 creates transaction 1, 12 spends it, 13 creates transaction 1 again. */
  lemma ReusedIdExample()
    ensures var a := CoinBase(1, 5);
      var b := [CoinBase(3, 0), Tx(2, 0, [OutPoint(1, 0)], [TxOut(5, [])])];
      var v1 := Connect(map[], 11, [a]);
      v1.Some? &&
      var v2 := Connect(v1.value.view, 12, b);
      v2.Some? &&
      var v3 := Connect(v2.value.view, 13, [a]);
      v3.Some? &&
      var d3 := Disconnect(v3.value.view, [a]);
      d3.Some? && Disconnect(d3.value, b) == None
  {
    var a, c := CoinBase(1, 5), CoinBase(3, 0);
    var tx := Tx(2, 0, [OutPoint(1, 0)], [TxOut(5, [])]);
    var b := [c, tx];
    OneOutputInRange(a); OneOutputInRange(c); OneOutputInRange(tx);
    ConnectLoneCoinBase(map[], 11, a);
    var v1 := Connect(map[], 11, [a]).value.view;
    ConnectLoneCoinBase(v1, 12, c);
    var o := OutPoint(1, 0);
    ConnectSpendingPair(v1, c, tx, o);
    var v2 := Connect(v1, 12, b).value.view;
    ConnectLoneCoinBase(v2, 13, a);
    ReusedIdBlocksDisconnect(v2, 13, [a], b, tx, o);
  }

  lemma OneOutputInRange(tx: Tx)
    requires |tx.vout| == 1 && MoneyRange(tx.vout[0].value)
    ensures OutputsInRange(tx) && ValueOut(tx) == tx.vout[0].value
  {
    assert tx.vout[..1] == tx.vout;
    assert SumOut(Front(tx.vout)) == 0;
  }
}
