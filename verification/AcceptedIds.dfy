/** Why ids are fresh along every chain of accepted blocks: AcceptBlock demands that a coinbase begins with the height
    of its block, and an input can be spent only once. */
module AcceptedIds {
  import opened Basics
  import opened Ledger
  import opened BlockTree
  import opened ChainSpec
  import opened ChainLaws
  import opened FreshIds
  import opened SwitchConditions

  /** Two things that AcceptBlock and CheckTransaction demand of a block: its coinbase commits to the height, and
      no transaction is without inputs. */
  ghost predicate Committed(txs: seq<Tx>, height: nat, heightOf: TxId -> nat) {
    txs != [] && heightOf(txs[0].hash) == height && forall tx :: tx in txs ==> tx.vin != []
  }

  /** The blocks of the tree were accepted, and ids are collision-free: an id determines its transaction, and with
      it the height at which the script of a coinbase begins. */
  ghost predicate AcceptedTree(t: Tree, heightOf: TxId -> nat, txOf: TxId -> Tx) {
    && (forall h :: h in t && t[h].height > 0 ==> Committed(t[h].txs, t[h].height, heightOf))
    && (forall h, tx :: h in t && tx in t[h].txs ==> txOf(tx.hash) == tx)
  }

  // ---------- ids in the index ----------

  ghost predicate Occurs(t: Tree, p: seq<Hash>, i: nat, id: TxId)
    requires Known(t, p) && i < |p|
  {
    id in Ids(t[p[i]].txs)
  }

  /** The index after connecting a chain has exactly the ids of its blocks. */
  lemma {:induction false} ReplayKeys(t: Tree, p: seq<Hash>, id: TxId)
    requires Known(t, p) && Replay(t, p).Some?
    ensures id in Replay(t, p).value <==> exists i :: 1 <= i < |p| && Occurs(t, p, i, id)
  {
    if |p| > 1 {
      var q, h := Front(p), Last(p);
      FrontAndLast(p);
      ReplayKeys(t, q, id);
      ConnectKeys(Replay(t, q).value, h, t[h].txs);
      assert Occurs(t, p, |p| - 1, id) <==> id in Ids(t[h].txs);
      assert forall i :: 0 <= i < |q| ==> (Occurs(t, p, i, id) <==> Occurs(t, q, i, id));
    }
  }

  lemma {:induction false} ReplayedBlockChecks(t: Tree, p: seq<Hash>, i: nat)
    requires Known(t, p) && Replay(t, p).Some? && 1 <= i < |p|
    ensures CheckBlock(t[p[i]].txs)
  {
    if i < |p| - 1 { ReplayedBlockChecks(t, Front(p), i); }
  }

  lemma {:induction false} ConsumedByOne(txs: seq<Tx>, tx: Tx, o: OutPoint)
    requires tx in txs && !tx.IsCoinBase() && o in tx.vin
    ensures o in Consumed(txs)
  {
    FrontAndLast(txs);
    if tx != Last(txs) { ConsumedByOne(Front(txs), tx, o); }
  }

  lemma {:induction false} ConsumedInChain(t: Tree, p: seq<Hash>, i: nat, tx: Tx, o: OutPoint)
    requires Known(t, p) && 1 <= i < |p| && tx in t[p[i]].txs && !tx.IsCoinBase() && o in tx.vin
    ensures o in ConsumedBy(t, p)
  {
    var q := Front(p);
    if i < |q| {
      assert q[i] == p[i];
      ConsumedInChain(t, q, i, tx, o);
    } else {
      ConsumedByOne(t[p[i]].txs, tx, o);
    }
  }

  // ---------- no id recurs ----------

  /** A block that repeats no coinbase repeats no transaction: the first one repeated would have to spend again what
      its like has spent. */
  lemma {:induction false} NoIdRepeated(db: TxMap, h: Hash, txs: seq<Tx>, before: seq<OutPoint>)
    requires ConnectTxs(db, h, txs).Some? && UniqueIds(txs) && SpentOnce(db, before)
    requires forall tx :: tx in txs && tx.hash in db ==>
               !tx.IsCoinBase() && tx.vin != [] && forall o :: o in tx.vin ==> o in before
    ensures db.Keys !! Ids(txs)
  {
    if txs != [] {
      var front, tx := Front(txs), Last(txs);
      FrontAndLast(txs);
      IdsSplit(txs);
      NoIdRepeated(db, h, front, before);
      ConsumedOnce(db, h, front, before);
      if tx.hash in db {
        assert tx.vin[0] in before + Consumed(front);
        SpendMarks(ConnectTxs(db, h, front).value.view, tx.vin, BlockPos(h, |txs| - 1, tx));
      }
    }
  }

  /** A transaction that a later block repeats is no coinbase, and all its inputs are spent already. */
  lemma RepeatedSpends(t: Tree, q: seq<Hash>, h: Hash, tx: Tx, heightOf: TxId -> nat, txOf: TxId -> Tx)
    requires AcceptedTree(t, heightOf, txOf) && IsChain(t, q) && Known(t, q) && Replay(t, q).Some?
    requires h in t && t[h].height == |q| && CheckBlock(t[h].txs)
    requires tx in t[h].txs && tx.hash in Replay(t, q).value
    ensures !tx.IsCoinBase() && tx.vin != [] && forall o :: o in tx.vin ==> o in ConsumedBy(t, q)
  {
    ReplayKeys(t, q, tx.hash);
    var i :| 1 <= i < |q| && Occurs(t, q, i, tx.hash);
    assert ChainAt(t, q, i);
    assert tx in t[q[i]].txs;
    assert Committed(t[h].txs, |q|, heightOf) && Committed(t[q[i]].txs, i, heightOf);
    ReplayedBlockChecks(t, q, i);
    forall o | o in tx.vin && !tx.IsCoinBase() ensures o in ConsumedBy(t, q) { ConsumedInChain(t, q, i, tx, o); }
  }

  lemma NextBlockIsNew(t: Tree, q: seq<Hash>, h: Hash, heightOf: TxId -> nat, txOf: TxId -> Tx)
    requires AcceptedTree(t, heightOf, txOf) && IsChain(t, q) && Known(t, q) && FreshChain(t, q)
    requires h in t && t[h].height == |q| && Replay(t, q).Some? && Connect(Replay(t, q).value, h, t[h].txs).Some?
    ensures Replay(t, q).value.Keys !! Ids(t[h].txs)
  {
    NoDoubleSpend(t, q);
    forall tx | tx in t[h].txs && tx.hash in Replay(t, q).value
      ensures !tx.IsCoinBase() && tx.vin != [] && forall o :: o in tx.vin ==> o in ConsumedBy(t, q)
    {
      RepeatedSpends(t, q, h, tx, heightOf, txOf);
    }
    NoIdRepeated(Replay(t, q).value, h, t[h].txs, ConsumedBy(t, q));
  }

  /** Along a chain of accepted blocks that connects, no id occurs in two blocks. */
  lemma {:induction false} AcceptedChainIsFresh(t: Tree, p: seq<Hash>, heightOf: TxId -> nat, txOf: TxId -> Tx)
    requires AcceptedTree(t, heightOf, txOf) && IsChain(t, p) && Known(t, p) && Replay(t, p).Some?
    ensures FreshChain(t, p)
  {
    if |p| > 1 {
      var q, h := Front(p), Last(p);
      FrontAndLast(p);
      ChainPrefix(t, p, |q|);
      assert ChainAt(t, p, |q|);
      AcceptedChainIsFresh(t, q, heightOf, txOf);
      NextBlockIsNew(t, q, h, heightOf, txOf);
      forall i, j | 1 <= i < j < |p| ensures Ids(t[p[i]].txs) !! Ids(t[p[j]].txs) {
        if j == |q| { OccurringIds(t, q, i); } else { assert p[i] == q[i] && p[j] == q[j]; }
      }
    }
  }

  lemma OccurringIds(t: Tree, q: seq<Hash>, i: nat)
    requires Known(t, q) && Replay(t, q).Some? && 1 <= i < |q|
    ensures Ids(t[q[i]].txs) <= Replay(t, q).value.Keys
  {
    forall id | id in Ids(t[q[i]].txs) ensures id in Replay(t, q).value {
      ReplayKeys(t, q, id);
      assert Occurs(t, q, i, id);
    }
  }

  lemma AcceptedTreeIsFresh(t: Tree, g: Hash, heightOf: TxId -> nat, txOf: TxId -> Tx)
    requires WfTree(t, g) && AcceptedTree(t, heightOf, txOf)
    ensures FreshTree(t, g)
  {
    forall h | h in t
      ensures Known(t, Path(t, g, h)) && (Replay(t, Path(t, g, h)).Some? ==> FreshChain(t, Path(t, g, h)))
    {
      PathIsChain(t, g, h);
      if Replay(t, Path(t, g, h)).Some? { AcceptedChainIsFresh(t, Path(t, g, h), heightOf, txOf); }
    }
  }

  /** After any run over accepted blocks the index equals the replay of the best chain from an empty index, and no
      output of that chain was spent twice. */
  lemma EveryAcceptedRun(s: Chain, g: Hash, events: seq<Event>, s': Chain, heightOf: TxId -> nat, txOf: TxId -> Tx)
    requires IsStart(s, g) && Reaches(s, g, events, s') && AcceptedTree(s'.tree, heightOf, txOf)
    ensures Rooted(s', g)
    ensures var p := Path(s'.tree, g, s'.best);
      && Known(s'.tree, p) && Replay(s'.tree, p) == Some(s'.index)
      && FreshChain(s'.tree, p) && Distinct(ConsumedBy(s'.tree, p))
  {
    StartIsGood(s, g);
    RunKeeps(s, g, events, s');
    AcceptedTreeIsFresh(s'.tree, g, heightOf, txOf);
    EveryFreshRun(s, g, events, s');
  }

  /** Then only the blocks to be connected decide: the call makes the new block the best one, in a consistent node, if
      and only if every block of its branch is accepted on top of those before it. */
  lemma BranchDecides(s: Chain, g: Hash, new': Hash, vs: Verdicts)
    requires Exact(s, g, s.best) && FreshTree(s.tree, g) && new' in s.tree && s.tree[new'].height > 0
    ensures var p, q, r := Path(s.tree, g, s.best), Path(s.tree, g, new'), SetBestChain(s, g, new', vs);
      && Known(s.tree, q) && 0 < CommonPrefix(p, q)
      && (r.ok && r.complete <==> AllAcceptable(s.tree, q, CommonPrefix(p, q), vs))
  {
    var p, q := Path(s.tree, g, s.best), Path(s.tree, g, new');
    PathIsChain(s.tree, g, s.best);
    PathKnown(s.tree, g, new');
    ForkIsCommonPrefix(s.tree, g, s.best, new');
    var k := CommonPrefix(p, q);
    SetBestChainReorganizes(s, g, new', vs);
    DisconnectAllExact(s.tree, p, k);
    DisconnectsExactly(s.tree, s.index, p, k);
  }
}
