/** Two laws of the transaction index.

    Pruning: an index that lacks some completely spent entries behaves like the
    full index.  Reorganisations produce such indexes, because disconnecting a
    block erases the entries of ids that the block had reused.

    Conservation: a block changes the total value of the unspent outputs by
    exactly its outputs minus its inputs. */
module LedgerLaws {
  import opened Basics
  import opened Ledger

  // ---------- pruning ----------

  /** d is s without some completely spent entries. */
  ghost predicate Prunes(d: TxMap, s: TxMap) {
    && d.Keys <= s.Keys
    && (forall id :: id in d ==> d[id] == s[id])
    && (forall id :: id in s && id !in d ==> FullySpent(s[id]))
  }

  function Unspent(v: TxMap): set<OutPoint> {
    set id, n | id in v && 0 <= n < |v[id].spent| && v[id].spent[n] == NullPos :: OutPoint(id, n)
  }

  lemma PrunedSameUnspent(d: TxMap, s: TxMap)
    requires Prunes(d, s)
    ensures Unspent(d) == Unspent(s)
  {
    forall o ensures o in Unspent(d) <==> o in Unspent(s) {
      if o in Unspent(s) {
        assert !FullySpent(s[o.hash]);
      }
    }
  }

  lemma PrunesErase(d: TxMap, s: TxMap, id: TxId)
    requires Prunes(d, s)
    ensures Prunes(d - {id}, s - {id})
  {
  }

  lemma PrunesIns(d: TxMap, s: TxMap, id: TxId, e: TxIndex)
    requires Prunes(d, s)
    ensures Prunes(d[id := e], s[id := e])
  {
  }

  lemma PrunesMark(d: TxMap, s: TxMap, o: OutPoint, p: DiskTxPos)
    requires Prunes(d, s) && InIndex(d, o)
    ensures InIndex(s, o) && Prunes(Mark(d, o, p), Mark(s, o, p))
  {
  }

  lemma {:induction false} PrunesSpend(d: TxMap, s: TxMap, vin: seq<OutPoint>, p: DiskTxPos)
    requires Prunes(d, s) && p != NullPos
    ensures Spend(d, vin, p).Some? <==> Spend(s, vin, p).Some?
    ensures Spend(d, vin, p).Some? ==> Prunes(Spend(d, vin, p).value, Spend(s, vin, p).value)
  {
    if vin != [] {
      PrunesSpend(d, s, Front(vin), p);
      if Spend(d, Front(vin), p).Some? {
        var d', s' := Spend(d, Front(vin), p).value, Spend(s, Front(vin), p).value;
        assert Spendable(d', Last(vin)) <==> Spendable(s', Last(vin));
        if Spendable(d', Last(vin)) {
          PrunesMark(d', s', Last(vin), p);
        }
      }
    }
  }

  lemma {:induction false} PrunesRelease(d: TxMap, s: TxMap, vin: seq<OutPoint>)
    requires Prunes(d, s) && Release(d, vin).Some?
    ensures Release(s, vin).Some? && Prunes(Release(d, vin).value, Release(s, vin).value)
  {
    if vin != [] {
      PrunesRelease(d, s, Front(vin));
      PrunesMark(Release(d, Front(vin)).value, Release(s, Front(vin)).value, Last(vin), NullPos);
    }
  }

  /** Values read through a pruned index are the values read through the full one. */
  lemma {:induction false} PrunesValueIn(d: TxMap, s: TxMap, vin: seq<OutPoint>)
    requires Prunes(d, s) && forall o :: o in vin ==> Resolves(d, o)
    ensures ValueIn(d, vin) == ValueIn(s, vin)
  {
    if vin != [] {
      assert vin == Front(vin) + [Last(vin)];
      PrunesValueIn(d, s, Front(vin));
    }
  }

  lemma PrunesInputRules(d: TxMap, s: TxMap, tx: Tx)
    requires Prunes(d, s) && forall o :: o in tx.vin ==> Resolves(d, o)
    ensures ValueIn(d, tx.vin) == ValueIn(s, tx.vin)
    ensures InputRules(d, tx) <==> InputRules(s, tx)
  {
    PrunesValueIn(d, s, tx.vin);
    forall i | 0 <= i < |tx.vin|
      ensures InputRule(d, tx, i) <==> InputRule(s, tx, i)
    {
      assert tx.vin[i] in tx.vin;
      PrunesValueIn(d, s, tx.vin[..i + 1]);
    }
  }

  /** Two tallies that agree except that one view prunes the other. */
  ghost predicate PrunesTally(a: Tally, b: Tally) {
    Prunes(a.view, b.view) && a.(view := b.view) == b
  }

  lemma PrunesSpendTx(v: TxMap, u: TxMap, tx: Tx, pos: DiskTxPos)
    requires Prunes(v, u) && pos != NullPos && Spend(v, tx.vin, pos).Some?
    ensures Spend(u, tx.vin, pos).Some?
    ensures Prunes(Spend(v, tx.vin, pos).value[tx.hash := NewEntry(pos, tx)],
                   Spend(u, tx.vin, pos).value[tx.hash := NewEntry(pos, tx)])
    ensures ValueIn(v, tx.vin) == ValueIn(u, tx.vin)
    ensures InputRules(v, tx) <==> InputRules(u, tx)
  {
    PrunesSpend(v, u, tx.vin, pos);
    SpendMarks(v, tx.vin, pos);
    PrunesInputRules(v, u, tx);
    PrunesIns(Spend(v, tx.vin, pos).value, Spend(u, tx.vin, pos).value, tx.hash, NewEntry(pos, tx));
  }

  lemma PrunesConnectTx(d: TxMap, s: TxMap, a: Tally, b: Tally, tx: Tx, pos: DiskTxPos)
    requires Prunes(d, s) && PrunesTally(a, b) && pos != NullPos
    ensures ConnectTx(d, a, tx, pos).Some? <==> ConnectTx(s, b, tx, pos).Some?
    ensures ConnectTx(d, a, tx, pos).Some? ==>
              PrunesTally(ConnectTx(d, a, tx, pos).value, ConnectTx(s, b, tx, pos).value)
  {
    assert (tx.hash in d && !FullySpent(d[tx.hash])) <==> (tx.hash in s && !FullySpent(s[tx.hash]));
    if tx.IsCoinBase() {
      PrunesIns(a.view, b.view, tx.hash, NewEntry(pos, tx));
    } else {
      PrunesSpend(a.view, b.view, tx.vin, pos);
      if Spend(a.view, tx.vin, pos).Some? {
        PrunesSpendTx(a.view, b.view, tx, pos);
      }
    }
  }

  /** A pruned index accepts exactly the blocks that the full index accepts, with the same amounts. */
  lemma {:induction false} PrunesConnectTxs(d: TxMap, s: TxMap, h: Hash, txs: seq<Tx>)
    requires Prunes(d, s)
    ensures ConnectTxs(d, h, txs).Some? <==> ConnectTxs(s, h, txs).Some?
    ensures ConnectTxs(d, h, txs).Some? ==> PrunesTally(ConnectTxs(d, h, txs).value, ConnectTxs(s, h, txs).value)
  {
    if txs != [] {
      PrunesConnectTxs(d, s, h, Front(txs));
      if ConnectTxs(d, h, Front(txs)).Some? {
        PrunesConnectTx(d, s, ConnectTxs(d, h, Front(txs)).value, ConnectTxs(s, h, Front(txs)).value,
                        Last(txs), BlockPos(h, |txs| - 1, Last(txs)));
      }
    }
  }

  /** If a pruned index can disconnect a block then so can the full one, and the results still agree. */
  lemma {:induction false} PrunesDisconnect(d: TxMap, s: TxMap, txs: seq<Tx>)
    requires Prunes(d, s) && Disconnect(d, txs).Some?
    ensures Disconnect(s, txs).Some? && Prunes(Disconnect(d, txs).value, Disconnect(s, txs).value)
    decreases |txs|
  {
    if txs != [] {
      var tx := Last(txs);
      if tx.IsCoinBase() {
        PrunesErase(d, s, tx.hash);
      } else {
        PrunesRelease(d, s, tx.vin);
        PrunesErase(Release(d, tx.vin).value, Release(s, tx.vin).value, tx.hash);
      }
      PrunesDisconnect(DisconnectTx(d, tx).value, DisconnectTx(s, tx).value, Front(txs));
    }
  }

  /** The law the reorganisation proofs rest on: if d prunes the index left by connecting a
      block to db, then disconnecting that block from d, when it succeeds, prunes db. */
  lemma DisconnectPrunes(db: TxMap, h: Hash, txs: seq<Tx>, d: TxMap)
    requires Connect(db, h, txs).Some? && Prunes(d, Connect(db, h, txs).value.view)
    requires Disconnect(d, txs).Some?
    ensures Prunes(Disconnect(d, txs).value, db)
  {
    PrunesDisconnect(d, Connect(db, h, txs).value.view, txs);
    DisconnectUndoesConnect(db, h, txs);
    assert Prunes(db - Ids(txs), db);
  }

  /** When a block overwrites completely spent ids, disconnecting it still restores every unspent outpoint. */
  lemma DisconnectRestoresUnspent(db: TxMap, h: Hash, txs: seq<Tx>)
    requires Connect(db, h, txs).Some?
    ensures Disconnect(Connect(db, h, txs).value.view, txs).Some?
    ensures Unspent(Disconnect(Connect(db, h, txs).value.view, txs).value) == Unspent(db)
  {
    DisconnectUndoesConnect(db, h, txs);
    assert Prunes(db - Ids(txs), db);
    PrunedSameUnspent(db - Ids(txs), db);
  }

  // ---------- conservation ----------

  /** Value of the outputs among the first k that are not marked as spent. */
  function SumUnspent(spent: seq<DiskTxPos>, outs: seq<TxOut>, k: nat): int
    requires k <= |spent| && k <= |outs|
  {
    if k == 0 then 0
    else SumUnspent(spent, outs, k - 1) + if spent[k - 1] == NullPos then outs[k - 1].value else 0
  }

  function EntryValue(e: TxIndex): int {
    if e.pos == NullPos then 0
    else SumUnspent(e.spent, e.pos.tx.vout, Min(|e.spent|, |e.pos.tx.vout|))
  }

  /** Total value of the unspent outputs in the index. */
  ghost function Total(v: TxMap): int {
    if v == map[] then 0 else
      var id :| id in v;
      EntryValue(v[id]) + Total(v - {id})
  }

  lemma {:induction false} TotalSplit(v: TxMap, id: TxId)
    requires id in v
    ensures Total(v) == EntryValue(v[id]) + Total(v - {id})
  {
    var p :| p in v && Total(v) == EntryValue(v[p]) + Total(v - {p});
    if p != id {
      TotalSplit(v - {p}, id);
      TotalSplit(v - {id}, p);
      assert v - {p} - {id} == v - {id} - {p};
    }
  }

  lemma TotalUpdate(v: TxMap, id: TxId, e: TxIndex)
    ensures Total(v[id := e]) == Total(v) - (if id in v then EntryValue(v[id]) else 0) + EntryValue(e)
  {
    TotalSplit(v[id := e], id);
    assert v[id := e] - {id} == v - {id};
    if id in v { TotalSplit(v, id); } else { assert v - {id} == v; }
  }

  lemma {:induction false} MarkedValue(spent: seq<DiskTxPos>, outs: seq<TxOut>, k: nat, n: nat, p: DiskTxPos)
    requires k <= |spent| && k <= |outs| && n < |spent|
    requires spent[n] == NullPos && p != NullPos
    ensures SumUnspent(spent[n := p], outs, k) == SumUnspent(spent, outs, k) - if n < k then outs[n].value else 0
  {
    if k > 0 { MarkedValue(spent, outs, k - 1, n, p); }
  }

  lemma {:induction false} FullySpentIsWorthless(spent: seq<DiskTxPos>, outs: seq<TxOut>, k: nat)
    requires k <= |spent| && k <= |outs| && forall n :: 0 <= n < |spent| ==> spent[n] != NullPos
    ensures SumUnspent(spent, outs, k) == 0
  {
    if k > 0 { FullySpentIsWorthless(spent, outs, k - 1); }
  }

  lemma DeadEntryValue(e: TxIndex)
    requires FullySpent(e)
    ensures EntryValue(e) == 0
  {
    if e.pos != NullPos {
      FullySpentIsWorthless(e.spent, e.pos.tx.vout, Min(|e.spent|, |e.pos.tx.vout|));
    }
  }

  lemma {:induction false} NewEntryValue(spent: seq<DiskTxPos>, outs: seq<TxOut>, k: nat)
    requires k <= |spent| && k <= |outs| && forall n :: 0 <= n < |spent| ==> spent[n] == NullPos
    ensures SumUnspent(spent, outs, k) == SumOut(outs[..k])
  {
    if k > 0 {
      NewEntryValue(spent, outs, k - 1);
      assert Front(outs[..k]) == outs[..k - 1];
    }
  }

  lemma {:induction false} TotalSpend(v: TxMap, vin: seq<OutPoint>, p: DiskTxPos)
    requires p != NullPos && Spend(v, vin, p).Some?
    ensures Total(Spend(v, vin, p).value) == Total(v) - ValueIn(v, vin)
  {
    if vin != [] {
      var w, o := Spend(v, Front(vin), p).value, Last(vin);
      TotalSpend(v, Front(vin), p);
      SpendMarks(v, Front(vin), p);
      assert OutValue(w, o) == OutValue(v, o);
      TotalUpdate(w, o.hash, w[o.hash].(spent := w[o.hash].spent[o.n := p]));
      MarkedValue(w[o.hash].spent, w[o.hash].pos.tx.vout,
                  Min(|w[o.hash].spent|, |w[o.hash].pos.tx.vout|), o.n, p);
    }
  }

  /** Removing completely spent entries does not change the total. */
  lemma {:induction false} PrunedSameTotal(d: TxMap, s: TxMap)
    requires Prunes(d, s)
    ensures Total(d) == Total(s)
    decreases |s|
  {
    if s.Keys == d.Keys {
      assert d == s;
    } else {
      var id :| id in s && id !in d;
      TotalSplit(s, id);
      DeadEntryValue(s[id]);
      PrunedSameTotal(d, s - {id});
    }
  }

  lemma TotalAdd(v: TxMap, tx: Tx, pos: DiskTxPos)
    requires pos != NullPos && pos.tx == tx && Dead(v, tx.hash)
    ensures Total(v[tx.hash := NewEntry(pos, tx)]) == Total(v) + ValueOut(tx)
  {
    TotalUpdate(v, tx.hash, NewEntry(pos, tx));
    if tx.hash in v { DeadEntryValue(v[tx.hash]); }
    NewEntryValue(NewEntry(pos, tx).spent, tx.vout, |tx.vout|);
    assert tx.vout[..|tx.vout|] == tx.vout;
  }

  /** Conservation of money, block by block: total unspent value grows by outputs minus inputs. */
  lemma {:induction false} ConnectConserves(db: TxMap, h: Hash, txs: seq<Tx>)
    requires UniqueIds(txs) && ConnectTxs(db, h, txs).Some?
    ensures var t := ConnectTxs(db, h, txs).value;
      Total(t.view) == Total(db) + t.valueOut - t.valueIn
  {
    if txs != [] {
      var pre, tx := Front(txs), Last(txs);
      var t := ConnectTxs(db, h, pre).value;
      var pos := BlockPos(h, |txs| - 1, tx);
      IdsSplit(txs);
      ConnectConserves(db, h, pre);
      DeadStaysPut(db, h, pre, tx.hash);
      if tx.IsCoinBase() {
        TotalAdd(t.view, tx, pos);
      } else {
        var w := Spend(t.view, tx.vin, pos).value;
        TotalSpend(t.view, tx.vin, pos);
        SpendMarks(t.view, tx.vin, pos);
        SpendKeepsDead(t.view, tx.vin, pos, tx.hash);
        TotalAdd(w, tx, pos);
      }
    }
  }

  // ---------- new money ----------

  function CoinBaseOut(txs: seq<Tx>): int {
    if txs == [] then 0 else if txs[0].IsCoinBase() then ValueOut(txs[0]) else 0
  }

  /** Outputs minus inputs of a block: what the coinbase and the coinstake create, less the fees paid. */
  lemma {:induction false} NetCreation(db: TxMap, h: Hash, txs: seq<Tx>)
    requires ConnectTxs(db, h, txs).Some?
    requires forall i :: 0 <= i < |txs| ==> (txs[i].IsCoinBase() <==> i == 0)
    requires forall i :: 2 <= i < |txs| ==> !txs[i].IsCoinStake()
    ensures var t := ConnectTxs(db, h, txs).value;
      && t.valueOut - t.valueIn == CoinBaseOut(txs) + t.stakeReward - t.fees
      && t.fees >= 0
      && (!IsProofOfStake(txs) ==> t.stakeReward == 0)
  {
    if txs != [] {
      NetCreation(db, h, Front(txs));
    }
  }

  /** Every indexed transaction passed the output checks. */
  ghost predicate SoundOutputs(v: TxMap) {
    forall id :: id in v && v[id].pos != NullPos ==> OutputsInRange(v[id].pos.tx)
  }

  lemma {:induction false} ConnectKeepsSoundOutputs(db: TxMap, h: Hash, txs: seq<Tx>)
    requires SoundOutputs(db) && ConnectTxs(db, h, txs).Some?
    requires forall i :: 0 <= i < |txs| ==> OutputsInRange(txs[i])
    ensures SoundOutputs(ConnectTxs(db, h, txs).value.view)
  {
    if txs != [] {
      ConnectKeepsSoundOutputs(db, h, Front(txs));
      var v, tx := ConnectTxs(db, h, Front(txs)).value.view, Last(txs);
      if !tx.IsCoinBase() {
        SpendMarks(v, tx.vin, BlockPos(h, |txs| - 1, tx));
      }
    }
  }

  lemma {:induction false} SumUnspentNonNegative(spent: seq<DiskTxPos>, outs: seq<TxOut>, k: nat)
    requires k <= |spent| && k <= |outs| && forall n :: 0 <= n < |outs| ==> outs[n].value >= 0
    ensures SumUnspent(spent, outs, k) >= 0
  {
    if k > 0 { SumUnspentNonNegative(spent, outs, k - 1); }
  }

  lemma {:induction false} TotalNonNegative(v: TxMap)
    requires SoundOutputs(v)
    ensures Total(v) >= 0
  {
    if v != map[] {
      var id :| id in v;
      TotalSplit(v, id);
      TotalNonNegative(v - {id});
      var e := v[id];
      if e.pos != NullPos {
        SumUnspentNonNegative(e.spent, e.pos.tx.vout, Min(|e.spent|, |e.pos.tx.vout|));
      }
    }
  }
}
