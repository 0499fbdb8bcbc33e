/** Transactions and the transaction index.

    The index maps a transaction id to the place of the transaction on disk and,
    for each of its outputs, the place of the transaction that spent it.  This
    module says what connecting and disconnecting a block do to the index; the
    methods of module TxDatabase are proved against these functions. */
module Ledger {
  import opened Basics

  type TxId = Hash

  datatype OutPoint = OutPoint(hash: TxId, n: nat) {
    predicate IsNull() { hash == 0 && n == 0xffff_ffff }
  }

  datatype TxOut = TxOut(value: int, script: seq<byte>) {
    predicate IsEmpty() { value == 0 && script == [] }
  }

  datatype Tx = Tx(hash: TxId, time: nat, vin: seq<OutPoint>, vout: seq<TxOut>) {
    predicate IsCoinBase() { |vin| == 1 && vin[0].IsNull() && |vout| >= 1 }

    predicate IsCoinStake() { |vin| > 0 && !vin[0].IsNull() && |vout| >= 2 && vout[0].IsEmpty() }
  }

  /** A position on disk carries the transaction that a read at that position
      returns.  The position (1,1,1) stands for "in the memory pool" and carries
      the pooled transaction. */
  datatype DiskTxPos = NullPos | BlockPos(block: Hash, index: nat, tx: Tx) | PoolPos(tx: Tx)

  datatype TxIndex = TxIndex(pos: DiskTxPos, spent: seq<DiskTxPos>)

  type TxMap = map<TxId, TxIndex>

  const COIN: int := 1_000_000
  const MAX_MONEY: int := 2_000_000 * COIN

  predicate MoneyRange(v: int) { 0 <= v <= MAX_MONEY }

  predicate FullySpent(e: TxIndex) {
    forall n :: 0 <= n < |e.spent| ==> e.spent[n] != NullPos
  }

  function NewEntry(pos: DiskTxPos, tx: Tx): TxIndex {
    TxIndex(pos, seq(|tx.vout|, _ => NullPos))
  }

  // ---------- values ----------

  function SumOut(outs: seq<TxOut>): int {
    if outs == [] then 0 else SumOut(Front(outs)) + Last(outs).value
  }

  function ValueOut(tx: Tx): int { SumOut(tx.vout) }

  /** The transaction that created outpoint o can be read and has that output. */
  predicate Resolves(v: TxMap, o: OutPoint) {
    && o.hash in v
    && v[o.hash].pos != NullPos
    && o.n < |v[o.hash].pos.tx.vout|
    && o.n < |v[o.hash].spent|
  }

  predicate Spendable(v: TxMap, o: OutPoint) {
    Resolves(v, o) && v[o.hash].spent[o.n] == NullPos
  }

  function OutValue(v: TxMap, o: OutPoint): int {
    if Resolves(v, o) then v[o.hash].pos.tx.vout[o.n].value else 0
  }

  function ValueIn(v: TxMap, vin: seq<OutPoint>): int {
    if vin == [] then 0 else ValueIn(v, Front(vin)) + OutValue(v, Last(vin))
  }

  // ---------- spending and releasing outputs ----------

  predicate InIndex(v: TxMap, o: OutPoint) {
    o.hash in v && o.n < |v[o.hash].spent|
  }

  function Mark(v: TxMap, o: OutPoint, p: DiskTxPos): TxMap
    requires InIndex(v, o)
  {
    v[o.hash := v[o.hash].(spent := v[o.hash].spent[o.n := p])]
  }

  /** Marks every outpoint of vin as spent at p, in order; None as soon as one cannot be spent. */
  function Spend(v: TxMap, vin: seq<OutPoint>, p: DiskTxPos): Option<TxMap> {
    if vin == [] then Some(v) else
      match Spend(v, Front(vin), p)
      case None => None
      case Some(w) => if Spendable(w, Last(vin)) then Some(Mark(w, Last(vin), p)) else None
  }

  /** Marks every outpoint of vin as unspent, in order; None as soon as one is not in the index. */
  function Release(v: TxMap, vin: seq<OutPoint>): Option<TxMap> {
    if vin == [] then Some(v) else
      match Release(v, Front(vin))
      case None => None
      case Some(w) => if InIndex(w, Last(vin)) then Some(Mark(w, Last(vin), NullPos)) else None
  }

  // ---------- connecting a block ----------

  predicate IsProofOfStake(txs: seq<Tx>) { |txs| > 1 && txs[1].IsCoinStake() }

  function Ids(txs: seq<Tx>): set<TxId> { set tx | tx in txs :: tx.hash }

  ghost predicate UniqueIds(txs: seq<Tx>) {
    forall i, j :: 0 <= i < j < |txs| ==> txs[i].hash != txs[j].hash
  }

  predicate OutputsInRange(tx: Tx) {
    forall k :: 0 <= k < |tx.vout| ==> MoneyRange(tx.vout[k].value) && MoneyRange(SumOut(tx.vout[..k + 1]))
  }

  /** The context-free checks on the transactions of a block. */
  predicate CheckBlock(txs: seq<Tx>) {
    && txs != []
    && txs[0].IsCoinBase()
    && (forall i :: 1 <= i < |txs| ==> !txs[i].IsCoinBase())
    && (forall i :: 2 <= i < |txs| ==> !txs[i].IsCoinStake())
    && (IsProofOfStake(txs) ==> |txs[0].vout| == 1 && txs[0].vout[0].IsEmpty())
    && (forall i :: 0 <= i < |txs| ==> OutputsInRange(txs[i]))
    && (forall i, j :: 0 <= i < j < |txs| ==> txs[i].hash != txs[j].hash)
  }

  /** What ConnectInputs demands of the inputs before it looks at spent flags. */
  predicate InputRules(v: TxMap, tx: Tx) {
    forall i :: 0 <= i < |tx.vin| ==> InputRule(v, tx, i)
  }

  predicate InputRule(v: TxMap, tx: Tx, i: nat)
    requires i < |tx.vin|
  {
    && Resolves(v, tx.vin[i])
    && v[tx.vin[i].hash].pos.tx.time <= tx.time
    && MoneyRange(OutValue(v, tx.vin[i]))
    && MoneyRange(ValueIn(v, tx.vin[..i + 1]))
  }

  /** Ordinary transactions pay a fee within the money range; a coinstake earns a reward instead. */
  predicate FeeRule(tx: Tx, valueIn: int) {
    tx.IsCoinStake() || MoneyRange(valueIn - ValueOut(tx))
  }

  datatype Tally = Tally(view: TxMap, valueIn: int, valueOut: int, fees: int, stakeReward: int)

  function ConnectTx(db: TxMap, t: Tally, tx: Tx, pos: DiskTxPos): Option<Tally> {
    if tx.hash in db && !FullySpent(db[tx.hash]) then None
    else if tx.IsCoinBase() then
      Some(t.(view := t.view[tx.hash := NewEntry(pos, tx)], valueOut := t.valueOut + ValueOut(tx)))
    else
      match Spend(t.view, tx.vin, pos)
      case None => None
      case Some(w) =>
        var i, o := ValueIn(t.view, tx.vin), ValueOut(tx);
        if InputRules(t.view, tx) && FeeRule(tx, i) then
          Some(Tally(w[tx.hash := NewEntry(pos, tx)], t.valueIn + i, t.valueOut + o,
                     if tx.IsCoinStake() then t.fees else t.fees + (i - o),
                     if tx.IsCoinStake() then o - i else t.stakeReward))
        else None
  }

  /** The transactions of block h, connected in order on top of index db. */
  function ConnectTxs(db: TxMap, h: Hash, txs: seq<Tx>): Option<Tally> {
    if txs == [] then Some(Tally(db, 0, 0, 0, 0)) else
      match ConnectTxs(db, h, Front(txs))
      case None => None
      case Some(t) => ConnectTx(db, t, Last(txs), BlockPos(h, |txs| - 1, Last(txs)))
  }

  function Connect(db: TxMap, h: Hash, txs: seq<Tx>): Option<Tally> {
    if CheckBlock(txs) then ConnectTxs(db, h, txs) else None
  }

  // ---------- disconnecting a block ----------

  function DisconnectTx(v: TxMap, tx: Tx): Option<TxMap> {
    if tx.IsCoinBase() then Some(v - {tx.hash}) else
      match Release(v, tx.vin)
      case None => None
      case Some(w) => Some(w - {tx.hash})
  }

  /** The transactions of a block, disconnected in reverse order. */
  function Disconnect(v: TxMap, txs: seq<Tx>): Option<TxMap>
    decreases |txs|
  {
    if txs == [] then Some(v) else
      match DisconnectTx(v, Last(txs))
      case None => None
      case Some(w) => Disconnect(w, Front(txs))
  }

  // ---------- spending, pointwise ----------

  /** Spending needs every outpoint of vin unspent and pairwise different, and changes nothing but their flags. */
  lemma {:induction false} SpendMarks(v: TxMap, vin: seq<OutPoint>, p: DiskTxPos)
    requires p != NullPos && Spend(v, vin, p).Some?
    ensures var w := Spend(v, vin, p).value;
      && w.Keys == v.Keys
      && (forall h :: h in v ==> w[h].pos == v[h].pos && |w[h].spent| == |v[h].spent|)
      && (forall o :: o in vin ==> Spendable(v, o) && w[o.hash].spent[o.n] == p)
      && (forall h, n {:trigger w[h].spent[n]} | h in v && 0 <= n < |v[h].spent| && OutPoint(h, n) !in vin ::
            w[h].spent[n] == v[h].spent[n])
      && Distinct(vin)
  {
    if vin != [] {
      SpendMarks(v, Front(vin), p);
      var w := Spend(v, Front(vin), p).value;
      assert vin == Front(vin) + [Last(vin)];
      MarkOneMore(v, w, Front(vin), Last(vin), p);
    }
  }

  /** w is v with exactly the outpoints of vin marked. */
  ghost predicate Marked(v: TxMap, w: TxMap, vin: seq<OutPoint>, p: DiskTxPos) {
    && w.Keys == v.Keys
    && (forall h :: h in v ==> w[h].pos == v[h].pos && |w[h].spent| == |v[h].spent|)
    && (forall o :: o in vin ==> Spendable(v, o) && w[o.hash].spent[o.n] == p)
    && (forall h, n {:trigger w[h].spent[n]} | h in v && 0 <= n < |v[h].spent| && OutPoint(h, n) !in vin ::
          w[h].spent[n] == v[h].spent[n])
  }

  lemma MarkOneMore(v: TxMap, w: TxMap, vin: seq<OutPoint>, o: OutPoint, p: DiskTxPos)
    requires p != NullPos && Marked(v, w, vin, p) && Spendable(w, o)
    ensures Marked(v, Mark(w, o, p), vin + [o], p) && o !in vin
  {
    forall x | x in vin + [o] ensures Spendable(v, x) && Mark(w, o, p)[x.hash].spent[x.n] == p {
      assert x != o ==> x in vin;
      assert OutPoint(o.hash, o.n) == o;
    }
  }

  /** Releasing outpoints of vin commutes with marking an outpoint outside vin. */
  lemma {:induction false} ReleaseMark(v: TxMap, vin: seq<OutPoint>, o: OutPoint, p: DiskTxPos)
    requires o !in vin && InIndex(v, o) && Release(v, vin).Some?
    ensures InIndex(Release(v, vin).value, o)
    ensures Release(Mark(v, o, p), vin) == Some(Mark(Release(v, vin).value, o, p))
  {
    if vin != [] {
      ReleaseMark(v, Front(vin), o, p);
      var w := Release(v, Front(vin)).value;
      var l := Last(vin);
      assert l in vin;
      assert Mark(Mark(w, o, p), l, NullPos) == Mark(Mark(w, l, NullPos), o, p) by {
        if l.hash == o.hash {
          assert w[o.hash].spent[o.n := p][l.n := NullPos] == w[o.hash].spent[l.n := NullPos][o.n := p];
        }
      }
    }
  }

  /** Releasing exactly what was spent gives the index back. */
  lemma {:induction false} ReleaseUndoesSpend(v: TxMap, vin: seq<OutPoint>, p: DiskTxPos)
    requires p != NullPos && Spend(v, vin, p).Some?
    ensures Release(Spend(v, vin, p).value, vin) == Some(v)
  {
    if vin != [] {
      var w := Spend(v, Front(vin), p).value;
      var o := Last(vin);
      SpendMarks(v, vin, p);
      SpendMarks(v, Front(vin), p);
      ReleaseUndoesSpend(v, Front(vin), p);
      assert o !in Front(vin);
      ReleaseMark(w, Front(vin), o, p);
      assert v[o.hash].spent[o.n := p][o.n := NullPos] == v[o.hash].spent;
      assert Mark(Mark(v, o, p), o, NullPos) == v;
    }
  }

  /** Erasing entries that vin does not mention commutes with releasing vin. */
  lemma {:induction false} ReleaseWithout(v: TxMap, vin: seq<OutPoint>, ids: set<TxId>)
    requires forall o :: o in vin ==> o.hash !in ids
    ensures Release(v - ids, vin) ==
            match Release(v, vin) { case None => None case Some(w) => Some(w - ids) }
  {
    if vin != [] {
      ReleaseWithout(v, Front(vin), ids);
      var o := Last(vin);
      assert o in vin;
      match Release(v, Front(vin))
      case None =>
      case Some(w) =>
        if InIndex(w, o) {
          assert Mark(w - ids, o, NullPos) == Mark(w, o, NullPos) - ids;
        }
    }
  }

  // ---------- DisconnectBlock undoes ConnectBlock ----------

  /** A transaction id that is absent from the index or completely spent. */
  predicate Dead(v: TxMap, id: TxId) { id in v ==> FullySpent(v[id]) }

  predicate SpendsFrom(tx: Tx, id: TxId) {
    !tx.IsCoinBase() && exists o :: o in tx.vin && o.hash == id
  }

  /** No transaction of txs spends from one of the ids. */
  ghost predicate Spares(txs: seq<Tx>, ids: set<TxId>) {
    forall tx, id :: tx in txs && id in ids ==> !SpendsFrom(tx, id)
  }

  /** A block does not spend from a dead id before one of its own transactions has that id, and nothing
      else changes the entry. */
  lemma {:induction false} DeadStaysPut(db: TxMap, h: Hash, txs: seq<Tx>, id: TxId)
    requires ConnectTxs(db, h, txs).Some? && Dead(db, id)
    ensures id !in Ids(txs) ==> var v := ConnectTxs(db, h, txs).value.view;
      && (id in v <==> id in db)
      && (id in db ==> v[id] == db[id])
    ensures forall k :: 0 <= k < |txs| && id !in Ids(txs[..k]) ==> !SpendsFrom(txs[k], id)
  {
    if txs != [] {
      var front, tx := Front(txs), Last(txs);
      DeadStaysPut(db, h, front, id);
      IdsSplit(txs);
      if id !in Ids(front) {
        var v := ConnectTxs(db, h, front).value.view;
        if !tx.IsCoinBase() {
          SpendMarks(v, tx.vin, BlockPos(h, |txs| - 1, tx));
          SpendKeepsDead(v, tx.vin, BlockPos(h, |txs| - 1, tx), id);
        }
        assert !SpendsFrom(tx, id);
      }
      forall k | 0 <= k < |txs| && id !in Ids(txs[..k]) ensures !SpendsFrom(txs[k], id) {
        assert k < |front| ==> front[..k] == txs[..k] && front[k] == txs[k];
        assert k == |front| ==> txs[..k] == front;
      }
    }
  }

  /** A block in which no transaction has a dead id does not spend from it. */
  lemma FrontSpares(db: TxMap, h: Hash, txs: seq<Tx>, id: TxId)
    requires ConnectTxs(db, h, txs).Some? && Dead(db, id) && id !in Ids(txs)
    ensures Spares(txs, {id})
  {
    DeadStaysPut(db, h, txs, id);
    forall tx | tx in txs ensures !SpendsFrom(tx, id) {
      var k :| 0 <= k < |txs| && txs[k] == tx;
      assert forall x :: x in txs[..k] ==> x in txs;
    }
  }

  lemma SpendKeepsDead(v: TxMap, vin: seq<OutPoint>, p: DiskTxPos, id: TxId)
    requires p != NullPos && Spend(v, vin, p).Some? && Dead(v, id)
    ensures id in v ==> id in Spend(v, vin, p).value && Spend(v, vin, p).value[id] == v[id]
    ensures forall o :: o in vin ==> o.hash != id
  {
    SpendMarks(v, vin, p);
    if id in v {
      var w := Spend(v, vin, p).value;
      forall n | 0 <= n < |v[id].spent|
        ensures w[id].spent[n] == v[id].spent[n]
      {
        assert OutPoint(id, n) !in vin;
      }
      assert w[id].spent == v[id].spent;
    }
  }

  /** Erasing entries that txs does not spend from commutes with disconnecting txs. */
  lemma {:induction false} DisconnectWithout(v: TxMap, txs: seq<Tx>, ids: set<TxId>)
    requires Spares(txs, ids)
    ensures Disconnect(v - ids, txs) ==
            match Disconnect(v, txs) { case None => None case Some(w) => Some(w - ids) }
    decreases |txs|
  {
    if txs != [] {
      var tx := Last(txs);
      assert tx in txs && txs == Front(txs) + [tx];
      if !tx.IsCoinBase() {
        forall o | o in tx.vin ensures o.hash !in ids { assert o.hash in ids ==> !SpendsFrom(tx, o.hash); }
        ReleaseWithout(v, tx.vin, ids);
      }
      match DisconnectTx(v, tx)
      case None =>
      case Some(w) =>
        var w0 := if tx.IsCoinBase() then v else Release(v, tx.vin).value;
        assert w0 - ids - {tx.hash} == w0 - {tx.hash} - ids;
        DisconnectWithout(w, Front(txs), ids);
    }
  }

  /** Disconnecting the transaction connected last leaves the index as it was before, without that id. */
  lemma DisconnectTxUndoesConnectTx(v: TxMap, tx: Tx, pos: DiskTxPos)
    requires pos != NullPos && Dead(v, tx.hash)
    requires !tx.IsCoinBase() ==> Spend(v, tx.vin, pos).Some?
    ensures var w := if tx.IsCoinBase() then v else Spend(v, tx.vin, pos).value;
      DisconnectTx(w[tx.hash := NewEntry(pos, tx)], tx) == Some(v - {tx.hash})
  {
    var w := if tx.IsCoinBase() then v else Spend(v, tx.vin, pos).value;
    var view := w[tx.hash := NewEntry(pos, tx)];
    assert view - {tx.hash} == w - {tx.hash};
    if !tx.IsCoinBase() {
      SpendKeepsDead(v, tx.vin, pos, tx.hash);
      ReleaseUndoesSpend(v, tx.vin, pos);
      ReleaseWithout(w, tx.vin, {tx.hash});
      ReleaseWithout(view, tx.vin, {tx.hash});
    }
  }

  lemma IdsSplit(txs: seq<Tx>)
    requires txs != []
    ensures Ids(txs) == Ids(Front(txs)) + {Last(txs).hash}
    ensures UniqueIds(txs) ==> UniqueIds(Front(txs)) && Last(txs).hash !in Ids(Front(txs))
  {
    assert txs == Front(txs) + [Last(txs)];
  }

  lemma {:induction false} ConnectedIdsWereDead(db: TxMap, h: Hash, txs: seq<Tx>)
    requires ConnectTxs(db, h, txs).Some?
    ensures forall id :: id in Ids(txs) ==> Dead(db, id)
  {
    if txs != [] {
      ConnectedIdsWereDead(db, h, Front(txs));
      IdsSplit(txs);
    }
  }

  /** Disconnecting a block right after connecting it never fails.  It gives the old
      index back, less the entries of ids the block reused. */
  lemma {:induction false} DisconnectUndoesConnectTxs(db: TxMap, h: Hash, txs: seq<Tx>)
    requires UniqueIds(txs) && ConnectTxs(db, h, txs).Some?
    ensures Disconnect(ConnectTxs(db, h, txs).value.view, txs) == Some(db - Ids(txs))
  {
    if txs == [] {
      assert db - Ids(txs) == db;
    } else {
      var pre, tx := Front(txs), Last(txs);
      var t := ConnectTxs(db, h, pre).value;
      var v := t.view;
      var view := ConnectTxs(db, h, txs).value.view;
      IdsSplit(txs);
      calc {
        Disconnect(view, txs);
        { DeadStaysPut(db, h, pre, tx.hash);
          DisconnectTxUndoesConnectTx(v, tx, BlockPos(h, |txs| - 1, tx)); }
        Disconnect(v - {tx.hash}, pre);
        { FrontSpares(db, h, pre, tx.hash);
          DisconnectWithout(v, pre, {tx.hash});
          DisconnectUndoesConnectTxs(db, h, pre); }
        Some(db - Ids(pre) - {tx.hash});
        { assert db - Ids(pre) - {tx.hash} == db - Ids(txs); }
        Some(db - Ids(txs));
      }
    }
  }

  lemma DisconnectUndoesConnect(db: TxMap, h: Hash, txs: seq<Tx>)
    requires Connect(db, h, txs).Some?
    ensures Disconnect(Connect(db, h, txs).value.view, txs) == Some(db - Ids(txs))
    ensures forall id :: id in Ids(txs) ==> Dead(db, id)
    ensures db.Keys !! Ids(txs) ==> Disconnect(Connect(db, h, txs).value.view, txs) == Some(db)
  {
    DisconnectUndoesConnectTxs(db, h, txs);
    ConnectedIdsWereDead(db, h, txs);
    if db.Keys !! Ids(txs) {
      assert db - Ids(txs) == db;
    }
  }
}
