/** The transaction database and the code that connects and disconnects blocks. */
module TxDatabase {
  import opened Basics
  import opened Ledger
  import opened Rewards

  datatype BatchOp = Put(id: TxId, entry: TxIndex) | Delete(id: TxId)

  function Apply(db: TxMap, batch: seq<BatchOp>): TxMap {
    if batch == [] then db else
      match Last(batch)
      case Put(id, e) => Apply(db, Front(batch))[id := e]
      case Delete(id) => Apply(db, Front(batch)) - {id}
  }

  function Lookup(v: TxMap, id: TxId): Option<TxIndex> {
    if id in v then Some(v[id]) else None
  }

  /** A database handle.  While a transaction is open, writes collect in a batch and reads see them. */
  class TxDb {
    var db: TxMap
    var activeBatch: Option<seq<BatchOp>>

    constructor ()
      ensures db == map[] && activeBatch == None
    {
      db, activeBatch := map[], None;
    }

    /** What reads through this handle see. */
    function View(): TxMap
      reads this
    {
      if activeBatch.None? then db else Apply(db, activeBatch.value)
    }

    method TxnBegin()
      requires activeBatch.None?
      modifies this
      ensures activeBatch == Some([]) && db == old(db) && View() == old(db)
    {
      activeBatch := Some([]);
    }

    method TxnCommit()
      requires activeBatch.Some?
      modifies this
      ensures activeBatch.None? && db == old(View())
    {
      var i, batch := 0, activeBatch.value;
      while i < |batch|
        invariant 0 <= i <= |batch|
        invariant db == Apply(old(db), batch[..i])
        decreases |batch| - i
      {
        assert Front(batch[..i + 1]) == batch[..i];
        match batch[i] {
          case Put(id, e) => db := db[id := e];
          case Delete(id) => db := db - {id};
        }
        i := i + 1;
      }
      assert batch[..i] == batch;
      activeBatch := None;
    }

    method TxnAbort()
      requires activeBatch.Some?
      modifies this
      ensures activeBatch.None? && db == old(db)
    {
      activeBatch := None;
    }

    /** Looks for the last operation of the open batch on this id. */
    method ScanBatch(id: TxId) returns (foundEntry: bool, entry: Option<TxIndex>)
      requires activeBatch.Some?
      ensures Lookup(View(), id) == if foundEntry then entry else Lookup(db, id)
    {
      var batch := activeBatch.value;
      foundEntry, entry := false, None;
      var i := 0;
      while i < |batch|
        invariant 0 <= i <= |batch|
        invariant Lookup(Apply(db, batch[..i]), id) == if foundEntry then entry else Lookup(db, id)
      {
        assert Front(batch[..i + 1]) == batch[..i];
        if batch[i].id == id {
          foundEntry := true;
          entry := if batch[i].Put? then Some(batch[i].entry) else None;
        }
        i := i + 1;
      }
      assert batch[..i] == batch;
    }

    method ReadTxIndex(id: TxId) returns (r: Option<TxIndex>)
      ensures r == Lookup(View(), id)
    {
      if activeBatch.Some? {
        var found, entry := ScanBatch(id);
        if found { return entry; }
      }
      r := Lookup(db, id);
    }

    method UpdateTxIndex(id: TxId, e: TxIndex)
      modifies this
      ensures View() == old(View())[id := e]
      ensures activeBatch.Some? == old(activeBatch.Some?) && (activeBatch.Some? ==> db == old(db))
    {
      if activeBatch.Some? {
        assert Front(activeBatch.value + [Put(id, e)]) == activeBatch.value;
        activeBatch := Some(activeBatch.value + [Put(id, e)]);
      } else {
        db := db[id := e];
      }
    }

    method EraseTxIndex(id: TxId)
      modifies this
      ensures View() == old(View()) - {id}
      ensures activeBatch.Some? == old(activeBatch.Some?) && (activeBatch.Some? ==> db == old(db))
    {
      if activeBatch.Some? {
        assert Front(activeBatch.value + [Delete(id)]) == activeBatch.value;
        activeBatch := Some(activeBatch.value + [Delete(id)]);
      } else {
        db := db - {id};
      }
    }
  }

  // ---------- disconnecting ----------

  method DisconnectInputs(txdb: TxDb, tx: Tx) returns (ok: bool)
    requires txdb.activeBatch.Some?
    modifies txdb
    ensures ok <==> DisconnectTx(old(txdb.View()), tx).Some?
    ensures ok ==> txdb.View() == DisconnectTx(old(txdb.View()), tx).value
    ensures txdb.activeBatch.Some? && txdb.db == old(txdb.db)
  {
    ghost var v := txdb.View();
    if !tx.IsCoinBase() {
      var i := 0;
      while i < |tx.vin|
        invariant 0 <= i <= |tx.vin|
        invariant txdb.activeBatch.Some? && txdb.db == old(txdb.db)
        invariant Release(v, tx.vin[..i]) == Some(txdb.View())
      {
        var prevout := tx.vin[i];
        assert Front(tx.vin[..i + 1]) == tx.vin[..i];
        var txindex := txdb.ReadTxIndex(prevout.hash);
        if txindex.None? || prevout.n >= |txindex.value.spent| {
          ReleaseStops(v, tx.vin, i + 1);
          return false;
        }
        txdb.UpdateTxIndex(prevout.hash, txindex.value.(spent := txindex.value.spent[prevout.n := NullPos]));
        i := i + 1;
      }
      assert tx.vin[..i] == tx.vin;
    }
    txdb.EraseTxIndex(tx.hash);
    return true;
  }

  /** Once a prefix cannot be released, the whole list cannot. */
  lemma {:induction false} ReleaseStops(v: TxMap, vin: seq<OutPoint>, k: nat)
    requires k <= |vin| && Release(v, vin[..k]).None?
    ensures Release(v, vin).None?
    decreases |vin|
  {
    if k < |vin| {
      assert Front(vin)[..k] == vin[..k];
      ReleaseStops(v, Front(vin), k);
    } else {
      assert vin[..k] == vin;
    }
  }

  method DisconnectBlock(txdb: TxDb, txs: seq<Tx>) returns (ok: bool)
    requires txdb.activeBatch.Some?
    modifies txdb
    ensures ok <==> Disconnect(old(txdb.View()), txs).Some?
    ensures ok ==> txdb.View() == Disconnect(old(txdb.View()), txs).value
    ensures txdb.activeBatch.Some? && txdb.db == old(txdb.db)
  {
    var i := |txs|;
    assert txs[..i] == txs;
    while i > 0
      invariant 0 <= i <= |txs|
      invariant txdb.activeBatch.Some? && txdb.db == old(txdb.db)
      invariant Disconnect(txdb.View(), txs[..i]) == Disconnect(old(txdb.View()), txs)
    {
      i := i - 1;
      assert Front(txs[..i + 1]) == txs[..i];
      var done := DisconnectInputs(txdb, txs[i]);
      if !done { return false; }
    }
    return true;
  }

  // ---------- connecting ----------

  type MapPrevTx = map<TxId, (TxIndex, Tx)>

  /** inputs holds, for each previous transaction of vin, its entry in v and the transaction itself. */
  ghost predicate Fetched(v: TxMap, vin: seq<OutPoint>, inputs: MapPrevTx) {
    && (forall o :: o in vin ==> o.hash in inputs)
    && (forall id :: id in inputs ==> id in v && v[id].pos != NullPos && inputs[id] == (v[id], v[id].pos.tx))
  }

  /** Reads the previous transactions of tx, from the proposed changes q where they have it. */
  method FetchInputs(txdb: TxDb, tx: Tx, q: TxMap) returns (ok: bool, inputs: MapPrevTx)
    requires !tx.IsCoinBase()
    ensures ok <==> forall o :: o in tx.vin ==> Resolves(txdb.View() + q, o)
    ensures ok ==> Fetched(txdb.View() + q, tx.vin, inputs)
  {
    ghost var v := txdb.View() + q;
    inputs := map[];
    var i := 0;
    while i < |tx.vin|
      invariant 0 <= i <= |tx.vin|
      invariant Fetched(v, tx.vin[..i], inputs)
    {
      var prevout := tx.vin[i];
      if prevout.hash !in inputs {
        var txindex := if prevout.hash in q then Some(q[prevout.hash]) else None;
        if txindex.None? {
          txindex := txdb.ReadTxIndex(prevout.hash);
        }
        if txindex.None? || txindex.value.pos == NullPos {
          assert prevout in tx.vin && !Resolves(v, prevout);
          return false, inputs;
        }
        inputs := inputs[prevout.hash := (txindex.value, txindex.value.pos.tx)];
      }
      i := i + 1;
    }
    assert tx.vin[..i] == tx.vin;
    i := 0;
    while i < |tx.vin|
      invariant 0 <= i <= |tx.vin|
      invariant forall j :: 0 <= j < i ==> Resolves(v, tx.vin[j])
    {
      var prevout := tx.vin[i];
      assert prevout in tx.vin;
      var (txindex, txPrev) := inputs[prevout.hash];
      if prevout.n >= |txPrev.vout| || prevout.n >= |txindex.spent| {
        assert !Resolves(v, prevout);
        return false, inputs;
      }
      i := i + 1;
    }
    return true, inputs;
  }

  /** The first loop of ConnectInputs: time, range and sum of the input values. */
  method CheckInputValues(ghost v: TxMap, tx: Tx, inputs: MapPrevTx) returns (ok: bool, valueIn: int)
    requires Fetched(v, tx.vin, inputs)
    ensures ok <==> InputRules(v, tx)
    ensures ok ==> valueIn == ValueIn(v, tx.vin) && forall o :: o in tx.vin ==> Resolves(v, o)
  {
    valueIn := 0;
    var i := 0;
    while i < |tx.vin|
      invariant 0 <= i <= |tx.vin|
      invariant valueIn == ValueIn(v, tx.vin[..i])
      invariant forall j :: 0 <= j < i ==> InputRule(v, tx, j)
    {
      var prevout := tx.vin[i];
      assert prevout in tx.vin;
      assert Front(tx.vin[..i + 1]) == tx.vin[..i];
      var (txindex, txPrev) := inputs[prevout.hash];
      if prevout.n >= |txPrev.vout| || prevout.n >= |txindex.spent| {
        assert !InputRule(v, tx, i);
        return false, valueIn;
      }
      valueIn := valueIn + txPrev.vout[prevout.n].value;
      if txPrev.time > tx.time || !MoneyRange(txPrev.vout[prevout.n].value) || !MoneyRange(valueIn) {
        assert !InputRule(v, tx, i);
        return false, valueIn;
      }
      i := i + 1;
    }
    assert tx.vin[..i] == tx.vin;
    forall o | o in tx.vin ensures Resolves(v, o) {
      var j :| 0 <= j < |tx.vin| && tx.vin[j] == o;
      assert InputRule(v, tx, j);
    }
    return true, valueIn;
  }

  lemma {:induction false} SpendStops(v: TxMap, vin: seq<OutPoint>, p: DiskTxPos, k: nat)
    requires k <= |vin| && Spend(v, vin[..k], p).None?
    ensures Spend(v, vin, p).None?
    decreases |vin|
  {
    if k < |vin| {
      assert Front(vin)[..k] == vin[..k];
      SpendStops(v, Front(vin), p, k);
    } else {
      assert vin[..k] == vin;
    }
  }

  lemma SpendNext(v: TxMap, vin: seq<OutPoint>, p: DiskTxPos, i: nat)
    requires i < |vin|
    ensures Spend(v, vin[..i + 1], p) ==
            match Spend(v, vin[..i], p) {
              case None => None
              case Some(w) => if Spendable(w, vin[i]) then Some(Mark(w, vin[i], p)) else None
            }
  {
    assert Front(vin[..i + 1]) == vin[..i] && Last(vin[..i + 1]) == vin[i];
  }

  /** Writing the marked entry of one input back to the proposed changes. */
  lemma MarkQueued(base: TxMap, q: TxMap, vin: seq<OutPoint>, inputs: MapPrevTx, o: OutPoint, p: DiskTxPos)
    requires Fetched(base + q, vin, inputs) && o in vin && Resolves(base + q, o)
    ensures var (e, txPrev) := inputs[o.hash];
      var e' := e.(spent := e.spent[o.n := p]);
      var v' := base + q[o.hash := e'];
      && v' == Mark(base + q, o, p)
      && Fetched(v', vin, inputs[o.hash := (e', txPrev)])
      && forall x {:trigger Resolves(v', x)} :: Resolves(base + q, x) ==> Resolves(v', x)
  {
  }

  /** The second loop of ConnectInputs: rejects a spent output, else marks it in the proposed changes q. */
  method SpendInputs(ghost base: TxMap, tx: Tx, fetched: MapPrevTx, q: TxMap, posThisTx: DiskTxPos)
    returns (ok: bool, q': TxMap)
    requires Fetched(base + q, tx.vin, fetched) && posThisTx != NullPos
    requires forall o :: o in tx.vin ==> Resolves(base + q, o)
    ensures ok <==> Spend(base + q, tx.vin, posThisTx).Some?
    ensures ok ==> base + q' == Spend(base + q, tx.vin, posThisTx).value
  {
    ghost var v := base + q;
    var inputs: MapPrevTx := fetched;
    q' := q;
    var i := 0;
    while i < |tx.vin|
      invariant 0 <= i <= |tx.vin|
      invariant Spend(v, tx.vin[..i], posThisTx) == Some(base + q')
      invariant Fetched(base + q', tx.vin, inputs)
      invariant forall o :: o in tx.vin ==> Resolves(base + q', o)
    {
      var prevout := tx.vin[i];
      assert prevout in tx.vin;
      SpendNext(v, tx.vin, posThisTx, i);
      var (txindex, txPrev) := inputs[prevout.hash];
      if txindex.spent[prevout.n] != NullPos {
        SpendStops(v, tx.vin, posThisTx, i + 1);
        return false, q';
      }
      MarkQueued(base, q', tx.vin, inputs, prevout, posThisTx);
      txindex := txindex.(spent := txindex.spent[prevout.n := posThisTx]);
      inputs := inputs[prevout.hash := (txindex, txPrev)];
      q' := q'[prevout.hash := txindex];
      i := i + 1;
    }
    assert tx.vin[..i] == tx.vin;
    return true, q';
  }

  /** Takes over the inputs of tx in the proposed changes q; base is what the database holds. */
  method ConnectInputs(ghost base: TxMap, tx: Tx, inputs: MapPrevTx, q: TxMap, posThisTx: DiskTxPos)
    returns (ok: bool, q': TxMap)
    requires Fetched(base + q, tx.vin, inputs) && posThisTx != NullPos
    ensures ok <==> InputRules(base + q, tx) && FeeRule(tx, ValueIn(base + q, tx.vin))
                    && Spend(base + q, tx.vin, posThisTx).Some?
    ensures ok ==> base + q' == Spend(base + q, tx.vin, posThisTx).value
  {
    var passed, valueIn := CheckInputValues(base + q, tx, inputs);
    if !passed { return false, q; }
    ok, q' := SpendInputs(base, tx, inputs, q, posThisTx);
    if ok && !tx.IsCoinStake() {
      var fee := valueIn - ValueOut(tx);
      if fee < 0 || !MoneyRange(fee) { return false, q'; }
    }
  }

  /** What the index cannot decide about a block: ok covers signatures, maturity, sigops, the minimum
      fee and the remaining checks of CheckBlock; legacyReward is the reward by coin age. */
  datatype Verdict = Verdict(ok: bool, legacyReward: int)

  /** What ConnectBlock needs to know of a block index entry and of its parent. */
  datatype Context = Context(hash: Hash, time: int, parentHeight: nat, parentSupply: int)

  predicate StakeRule(txs: seq<Tx>, t: Tally, c: Context, verdict: Verdict) {
    IsProofOfStake(txs) ==>
      t.stakeReward <= GetProofOfStakeReward(verdict.legacyReward, c.time, c.parentHeight, c.parentSupply, t.fees)
  }

  /** ConnectBlock accepts the block on top of index v. */
  predicate Accepts(v: TxMap, c: Context, txs: seq<Tx>, verdict: Verdict) {
    && verdict.ok
    && Connect(v, c.hash, txs).Some?
    && StakeRule(txs, Connect(v, c.hash, txs).value, c, verdict)
  }

  lemma {:induction false} ConnectStops(v: TxMap, h: Hash, txs: seq<Tx>, k: nat)
    requires k <= |txs| && ConnectTxs(v, h, txs[..k]).None?
    ensures ConnectTxs(v, h, txs).None?
    decreases |txs|
  {
    if k < |txs| {
      assert Front(txs)[..k] == txs[..k];
      ConnectStops(v, h, Front(txs), k);
    } else {
      assert txs[..k] == txs;
    }
  }

  method GetValueIn(ghost v: TxMap, tx: Tx, inputs: MapPrevTx) returns (n: int)
    requires Fetched(v, tx.vin, inputs) && forall o :: o in tx.vin ==> Resolves(v, o)
    ensures n == ValueIn(v, tx.vin)
  {
    n := 0;
    for i := 0 to |tx.vin|
      invariant n == ValueIn(v, tx.vin[..i])
    {
      assert tx.vin[i] in tx.vin;
      assert Front(tx.vin[..i + 1]) == tx.vin[..i];
      n := n + inputs[tx.vin[i].hash].1.vout[tx.vin[i].n].value;
    }
    assert tx.vin[..|tx.vin|] == tx.vin;
  }

  /** Connects an ordinary transaction or a coinstake in the proposed changes q. */
  method ConnectSpender(txdb: TxDb, tx: Tx, pos: DiskTxPos, q: TxMap)
    returns (ok: bool, valueIn: int, q': TxMap)
    requires pos != NullPos && !tx.IsCoinBase()
    ensures var v := txdb.View() + q;
      && (ok <==> InputRules(v, tx) && FeeRule(tx, ValueIn(v, tx.vin)) && Spend(v, tx.vin, pos).Some?)
      && (ok ==> valueIn == ValueIn(v, tx.vin) && txdb.View() + q' == Spend(v, tx.vin, pos).value)
  {
    ghost var base := txdb.View();
    var fetched, inputs := FetchInputs(txdb, tx, q);
    if !fetched {
      SpendNeedsResolved(base + q, tx.vin, pos);
      return false, 0, q;
    }
    valueIn := GetValueIn(base + q, tx, inputs);
    ok, q' := ConnectInputs(base, tx, inputs, q, pos);
  }

  /** One turn of ConnectBlock's loop.  The view of the running totals is the database overlaid with q. */
  method ConnectOne(txdb: TxDb, tx: Tx, pos: DiskTxPos, t: Tally, q: TxMap)
    returns (ok: bool, t': Tally, q': TxMap)
    requires pos != NullPos
    ensures ok <==> ConnectTx(txdb.View(), t.(view := txdb.View() + q), tx, pos).Some?
    ensures ok ==> t'.(view := txdb.View() + q') == ConnectTx(txdb.View(), t.(view := txdb.View() + q), tx, pos).value
  {
    t', q' := t, q;
    var txindexOld := txdb.ReadTxIndex(tx.hash);
    if txindexOld.Some? && !FullySpent(txindexOld.value) { return false, t', q'; }
    if tx.IsCoinBase() {
      t' := t.(valueOut := t.valueOut + ValueOut(tx));
    } else {
      var connected, valueIn, spent := ConnectSpender(txdb, tx, pos, q);
      if !connected { return false, t', q'; }
      var valueOut := ValueOut(tx);
      q' := spent;
      t' := Tally(t.view, t.valueIn + valueIn, t.valueOut + valueOut,
                  if tx.IsCoinStake() then t.fees else t.fees + (valueIn - valueOut),
                  if tx.IsCoinStake() then valueOut - valueIn else t.stakeReward);
    }
    ghost var before := txdb.View() + q';
    q' := q'[tx.hash := NewEntry(pos, tx)];
    assert txdb.View() + q' == before[tx.hash := NewEntry(pos, tx)];
    return true, t', q';
  }

  lemma SpendNeedsResolved(v: TxMap, vin: seq<OutPoint>, p: DiskTxPos)
    requires p != NullPos && exists o :: o in vin && !Resolves(v, o)
    ensures Spend(v, vin, p).None?
  {
    if Spend(v, vin, p).Some? {
      SpendMarks(v, vin, p);
    }
  }

  /** Connects a block to the index.  moneySupply is the supply recorded for the block when it connects. */
  method ConnectBlock(txdb: TxDb, c: Context, txs: seq<Tx>, verdict: Verdict)
    returns (ok: bool, moneySupply: int)
    requires txdb.activeBatch.Some?
    modifies txdb
    ensures ok <==> Accepts(old(txdb.View()), c, txs, verdict)
    ensures ok ==> var t := Connect(old(txdb.View()), c.hash, txs).value;
                   txdb.View() == t.view && moneySupply == c.parentSupply + t.valueOut - t.valueIn
    ensures txdb.activeBatch.Some? && txdb.db == old(txdb.db)
  {
    moneySupply := 0;
    if !verdict.ok || !CheckBlock(txs) { return false, moneySupply; }
    ghost var base := txdb.View();
    var mapQueuedChanges: TxMap := map[];
    var t := Tally(map[], 0, 0, 0, 0);
    assert base + mapQueuedChanges == base;
    var k := 0;
    while k < |txs|
      invariant 0 <= k <= |txs|
      invariant txdb.View() == base && txdb.activeBatch.Some? && txdb.db == old(txdb.db)
      invariant ConnectTxs(base, c.hash, txs[..k]) == Some(t.(view := base + mapQueuedChanges))
    {
      assert Front(txs[..k + 1]) == txs[..k];
      var connected;
      connected, t, mapQueuedChanges := ConnectOne(txdb, txs[k], BlockPos(c.hash, k, txs[k]), t, mapQueuedChanges);
      if !connected {
        ConnectStops(base, c.hash, txs, k + 1);
        return false, moneySupply;
      }
      k := k + 1;
    }
    assert txs[..k] == txs;
    if !StakeRule(txs, t, c, verdict) { return false, moneySupply; }
    moneySupply := c.parentSupply + t.valueOut - t.valueIn;
    WriteQueued(txdb, mapQueuedChanges);
    return true, moneySupply;
  }

  /** The queued changes that are not left to write. */
  function Written(q: TxMap, left: set<TxId>): TxMap { map id | id in q && id !in left :: q[id] }

  lemma WrittenNext(base: TxMap, q: TxMap, left: set<TxId>, id: TxId)
    requires id in left && id in q
    ensures base + Written(q, left - {id}) == (base + Written(q, left))[id := q[id]]
  {
  }

  method WriteQueued(txdb: TxDb, q: TxMap)
    requires txdb.activeBatch.Some?
    modifies txdb
    ensures txdb.View() == old(txdb.View()) + q
    ensures txdb.activeBatch.Some? && txdb.db == old(txdb.db)
  {
    ghost var base := txdb.View();
    var left := q.Keys;
    while left != {}
      invariant left <= q.Keys
      invariant txdb.activeBatch.Some? && txdb.db == old(txdb.db)
      invariant txdb.View() == base + Written(q, left)
      decreases |left|
    {
      var id :| id in left;
      WrittenNext(base, q, left, id);
      txdb.UpdateTxIndex(id, q[id]);
      left := left - {id};
    }
    assert Written(q, {}) == q;
  }
}
