/** What a list of transactions chosen for a new block has to satisfy, and why a block made of it connects. */
module BlockAssembly {
  import opened Basics
  import opened Ledger

  const MAX_BLOCK_SIZE := 1_000_000
  const MAX_BLOCK_SIGOPS := MAX_BLOCK_SIZE / 50
  const INITIAL_SIZE := 1000
  const INITIAL_SIGOPS := 100

  type Positive = x: nat | x > 0 witness 1

  /** What the index cannot tell about a transaction: its size, signature operations and minimum fee in a block
      of a given size, whether it is final and not from the future, whether its signatures, coinbase
      maturity and own fee are in order, and how deep a previous transaction is buried. */
  datatype Rules = Rules(
    size: Tx -> Positive, legacySigOps: Tx -> nat, p2shSigOps: Tx -> nat, minFee: (Tx, nat) -> int,
    isFinal: Tx -> bool, timely: Tx -> bool, verified: Tx -> bool, depth: TxId -> nat)

  /** The bounds set by the options. */
  datatype Limits = Limits(maxSize: nat, prioritySize: nat, minSize: nat, minTxFee: int)

  function MakeLimits(blockMaxSize: nat, blockPrioritySize: nat, blockMinSize: nat, minTxFee: int): (l: Limits)
    ensures 1000 <= l.maxSize <= MAX_BLOCK_SIZE - 1000 && l.prioritySize <= l.maxSize && l.minSize <= l.maxSize
  {
    var maxSize := Max(1000, Min(MAX_BLOCK_SIZE - 1000, blockMaxSize));
    Limits(maxSize, Min(maxSize, blockPrioritySize), Min(maxSize, blockMinSize), minTxFee)
  }

  // ---------- a chosen list ----------

  function SumSizes(r: Rules, txs: seq<Tx>): nat {
    if txs == [] then 0 else SumSizes(r, Front(txs)) + r.size(Last(txs))
  }

  function SigOps(r: Rules, tx: Tx): nat { r.legacySigOps(tx) + r.p2shSigOps(tx) }

  function SumSigOps(r: Rules, txs: seq<Tx>): nat {
    if txs == [] then 0 else SumSigOps(r, Front(txs)) + SigOps(r, Last(txs))
  }

  /** The view after the pool transactions txs on top of index db, each spending unspent outputs by the rules. */
  function Assembled(db: TxMap, txs: seq<Tx>): Option<TxMap> {
    if txs == [] then Some(db) else
      match Assembled(db, Front(txs))
      case None => None
      case Some(v) => AssembleTx(v, Last(txs))
  }

  function AssembleTx(v: TxMap, tx: Tx): Option<TxMap> {
    match Spend(v, tx.vin, PoolPos(tx))
    case None => None
    case Some(w) =>
      if InputRules(v, tx) && FeeRule(tx, ValueIn(v, tx.vin))
      then Some(w[tx.hash := NewEntry(PoolPos(tx), tx)]) else None
  }

  function FeeOf(v: TxMap, tx: Tx): int { ValueIn(v, tx.vin) - ValueOut(tx) }

  function TotalFees(db: TxMap, txs: seq<Tx>): int {
    if txs == [] then 0 else
      match Assembled(db, Front(txs))
      case None => 0
      case Some(v) => TotalFees(db, Front(txs)) + FeeOf(v, Last(txs))
  }

  /** Each transaction pays at least the minimum fee for the size of the block when it was chosen. */
  ghost predicate FeesPaid(db: TxMap, r: Rules, txs: seq<Tx>) {
    txs != [] ==>
      && FeesPaid(db, r, Front(txs)) && Assembled(db, Front(txs)).Some?
      && FeeOf(Assembled(db, Front(txs)).value, Last(txs))
         >= r.minFee(Last(txs), INITIAL_SIZE + SumSizes(r, Front(txs)))
  }

  /** The place of the transaction an input spends from can be read from the index of the chain. */
  predicate Readable(db: TxMap, o: OutPoint) {
    o.hash in db && db[o.hash].pos != NullPos && o.n < |db[o.hash].pos.tx.vout|
  }

  /** The pool transactions that have to come first. */
  function Parents(db: TxMap, vin: seq<OutPoint>): set<TxId> {
    set o | o in vin && !Readable(db, o) :: o.hash
  }

  predicate Eligible(r: Rules, tx: Tx) { !tx.IsCoinBase() && !tx.IsCoinStake() && r.isFinal(tx) }

  /** Every transaction comes after all the parents it needs. */
  ghost predicate ParentsFirst(db: TxMap, txs: seq<Tx>) {
    forall i :: 0 <= i < |txs| ==> Parents(db, txs[i].vin) <= Ids(txs[..i])
  }

  /** The running totals account for the list, which fits the limits. */
  ghost predicate Tallied(db: TxMap, r: Rules, l: Limits, txs: seq<Tx>, view: TxMap, size: nat, sigOps: nat,
                          fees: int) {
    && Assembled(db, txs) == Some(view)
    && size == INITIAL_SIZE + SumSizes(r, txs) && sigOps == INITIAL_SIGOPS + SumSigOps(r, txs)
    && (txs != [] ==> size < l.maxSize && sigOps < MAX_BLOCK_SIGOPS)
    && fees == TotalFees(db, txs) && FeesPaid(db, r, txs)
  }

  /** Different transactions that may be in a block, parents first. */
  ghost predicate InOrder(db: TxMap, r: Rules, txs: seq<Tx>) {
    UniqueIds(txs) && ParentsFirst(db, txs) && forall i :: 0 <= i < |txs| ==> Allowed(r, txs[i])
  }

  predicate Allowed(r: Rules, tx: Tx) { Eligible(r, tx) && r.timely(tx) && r.verified(tx) }

  ghost predicate Chosen(db: TxMap, r: Rules, l: Limits, txs: seq<Tx>, view: TxMap, size: nat, sigOps: nat, fees: int) {
    Tallied(db, r, l, txs, view, size, sigOps, fees) && InOrder(db, r, txs)
  }

  lemma ChosenNext(db: TxMap, r: Rules, l: Limits, txs: seq<Tx>, view: TxMap, size: nat, sigOps: nat, fees: int, tx: Tx)
    requires Chosen(db, r, l, txs, view, size, sigOps, fees)
    requires tx.hash !in Ids(txs) && Parents(db, tx.vin) <= Ids(txs)
    requires Allowed(r, tx) && AssembleTx(view, tx).Some?
    requires size + r.size(tx) < l.maxSize && sigOps + SigOps(r, tx) < MAX_BLOCK_SIGOPS
    requires FeeOf(view, tx) >= r.minFee(tx, size)
    ensures Chosen(db, r, l, txs + [tx], AssembleTx(view, tx).value, size + r.size(tx), sigOps + SigOps(r, tx),
                   fees + FeeOf(view, tx))
    ensures Ids(txs + [tx]) == Ids(txs) + {tx.hash}
  {
    TotalsNext(db, r, txs, tx);
    FeesPaidNext(db, r, txs, tx);
    InOrderNext(db, r, txs, tx);
    IdsSplit(txs + [tx]);
    assert Front(txs + [tx]) == txs;
  }

  lemma FeesPaidNext(db: TxMap, r: Rules, txs: seq<Tx>, tx: Tx)
    requires FeesPaid(db, r, txs) && Assembled(db, txs).Some?
    requires FeeOf(Assembled(db, txs).value, tx) >= r.minFee(tx, INITIAL_SIZE + SumSizes(r, txs))
    ensures FeesPaid(db, r, txs + [tx])
  {
    assert Front(txs + [tx]) == txs && Last(txs + [tx]) == tx;
  }

  lemma InOrderNext(db: TxMap, r: Rules, txs: seq<Tx>, tx: Tx)
    requires InOrder(db, r, txs) && Allowed(r, tx) && tx.hash !in Ids(txs) && Parents(db, tx.vin) <= Ids(txs)
    ensures InOrder(db, r, txs + [tx])
  {
    forall i | 0 <= i < |txs| ensures txs[i].hash != tx.hash { assert txs[i] in txs; }
    ParentsFirstNext(db, txs, tx);
  }

  lemma ParentsFirstNext(db: TxMap, txs: seq<Tx>, tx: Tx)
    requires ParentsFirst(db, txs) && Parents(db, tx.vin) <= Ids(txs)
    ensures ParentsFirst(db, txs + [tx])
  {
    var all := txs + [tx];
    forall i | 0 <= i < |all| ensures Parents(db, all[i].vin) <= Ids(all[..i]) {
      assert all[..i] == if i < |txs| then txs[..i] else txs;
    }
  }

  lemma AssembledNext(db: TxMap, txs: seq<Tx>, tx: Tx)
    requires Assembled(db, txs).Some?
    ensures Assembled(db, txs + [tx]) == AssembleTx(Assembled(db, txs).value, tx)
    ensures TotalFees(db, txs + [tx]) == TotalFees(db, txs) + FeeOf(Assembled(db, txs).value, tx)
  {
    assert Front(txs + [tx]) == txs && Last(txs + [tx]) == tx;
  }

  lemma TotalsNext(db: TxMap, r: Rules, txs: seq<Tx>, tx: Tx)
    requires Assembled(db, txs).Some?
    ensures var all := txs + [tx];
      && SumSizes(r, all) == SumSizes(r, txs) + r.size(tx) && SumSigOps(r, all) == SumSigOps(r, txs) + SigOps(r, tx)
      && Assembled(db, all) == AssembleTx(Assembled(db, txs).value, tx)
      && TotalFees(db, all) == TotalFees(db, txs) + FeeOf(Assembled(db, txs).value, tx)
  {
    AssembledNext(db, txs, tx);
    assert Front(txs + [tx]) == txs && Last(txs + [tx]) == tx;
  }

  // ---------- no output is spent twice ----------

  ghost predicate SpentIn(v: TxMap, o: OutPoint) { InIndex(v, o) && v[o.hash].spent[o.n] != NullPos }

  /** Ids that are not in the index, or only with all outputs spent: nothing in db depends on them. */
  ghost predicate AllDead(db: TxMap, txs: seq<Tx>) { forall i :: 0 <= i < |txs| ==> Dead(db, txs[i].hash) }

  /** A dead id that no listed transaction has stays as it is. */
  lemma {:induction false} DeadUntouched(db: TxMap, txs: seq<Tx>, id: TxId)
    requires Assembled(db, txs).Some? && Dead(db, id) && forall i :: 0 <= i < |txs| ==> txs[i].hash != id
    ensures var v := Assembled(db, txs).value; (id in v <==> id in db) && (id in db ==> v[id] == db[id])
    ensures forall i :: 0 <= i < |txs| ==> forall o :: o in txs[i].vin ==> o.hash != id
  {
    if txs != [] {
      var tx := Last(txs);
      DeadUntouched(db, Front(txs), id);
      var v := Assembled(db, Front(txs)).value;
      SpendMarks(v, tx.vin, PoolPos(tx));
      SpendKeepsDead(v, tx.vin, PoolPos(tx), id);
      assert forall i :: 0 <= i < |txs| - 1 ==> txs[i] == Front(txs)[i];
    }
  }

  /** Every input of the list is marked spent at its end. */
  lemma {:induction false} InputsSpent(db: TxMap, txs: seq<Tx>)
    requires Assembled(db, txs).Some? && UniqueIds(txs) && AllDead(db, txs)
    ensures forall i :: 0 <= i < |txs| ==> forall o :: o in txs[i].vin ==> SpentIn(Assembled(db, txs).value, o)
  {
    if txs != [] {
      var front, tx := Front(txs), Last(txs);
      assert AllDead(db, front) by { assert forall i :: 0 <= i < |front| ==> front[i] == txs[i]; }
      InputsSpent(db, front);
      DeadUntouched(db, front, tx.hash);
      assert Dead(db, txs[|txs| - 1].hash);
      LastSpends(Assembled(db, front).value, tx);
      forall i | 0 <= i < |txs| ensures forall o :: o in txs[i].vin ==> SpentIn(Assembled(db, txs).value, o) {
        assert i < |front| ==> txs[i] == front[i];
      }
    }
  }

  /** One more transaction: what was spent stays spent, and its inputs are spent too. */
  lemma LastSpends(v: TxMap, tx: Tx)
    requires AssembleTx(v, tx).Some? && Dead(v, tx.hash)
    ensures forall o :: o in tx.vin ==> SpentIn(AssembleTx(v, tx).value, o)
    ensures forall o :: SpentIn(v, o) && o.hash != tx.hash ==> SpentIn(AssembleTx(v, tx).value, o)
  {
    SpendMarks(v, tx.vin, PoolPos(tx));
    SpendKeepsDead(v, tx.vin, PoolPos(tx), tx.hash);
    forall o | SpentIn(v, o) && o.hash != tx.hash ensures SpentIn(AssembleTx(v, tx).value, o) {
      assert o in tx.vin ==> Spendable(v, o);
    }
  }

  lemma LastIsApart(db: TxMap, txs: seq<Tx>, i: nat, o: OutPoint)
    requires txs != [] && Assembled(db, txs).Some? && UniqueIds(txs) && AllDead(db, txs)
    requires i < |txs| - 1 && o in Last(txs).vin
    ensures o !in txs[i].vin
  {
    var front := Front(txs);
    assert AllDead(db, front) by { assert forall k :: 0 <= k < |front| ==> front[k] == txs[k]; }
    var v := Assembled(db, front).value;
    SpendMarks(v, Last(txs).vin, PoolPos(Last(txs)));
    InputsSpent(db, front);
    assert txs[i] == front[i] && Spendable(v, o);
    assert o in front[i].vin ==> SpentIn(v, o);
  }

  /** No outpoint is an input of two transactions, or twice of one. */
  lemma {:induction false} NoOutpointTwice(db: TxMap, txs: seq<Tx>, i: nat, j: nat, a: nat, b: nat)
    requires Assembled(db, txs).Some? && UniqueIds(txs) && AllDead(db, txs)
    requires i < |txs| && j < |txs| && a < |txs[i].vin| && b < |txs[j].vin| && (i < j || (i == j && a < b))
    ensures txs[i].vin[a] != txs[j].vin[b]
  {
    var front := Front(txs);
    assert forall k :: 0 <= k < |front| ==> front[k] == txs[k];
    if j < |front| {
      NoOutpointTwice(db, front, i, j, a, b);
    } else if i < j {
      var o := txs[j].vin[b];
      assert o in Last(txs).vin;
      LastIsApart(db, txs, i, o);
    } else {
      SpendMarks(Assembled(db, front).value, Last(txs).vin, PoolPos(Last(txs)));
    }
  }

  /** No two inputs of the list name the same outpoint. */
  ghost predicate SpendsOnce(txs: seq<Tx>) {
    forall i, j, a, b :: 0 <= i < |txs| && 0 <= j < |txs| && 0 <= a < |txs[i].vin| && 0 <= b < |txs[j].vin| ==>
      txs[i].vin[a] == txs[j].vin[b] ==> i == j && a == b
  }

  lemma ChosenSpendsOnce(db: TxMap, txs: seq<Tx>)
    requires Assembled(db, txs).Some? && UniqueIds(txs) && AllDead(db, txs)
    ensures SpendsOnce(txs)
  {
    forall i, j, a, b | 0 <= i < |txs| && 0 <= j < |txs| && 0 <= a < |txs[i].vin| && 0 <= b < |txs[j].vin|
      && txs[i].vin[a] == txs[j].vin[b] ensures i == j && a == b
    {
      if i < j || (i == j && a < b) { NoOutpointTwice(db, txs, i, j, a, b); }
      if j < i || (i == j && b < a) { NoOutpointTwice(db, txs, j, i, b, a); }
    }
  }

  // ---------- the block connects ----------

  /** Entries that differ at most in where they say a transaction is. */
  ghost predicate AlikeEntry(x: TxIndex, y: TxIndex) {
    && SamePlace(x.pos, y.pos) && |x.spent| == |y.spent|
    && forall n :: 0 <= n < |x.spent| ==> (x.spent[n] == NullPos <==> y.spent[n] == NullPos)
  }

  ghost predicate SamePlace(p: DiskTxPos, q: DiskTxPos) {
    (p == NullPos <==> q == NullPos) && (p != NullPos ==> p.tx == q.tx)
  }

  /** The same entries in that sense, except for id. */
  ghost predicate Alike(v: TxMap, w: TxMap, id: TxId) {
    forall h :: h != id ==> (h in v <==> h in w) && (h in v ==> AlikeEntry(v[h], w[h]))
  }

  lemma AlikeMark(v: TxMap, w: TxMap, id: TxId, o: OutPoint, p: DiskTxPos, q: DiskTxPos)
    requires Alike(v, w, id) && InIndex(v, o) && o.hash != id && p != NullPos && q != NullPos
    ensures InIndex(w, o) && Alike(Mark(v, o, p), Mark(w, o, q), id)
  {
  }

  lemma {:induction false} AlikeSpend(v: TxMap, w: TxMap, id: TxId, vin: seq<OutPoint>, p: DiskTxPos, q: DiskTxPos)
    requires Alike(v, w, id) && p != NullPos && q != NullPos
    requires Spend(v, vin, p).Some? && forall o :: o in vin ==> o.hash != id
    ensures Spend(w, vin, q).Some? && Alike(Spend(v, vin, p).value, Spend(w, vin, q).value, id)
  {
    if vin != [] {
      assert vin == Front(vin) + [Last(vin)];
      AlikeSpend(v, w, id, Front(vin), p, q);
      AlikeMark(Spend(v, Front(vin), p).value, Spend(w, Front(vin), q).value, id, Last(vin), p, q);
    }
  }

  lemma {:induction false} AlikeValueIn(v: TxMap, w: TxMap, id: TxId, vin: seq<OutPoint>)
    requires Alike(v, w, id) && forall o :: o in vin ==> o.hash != id
    ensures ValueIn(v, vin) == ValueIn(w, vin)
  {
    if vin != [] {
      assert vin == Front(vin) + [Last(vin)];
      AlikeValueIn(v, w, id, Front(vin));
    }
  }

  lemma AlikeRules(v: TxMap, w: TxMap, id: TxId, tx: Tx)
    requires Alike(v, w, id) && InputRules(v, tx) && forall o :: o in tx.vin ==> o.hash != id
    ensures InputRules(w, tx)
  {
    forall i | 0 <= i < |tx.vin| ensures InputRule(w, tx, i) {
      assert InputRule(v, tx, i) && tx.vin[i] in tx.vin;
      assert forall o :: o in tx.vin[..i + 1] ==> o in tx.vin;
      AlikeValueIn(v, w, id, tx.vin[..i + 1]);
    }
  }

  lemma AlikeTx(db: TxMap, v: TxMap, t: Tally, id: TxId, tx: Tx, pos: DiskTxPos)
    requires Alike(v, t.view, id) && AssembleTx(v, tx).Some? && !tx.IsCoinBase() && !tx.IsCoinStake()
    requires Dead(db, tx.hash) && tx.hash != id && pos != NullPos && pos.tx == tx
             && forall o :: o in tx.vin ==> o.hash != id
    ensures ConnectTx(db, t, tx, pos).Some?
    ensures var u := ConnectTx(db, t, tx, pos).value;
      Alike(AssembleTx(v, tx).value, u.view, id) && u.fees == t.fees + FeeOf(v, tx)
  {
    AlikeSpend(v, t.view, id, tx.vin, PoolPos(tx), pos);
    AlikeValueIn(v, t.view, id, tx.vin);
    AlikeRules(v, t.view, id, tx);
    assert AlikeEntry(NewEntry(PoolPos(tx), tx), NewEntry(pos, tx));
  }

  ghost predicate Spender(tx: Tx) { !tx.IsCoinBase() && !tx.IsCoinStake() }

  lemma CoinBaseConnects(db: TxMap, h: Hash, coinBase: Tx)
    requires Dead(db, coinBase.hash) && coinBase.IsCoinBase()
    ensures var c := ConnectTxs(db, h, [coinBase]);
      c.Some? && Alike(db, c.value.view, coinBase.hash) && c.value.fees == 0
  {
    var all := [coinBase];
    assert Front(all) == [] && Last(all) == coinBase;
    assert ConnectTxs(db, h, Front(all)) == Some(Tally(db, 0, 0, 0, 0));
    forall hash | hash in db ensures AlikeEntry(db[hash], db[hash]) {}
  }

  lemma ConnectNext(db: TxMap, h: Hash, all: seq<Tx>, tx: Tx)
    requires ConnectTxs(db, h, all).Some?
    ensures ConnectTxs(db, h, all + [tx]) == ConnectTx(db, ConnectTxs(db, h, all).value, tx, BlockPos(h, |all|, tx))
  {
    assert Front(all + [tx]) == all;
  }

  lemma ConnectsStep(db: TxMap, h: Hash, all: seq<Tx>, id: TxId, front: seq<Tx>, tx: Tx)
    requires ConnectTxs(db, h, all).Some? && Assembled(db, front).Some? && Assembled(db, front + [tx]).Some?
    requires var t := ConnectTxs(db, h, all).value;
      Alike(Assembled(db, front).value, t.view, id) && t.fees == TotalFees(db, front)
    requires Spender(tx) && Dead(db, tx.hash) && tx.hash != id && forall o :: o in tx.vin ==> o.hash != id
    ensures ConnectTxs(db, h, all + [tx]).Some?
    ensures var t := ConnectTxs(db, h, all + [tx]).value;
      Alike(Assembled(db, front + [tx]).value, t.view, id) && t.fees == TotalFees(db, front + [tx])
  {
    ConnectNext(db, h, all, tx);
    AssembledNext(db, front, tx);
    AlikeTx(db, Assembled(db, front).value, ConnectTxs(db, h, all).value, id, tx, BlockPos(h, |all|, tx));
  }

  lemma {:induction false} AssembledConnects(db: TxMap, h: Hash, coinBase: Tx, txs: seq<Tx>)
    requires Assembled(db, txs).Some? && Dead(db, coinBase.hash) && coinBase.IsCoinBase()
    requires forall i :: 0 <= i < |txs| ==> Spender(txs[i]) && Dead(db, txs[i].hash) && txs[i].hash != coinBase.hash
    ensures ConnectTxs(db, h, [coinBase] + txs).Some?
    ensures var t := ConnectTxs(db, h, [coinBase] + txs).value;
      Alike(Assembled(db, txs).value, t.view, coinBase.hash) && t.fees == TotalFees(db, txs)
  {
    if txs == [] {
      assert [coinBase] + txs == [coinBase];
      CoinBaseConnects(db, h, coinBase);
    } else {
      var front, tx := Front(txs), Last(txs);
      assert txs == front + [tx] && [coinBase] + txs == ([coinBase] + front) + [tx];
      AssembledConnects(db, h, coinBase, front);
      DeadUntouched(db, txs, coinBase.hash);
      assert txs[|front|] == tx;
      ConnectsStep(db, h, [coinBase] + front, coinBase.hash, front, tx);
    }
  }

  /** A block of a coinbase and a list chosen for it passes the checks on its transactions and connects, and the
      fees counted on connecting are the ones added up while choosing. */
  lemma ChosenBlockConnects(db: TxMap, r: Rules, l: Limits, h: Hash, coinBase: Tx, txs: seq<Tx>,
                            view: TxMap, size: nat, sigOps: nat, fees: int)
    requires Chosen(db, r, l, txs, view, size, sigOps, fees)
    requires UniqueIds([coinBase] + txs) && AllDead(db, [coinBase] + txs)
    requires coinBase.IsCoinBase() && forall i :: 0 <= i <= |txs| ==> OutputsInRange(([coinBase] + txs)[i])
    ensures Connect(db, h, [coinBase] + txs).Some? && Connect(db, h, [coinBase] + txs).value.fees == fees
  {
    var all := [coinBase] + txs;
    assert all[0] == coinBase;
    forall i | 0 <= i < |txs| ensures Spender(txs[i]) && Dead(db, txs[i].hash) && txs[i].hash != coinBase.hash {
      assert all[i + 1] == txs[i];
      assert Allowed(r, txs[i]) && Dead(db, all[i + 1].hash);
    }
    assert forall i :: 1 <= i < |all| ==> all[i] == txs[i - 1];
    AssembledConnects(db, h, coinBase, txs);
  }
}
