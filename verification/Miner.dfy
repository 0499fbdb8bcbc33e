/** Choosing pool transactions for a new block: a priority queue of the transactions whose parents are in the
    block or the chain, and a list of those still waiting for parents.

    Priorities are exact reals.  The heap is a list from which a greatest element is taken. */
module Miner {
  import opened Basics
  import opened Ledger
  import opened TxDatabase
  import opened BlockAssembly
  import opened Ascend

  type Pool = map<TxId, Tx>

  datatype Candidate = Candidate(priority: real, feePerKb: real, tx: Tx)

  /** A transaction waiting for the parents in dependsOn. */
  datatype Orphan = Orphan(tx: Tx, dependsOn: set<TxId>, priority: real, feePerKb: real)

  /** The order of the queue: by fee first or by priority first. */
  predicate Less(byFee: bool, a: Candidate, b: Candidate) {
    if byFee then
      if a.feePerKb == b.feePerKb then a.priority < b.priority else a.feePerKb < b.feePerKb
    else
      if a.priority == b.priority then a.feePerKb < b.feePerKb else a.priority < b.priority
  }

  // ---------- what a candidate is worth ----------

  /** The value of an input in the chain times its depth. */
  function Aged(db: TxMap, r: Rules, o: OutPoint): real {
    if Readable(db, o) then (db[o.hash].pos.tx.vout[o.n].value as real) * (r.depth(o.hash) as real) else 0.0
  }

  function CoinAge(db: TxMap, r: Rules, vin: seq<OutPoint>): real {
    if vin == [] then 0.0 else CoinAge(db, r, Front(vin)) + Aged(db, r, Last(vin))
  }

  predicate InPool(pool: Pool, o: OutPoint) { o.hash in pool && o.n < |pool[o.hash].vout| }

  function Worth(db: TxMap, pool: Pool, o: OutPoint): int {
    if Readable(db, o) then db[o.hash].pos.tx.vout[o.n].value
    else if InPool(pool, o) then pool[o.hash].vout[o.n].value else 0
  }

  function TotalIn(db: TxMap, pool: Pool, vin: seq<OutPoint>): int {
    if vin == [] then 0 else TotalIn(db, pool, Front(vin)) + Worth(db, pool, Last(vin))
  }

  function Priority(db: TxMap, r: Rules, tx: Tx): real { CoinAge(db, r, tx.vin) / (r.size(tx) as real) }

  function FeePerKb(db: TxMap, pool: Pool, r: Rules, tx: Tx): real {
    ((TotalIn(db, pool, tx.vin) - ValueOut(tx)) as real) / ((r.size(tx) as real) / 1000.0)
  }

  /** Pool transactions are filed under their ids, and the ones that can be mined spend outputs of transactions
      in the chain or in the pool. */
  ghost predicate GoodPool(db: TxMap, r: Rules, pool: Pool) {
    && (forall id :: id in pool ==> pool[id].hash == id)
    && (forall id :: id in pool && Eligible(r, pool[id]) ==>
          forall o :: o in pool[id].vin ==> Readable(db, o) || InPool(pool, o))
  }

  /** No pool transaction that can be mined has the id of one in the chain with unspent outputs. */
  ghost predicate PoolIsNew(db: TxMap, r: Rules, pool: Pool) {
    forall id :: id in pool && Eligible(r, pool[id]) ==> Dead(db, id)
  }

  ghost predicate Minable(r: Rules, pool: Pool, tx: Tx) { tx.hash in pool && pool[tx.hash] == tx && Eligible(r, tx) }

  // ---------- the queue ----------

  ghost predicate Valued(db: TxMap, r: Rules, pool: Pool, c: Candidate) {
    c.priority == Priority(db, r, c.tx) && c.feePerKb == FeePerKb(db, pool, r, c.tx)
  }

  ghost predicate Ready(db: TxMap, r: Rules, pool: Pool, included: set<TxId>, tx: Tx) {
    Minable(r, pool, tx) && Parents(db, tx.vin) <= included
  }

  function QueueIds(q: seq<Candidate>): set<TxId> { set c | c in q :: c.tx.hash }

  /** The queue holds different transactions whose parents are included. */
  ghost predicate QueueOk(db: TxMap, r: Rules, pool: Pool, included: set<TxId>, q: seq<Candidate>) {
    && (forall i :: 0 <= i < |q| ==> Ready(db, r, pool, included, q[i].tx) && Valued(db, r, pool, q[i]))
    && (forall i, j :: 0 <= i < j < |q| ==> q[i].tx.hash != q[j].tx.hash)
  }

  // ---------- the waiting transactions ----------

  ghost predicate OrphanOk(db: TxMap, r: Rules, pool: Pool, included: set<TxId>, o: Orphan) {
    && Minable(r, pool, o.tx) && o.dependsOn == Parents(db, o.tx.vin) - included
    && Valued(db, r, pool, Candidate(o.priority, o.feePerKb, o.tx))
  }

  type Dependers = map<TxId, seq<nat>>

  predicate Listed(dependers: Dependers, h: TxId, k: nat) { h in dependers && k in dependers[h] }

  /** mapDependers lists a waiting transaction under exactly its parents. */
  ghost predicate Linked(db: TxMap, orphans: seq<Orphan>, dependers: Dependers) {
    && (forall h: TxId, k: nat :: Listed(dependers, h, k) ==> k < |orphans|)
    && (forall k: nat, h: TxId :: k < |orphans| ==> (Listed(dependers, h, k) <==> h in Parents(db, orphans[k].tx.vin)))
  }

  ghost predicate DifferentOrphans(orphans: seq<Orphan>) {
    forall i, j :: 0 <= i < j < |orphans| ==> orphans[i].tx.hash != orphans[j].tx.hash
  }

  function WaitingIds(orphans: seq<Orphan>): set<TxId> { set o | o in orphans && o.dependsOn != {} :: o.tx.hash }

  /** Every id of the universe was taken, is in the queue or waits: exactly one of the three. */
  ghost predicate Partition(universe: set<TxId>, orphans: seq<Orphan>, q: seq<Candidate>, taken: set<TxId>) {
    && taken * QueueIds(q) == {} && taken * WaitingIds(orphans) == {} && QueueIds(q) * WaitingIds(orphans) == {}
    && taken + QueueIds(q) + WaitingIds(orphans) == universe
  }

  function MinableOf(r: Rules, pool: Pool, ids: set<TxId>): set<TxId> {
    set id | id in ids && id in pool && Eligible(r, pool[id])
  }

  function MinableIds(r: Rules, pool: Pool): set<TxId> { MinableOf(r, pool, pool.Keys) }

  ghost predicate WaitingOk(db: TxMap, r: Rules, pool: Pool, included: set<TxId>, orphans: seq<Orphan>) {
    forall k :: 0 <= k < |orphans| ==> OrphanOk(db, r, pool, included, orphans[k])
  }

  // ---------- collecting the candidates ----------

  /** dependers lists k under the parents in dependsOn, besides what links lists. */
  ghost predicate LinksAdded(links: Dependers, dependers: Dependers, dependsOn: set<TxId>, k: nat) {
    && (forall h: TxId, j: nat :: Listed(dependers, h, j) <==> Listed(links, h, j) || (j == k && h in dependsOn))
    && (dependsOn == {} ==> dependers == links)
  }

  lemma LinkOne(links: Dependers, m: Dependers, dependsOn: set<TxId>, k: nat, hash: TxId)
    requires LinksAdded(links, m, dependsOn, k)
    ensures LinksAdded(links, m[hash := (if hash in m then m[hash] else []) + [k]], dependsOn + {hash}, k)
  {
    var dependers := m[hash := (if hash in m then m[hash] else []) + [k]];
    forall h: TxId, j: nat
      ensures Listed(dependers, h, j) <==> Listed(links, h, j) || (j == k && h in dependsOn + {hash})
    {
      assert Listed(m, h, j) <==> Listed(links, h, j) || (j == k && h in dependsOn);
    }
  }

  /** Scans the inputs of a transaction that would be number k of the waiting ones. */
  method ScanInputs(txdb: TxDb, r: Rules, pool: Pool, tx: Tx, k: nat, links: Dependers)
    returns (dependsOn: set<TxId>, dependers: Dependers, nTotalIn: int, dPriority: real)
    requires forall o :: o in tx.vin ==> Readable(txdb.View(), o) || InPool(pool, o)
    ensures dependsOn == Parents(txdb.View(), tx.vin) && LinksAdded(links, dependers, dependsOn, k)
    ensures nTotalIn == TotalIn(txdb.View(), pool, tx.vin) && dPriority == CoinAge(txdb.View(), r, tx.vin)
  {
    ghost var db := txdb.View();
    dependsOn, dependers, nTotalIn, dPriority := {}, links, 0, 0.0;
    for i := 0 to |tx.vin|
      invariant dependsOn == Parents(db, tx.vin[..i]) && LinksAdded(links, dependers, dependsOn, k)
      invariant nTotalIn == TotalIn(db, pool, tx.vin[..i]) && dPriority == CoinAge(db, r, tx.vin[..i])
    {
      var prevout := tx.vin[i];
      assert prevout in tx.vin;
      assert tx.vin[..i + 1] == tx.vin[..i] + [prevout] && Front(tx.vin[..i + 1]) == tx.vin[..i];
      ParentsOfNext(db, tx.vin[..i], prevout);
      var read, nValueIn, dAged := ReadPrev(txdb, r, pool, prevout);
      if !read {
        LinkOne(links, dependers, dependsOn, k, prevout.hash);
        var waiting := if prevout.hash in dependers then dependers[prevout.hash] else [];
        dependers := dependers[prevout.hash := waiting + [k]];
        dependsOn := dependsOn + {prevout.hash};
      }
      nTotalIn := nTotalIn + nValueIn;
      dPriority := dPriority + dAged;
    }
    assert tx.vin[..|tx.vin|] == tx.vin;
  }

  /** Looks an input up in the chain, or else in the pool. */
  method ReadPrev(txdb: TxDb, r: Rules, pool: Pool, prevout: OutPoint) returns (read: bool, nValueIn: int, dAged: real)
    requires Readable(txdb.View(), prevout) || InPool(pool, prevout)
    ensures read <==> Readable(txdb.View(), prevout)
    ensures nValueIn == Worth(txdb.View(), pool, prevout) && dAged == Aged(txdb.View(), r, prevout)
  {
    var txindex := txdb.ReadTxIndex(prevout.hash);
    if txindex.None? || txindex.value.pos == NullPos || prevout.n >= |txindex.value.pos.tx.vout| {
      return false, pool[prevout.hash].vout[prevout.n].value, 0.0;
    }
    nValueIn := txindex.value.pos.tx.vout[prevout.n].value;
    return true, nValueIn, (nValueIn as real) * (r.depth(prevout.hash) as real);
  }

  lemma ParentsOfNext(db: TxMap, vin: seq<OutPoint>, o: OutPoint)
    ensures Parents(db, vin + [o]) == Parents(db, vin) + if Readable(db, o) then {} else {o.hash}
  {
    var all := vin + [o];
    forall h | h in Parents(db, vin) + (if Readable(db, o) then {} else {o.hash}) ensures h in Parents(db, all) {
      if h in Parents(db, vin) {
        var x :| x in vin && !Readable(db, x) && x.hash == h;
        assert x in all;
      } else {
        assert o in all;
      }
    }
  }

  method Greatest(s: seq<Candidate>, byFee: bool) returns (best: nat)
    requires s != []
    ensures best < |s| && forall i :: 0 <= i < |s| ==> !Less(byFee, s[best], s[i])
  {
    best := 0;
    for i := 1 to |s|
      invariant best < i <= |s| && forall j :: 0 <= j < i ==> !Less(byFee, s[best], s[j])
    {
      if Less(byFee, s[best], s[i]) { best := i; }
    }
  }
  /** The state of the selection: included are the ids in the block, taken the ones considered so far. */
  ghost predicate Scheduled(db: TxMap, r: Rules, pool: Pool, included: set<TxId>, taken: set<TxId>,
                            q: seq<Candidate>, orphans: seq<Orphan>, dependers: Dependers) {
    && QueueOk(db, r, pool, included, q) && WaitingOk(db, r, pool, included, orphans)
    && Linked(db, orphans, dependers) && DifferentOrphans(orphans)
    && Partition(MinableIds(r, pool), orphans, q, taken) && included <= taken
  }

  lemma QueueIdsOfNext(q: seq<Candidate>, c: Candidate)
    ensures QueueIds(q + [c]) == QueueIds(q) + {c.tx.hash}
  {
    assert forall x :: x in q + [c] <==> x in q || x == c;
  }

  lemma WaitingIdsOfNext(orphans: seq<Orphan>, o: Orphan)
    ensures WaitingIds(orphans + [o]) == WaitingIds(orphans) + if o.dependsOn != {} then {o.tx.hash} else {}
  {
    assert forall x :: x in orphans + [o] <==> x in orphans || x == o;
  }

  /** Only some ids of the pool have been looked at. */
  ghost predicate Gathering(db: TxMap, r: Rules, pool: Pool, universe: set<TxId>,
                            q: seq<Candidate>, orphans: seq<Orphan>, dependers: Dependers) {
    && QueueOk(db, r, pool, {}, q) && WaitingOk(db, r, pool, {}, orphans)
    && Linked(db, orphans, dependers) && DifferentOrphans(orphans)
    && Partition(universe, orphans, q, {})
  }

  /** Sorts a transaction into the queue or, if it needs others first, into the waiting list. */
  method Consider(txdb: TxDb, r: Rules, pool: Pool, tx: Tx, q: seq<Candidate>, orphans: seq<Orphan>, links: Dependers,
                  ghost universe: set<TxId>)
    returns (q': seq<Candidate>, orphans': seq<Orphan>, dependers: Dependers)
    requires GoodPool(txdb.View(), r, pool) && Minable(r, pool, tx) && tx.hash !in universe
    requires Gathering(txdb.View(), r, pool, universe, q, orphans, links)
    ensures Gathering(txdb.View(), r, pool, universe + {tx.hash}, q', orphans', dependers)
  {
    var dependsOn, nTotalIn, dPriority;
    dependsOn, dependers, nTotalIn, dPriority := ScanInputs(txdb, r, pool, tx, |orphans|, links);
    dPriority := dPriority / (r.size(tx) as real);
    var dFeePerKb := ((nTotalIn - ValueOut(tx)) as real) / ((r.size(tx) as real) / 1000.0);
    q', orphans' := q, orphans;
    if dependsOn != {} {
      var o := Orphan(tx, dependsOn, dPriority, dFeePerKb);
      GatherOrphan(txdb.View(), r, pool, universe, q, orphans, links, dependers, o);
      orphans' := orphans + [o];
    } else {
      var c := Candidate(dPriority, dFeePerKb, tx);
      GatherCandidate(txdb.View(), r, pool, universe, q, orphans, dependers, c);
      q' := q + [c];
    }
  }

  lemma GatherCandidate(db: TxMap, r: Rules, pool: Pool, universe: set<TxId>,
                        q: seq<Candidate>, orphans: seq<Orphan>, dependers: Dependers, c: Candidate)
    requires Gathering(db, r, pool, universe, q, orphans, dependers) && c.tx.hash !in universe
    requires Ready(db, r, pool, {}, c.tx) && Valued(db, r, pool, c)
    ensures Gathering(db, r, pool, universe + {c.tx.hash}, q + [c], orphans, dependers)
  {
    QueueIdsOfNext(q, c);
    NewCandidate(db, r, pool, {}, q, c);
  }

  lemma GatherOrphan(db: TxMap, r: Rules, pool: Pool, universe: set<TxId>, q: seq<Candidate>, orphans: seq<Orphan>,
                     links: Dependers, dependers: Dependers, o: Orphan)
    requires Gathering(db, r, pool, universe, q, orphans, links) && o.tx.hash !in universe
    requires OrphanOk(db, r, pool, {}, o) && o.dependsOn != {} && LinksAdded(links, dependers, o.dependsOn, |orphans|)
    ensures Gathering(db, r, pool, universe + {o.tx.hash}, q, orphans + [o], dependers)
  {
    WaitingIdsOfNext(orphans, o);
    forall k | 0 <= k < |orphans| ensures orphans[k].tx.hash != o.tx.hash {
      assert OrphanOk(db, r, pool, {}, orphans[k]) && orphans[k] in orphans;
    }
    NewOrphan(db, r, pool, orphans, links, dependers, o);
  }

  lemma NewCandidate(db: TxMap, r: Rules, pool: Pool, included: set<TxId>, q: seq<Candidate>, c: Candidate)
    requires QueueOk(db, r, pool, included, q) && Ready(db, r, pool, included, c.tx) && Valued(db, r, pool, c)
    requires c.tx.hash !in QueueIds(q)
    ensures QueueOk(db, r, pool, included, q + [c])
  {
    forall i | 0 <= i < |q| ensures q[i].tx.hash != c.tx.hash { assert q[i] in q; }
  }

  lemma NewOrphan(db: TxMap, r: Rules, pool: Pool, orphans: seq<Orphan>, links: Dependers,
                  dependers: Dependers, o: Orphan)
    requires WaitingOk(db, r, pool, {}, orphans) && Linked(db, orphans, links) && DifferentOrphans(orphans)
    requires OrphanOk(db, r, pool, {}, o) && o.dependsOn != {} && LinksAdded(links, dependers, o.dependsOn, |orphans|)
    requires forall k :: 0 <= k < |orphans| ==> orphans[k].tx.hash != o.tx.hash
    ensures WaitingOk(db, r, pool, {}, orphans + [o]) && Linked(db, orphans + [o], dependers)
            && DifferentOrphans(orphans + [o])
  {
    var all := orphans + [o];
    forall k: nat, h: TxId | k < |all| ensures Listed(dependers, h, k) <==> h in Parents(db, all[k].tx.vin) {
      assert Listed(dependers, h, k) <==> Listed(links, h, k) || (k == |orphans| && h in o.dependsOn);
    }
  }

  // ---------- releasing ----------

  /** While the list of transactions waiting for h is worked through, the first n of them have been told. */
  ghost predicate Told(db: TxMap, r: Rules, pool: Pool, included: set<TxId>, h: TxId, told: seq<nat>,
                       orphans: seq<Orphan>) {
    forall k: nat :: k < |orphans| ==> OrphanOk(db, r, pool, if k in told then included + {h} else included, orphans[k])
  }

  /** The same transactions, with possibly fewer dependencies. */
  ghost predicate SameOrphans(a: seq<Orphan>, b: seq<Orphan>) {
    |a| == |b| && forall k :: 0 <= k < |a| ==> a[k].tx == b[k].tx
  }

  ghost predicate Releasing(db: TxMap, r: Rules, pool: Pool, included: set<TxId>, taken: set<TxId>, h: TxId,
                            told: seq<nat>,
                            q: seq<Candidate>, orphans: seq<Orphan>) {
    && QueueOk(db, r, pool, included + {h}, q) && Told(db, r, pool, included, h, told, orphans)
    && DifferentOrphans(orphans) && Partition(MinableIds(r, pool), orphans, q, taken)
  }

  lemma WaitingIdsOfUpdate(orphans: seq<Orphan>, k: nat, o: Orphan)
    requires DifferentOrphans(orphans) && k < |orphans| && o.tx == orphans[k].tx
    ensures WaitingIds(orphans[k := o])
            == WaitingIds(orphans) - {o.tx.hash} + if o.dependsOn != {} then {o.tx.hash} else {}
  {
    var all := orphans[k := o];
    assert forall i :: 0 <= i < |all| && i != k ==> all[i] == orphans[i] && orphans[i].tx.hash != o.tx.hash;
    forall id | id in WaitingIds(orphans) - {o.tx.hash} ensures id in WaitingIds(all) {
      var x :| x in orphans && x.dependsOn != {} && x.tx.hash == id;
      var i :| 0 <= i < |orphans| && orphans[i] == x;
      assert all[i] == x;
    }
    forall x | x in all && x.tx.hash == o.tx.hash ensures x == o {
      var i :| 0 <= i < |all| && all[i] == x;
    }
    assert all[k] == o;
    forall id | id in WaitingIds(all) && id != o.tx.hash ensures id in WaitingIds(orphans) {
      var x :| x in all && x.dependsOn != {} && x.tx.hash == id;
      var i :| 0 <= i < |all| && all[i] == x;
      assert orphans[i] == x;
    }
  }

  /** One waiting transaction hears that h is included; with its last parent it moves to the queue.  Hearing it
      again changes nothing, since then it no longer waits. */
  method Tell(ghost db: TxMap, ghost r: Rules, ghost pool: Pool, ghost included: set<TxId>, ghost taken: set<TxId>,
              h: TxId, ghost told: seq<nat>, k: nat, q: seq<Candidate>, orphans: seq<Orphan>)
    returns (q': seq<Candidate>, orphans': seq<Orphan>)
    requires Releasing(db, r, pool, included, taken, h, told, q, orphans) && k < |orphans|
    ensures Releasing(db, r, pool, included, taken, h, told + [k], q', orphans') && SameOrphans(orphans, orphans')
  {
    q', orphans' := q, orphans;
    var porphan := orphans[k];
    TellOne(db, r, pool, included, taken, h, told, k, q, orphans);
    if porphan.dependsOn != {} {
      var o := porphan.(dependsOn := porphan.dependsOn - {h});
      orphans' := orphans[k := o];
      if o.dependsOn == {} { q' := q + [Candidate(o.priority, o.feePerKb, o.tx)]; }
    }
  }

  function Informed(o: Orphan, h: TxId): Orphan { o.(dependsOn := o.dependsOn - {h}) }

  lemma TellOne(db: TxMap, r: Rules, pool: Pool, included: set<TxId>, taken: set<TxId>, h: TxId, told: seq<nat>, k: nat,
                q: seq<Candidate>, orphans: seq<Orphan>)
    requires Releasing(db, r, pool, included, taken, h, told, q, orphans) && k < |orphans|
    ensures var o, o' := orphans[k], Informed(orphans[k], h);
      if o.dependsOn == {} then Releasing(db, r, pool, included, taken, h, told + [k], q, orphans)
      else Releasing(db, r, pool, included, taken, h, told + [k],
                     if o'.dependsOn == {} then q + [Candidate(o.priority, o.feePerKb, o.tx)] else q, orphans[k := o'])
  {
    var o := orphans[k];
    assert OrphanOk(db, r, pool, if k in told then included + {h} else included, o);
    ToldNext(db, r, pool, included, h, told, k, orphans, orphans[k := Informed(o, h)]);
    if o.dependsOn == {} {
      assert Informed(o, h) == o && orphans[k := o] == orphans;
    } else if Informed(o, h).dependsOn == {} {
      var c := Candidate(o.priority, o.feePerKb, o.tx);
      PartitionMoves(MinableIds(r, pool), orphans, q, taken, k, Informed(o, h), c);
      NewCandidate(db, r, pool, included + {h}, q, c);
    } else {
      PartitionStays(MinableIds(r, pool), orphans, q, taken, k, Informed(o, h));
    }
  }

  lemma PartitionStays(universe: set<TxId>, orphans: seq<Orphan>, q: seq<Candidate>, taken: set<TxId>, k: nat,
                       o: Orphan)
    requires Partition(universe, orphans, q, taken) && DifferentOrphans(orphans) && k < |orphans|
    requires orphans[k].dependsOn != {} && o.tx == orphans[k].tx && o.dependsOn != {}
    ensures Partition(universe, orphans[k := o], q, taken)
  {
    WaitingIdsOfUpdate(orphans, k, o);
    assert orphans[k] in orphans;
  }

  lemma PartitionMoves(universe: set<TxId>, orphans: seq<Orphan>, q: seq<Candidate>, taken: set<TxId>, k: nat,
                       o: Orphan, c: Candidate)
    requires Partition(universe, orphans, q, taken) && DifferentOrphans(orphans) && k < |orphans|
    requires orphans[k].dependsOn != {} && o.tx == c.tx == orphans[k].tx && o.dependsOn == {}
    ensures Partition(universe, orphans[k := o], q + [c], taken) && c.tx.hash !in QueueIds(q)
  {
    WaitingIdsOfUpdate(orphans, k, o);
    QueueIdsOfNext(q, c);
    assert orphans[k] in orphans;
  }

  lemma ToldNext(db: TxMap, r: Rules, pool: Pool, included: set<TxId>, h: TxId, told: seq<nat>, k: nat,
                 orphans: seq<Orphan>, orphans': seq<Orphan>)
    requires Told(db, r, pool, included, h, told, orphans) && k < |orphans|
    requires var o := orphans[k].(dependsOn := orphans[k].dependsOn - {h}); orphans' == orphans[k := o]
    ensures Told(db, r, pool, included, h, told + [k], orphans')
  {
    forall j: nat | j < |orphans'|
      ensures OrphanOk(db, r, pool, if j in told + [k] then included + {h} else included, orphans'[j])
    {
      assert OrphanOk(db, r, pool, if j in told then included + {h} else included, orphans[j]);
    }
  }

  /** Tells every transaction waiting for h. */
  method Release(ghost db: TxMap, ghost r: Rules, ghost pool: Pool, ghost included: set<TxId>, ghost taken: set<TxId>,
                 h: TxId, q: seq<Candidate>, orphans: seq<Orphan>, dependers: Dependers)
    returns (q': seq<Candidate>, orphans': seq<Orphan>)
    requires Scheduled(db, r, pool, included, taken, q, orphans, dependers) && h in taken
    ensures Scheduled(db, r, pool, included + {h}, taken, q', orphans', dependers)
  {
    q', orphans' := q, orphans;
    var list := if h in dependers then dependers[h] else [];
    StartTelling(db, r, pool, included, taken, h, q, orphans, dependers);
    ListedInRange(db, orphans, dependers, h, list);
    q', orphans' := TellAll(db, r, pool, included, taken, h, list, q, orphans);
    AllTold(db, r, pool, included, taken, h, list, q', orphans, orphans', dependers);
  }

  method TellAll(ghost db: TxMap, ghost r: Rules, ghost pool: Pool, ghost included: set<TxId>, ghost taken: set<TxId>,
                 h: TxId, list: seq<nat>, q: seq<Candidate>, orphans: seq<Orphan>)
    returns (q': seq<Candidate>, orphans': seq<Orphan>)
    requires Releasing(db, r, pool, included, taken, h, [], q, orphans)
             && forall i :: 0 <= i < |list| ==> list[i] < |orphans|
    ensures Releasing(db, r, pool, included, taken, h, list, q', orphans') && SameOrphans(orphans, orphans')
  {
    q', orphans' := q, orphans;
    for i := 0 to |list|
      invariant Releasing(db, r, pool, included, taken, h, list[..i], q', orphans') && SameOrphans(orphans, orphans')
    {
      assert list[..i + 1] == list[..i] + [list[i]];
      q', orphans' := Tell(db, r, pool, included, taken, h, list[..i], list[i], q', orphans');
    }
    assert list[..|list|] == list;
  }

  lemma ListedInRange(db: TxMap, orphans: seq<Orphan>, dependers: Dependers, h: TxId, list: seq<nat>)
    requires Linked(db, orphans, dependers) && list == if h in dependers then dependers[h] else []
    ensures forall i :: 0 <= i < |list| ==> list[i] < |orphans|
  {
    forall i | 0 <= i < |list| ensures list[i] < |orphans| { assert Listed(dependers, h, list[i]); }
  }

  lemma StartTelling(db: TxMap, r: Rules, pool: Pool, included: set<TxId>, taken: set<TxId>, h: TxId,
                     q: seq<Candidate>, orphans: seq<Orphan>, dependers: Dependers)
    requires Scheduled(db, r, pool, included, taken, q, orphans, dependers)
    ensures Releasing(db, r, pool, included, taken, h, [], q, orphans)
  {
    forall i | 0 <= i < |q|
      ensures Ready(db, r, pool, included + {h}, q[i].tx)
    {
      assert Ready(db, r, pool, included, q[i].tx);
    }
  }

  lemma AllTold(db: TxMap, r: Rules, pool: Pool, included: set<TxId>, taken: set<TxId>, h: TxId, list: seq<nat>,
                q: seq<Candidate>, orphans: seq<Orphan>, orphans': seq<Orphan>, dependers: Dependers)
    requires Linked(db, orphans, dependers) && included <= taken && h in taken
    requires Releasing(db, r, pool, included, taken, h, list, q, orphans') && SameOrphans(orphans, orphans')
    requires list == if h in dependers then dependers[h] else []
    ensures Scheduled(db, r, pool, included + {h}, taken, q, orphans', dependers)
  {
    forall k: nat | k < |orphans'| ensures OrphanOk(db, r, pool, included + {h}, orphans'[k]) {
      assert OrphanOk(db, r, pool, if k in list then included + {h} else included, orphans'[k]);
      assert Listed(dependers, h, k) <==> h in Parents(db, orphans[k].tx.vin);
    }
    LinkedSame(db, orphans, orphans', dependers);
  }

  lemma LinkedSame(db: TxMap, orphans: seq<Orphan>, orphans': seq<Orphan>, dependers: Dependers)
    requires Linked(db, orphans, dependers) && SameOrphans(orphans, orphans')
    ensures Linked(db, orphans', dependers)
  {
    forall k: nat, h: TxId | k < |orphans'| ensures Listed(dependers, h, k) <==> h in Parents(db, orphans'[k].tx.vin) {
      assert Listed(dependers, h, k) <==> h in Parents(db, orphans[k].tx.vin);
    }
  }

  // ---------- filling the block ----------

  /** The block so far. */
  datatype Template = Template(vtx: seq<Tx>, testPool: TxMap, size: nat, sigOps: nat, fees: int)

  ghost predicate TemplateOk(db: TxMap, r: Rules, l: Limits, b: Template) {
    Chosen(db, r, l, b.vtx, db + b.testPool, b.size, b.sigOps, b.fees)
  }

  /** The same with the index as seen through the test pool, and the order of the queue. */
  datatype Filling = Filling(vtx: seq<Tx>, view: TxMap, size: nat, sigOps: nat, fees: int, byFee: bool)

  function FillingOf(db: TxMap, b: Template, byFee: bool): Filling {
    Filling(b.vtx, db + b.testPool, b.size, b.sigOps, b.fees, byFee)
  }

  /** The limits that do not need the inputs; free transactions only fill a block up to the minimum size. */
  predicate FitsLimits(r: Rules, l: Limits, f: Filling, c: Candidate) {
    && f.size + r.size(c.tx) < l.maxSize && f.sigOps + r.legacySigOps(c.tx) < MAX_BLOCK_SIGOPS && r.timely(c.tx)
    && (f.byFee && c.feePerKb < l.minTxFee as real ==> f.size + r.size(c.tx) < l.minSize)
  }

  /** Past the priority size, or out of candidates with a high priority. */
  predicate PastPriority(r: Rules, l: Limits, f: Filling, c: Candidate) {
    f.size + r.size(c.tx) >= l.prioritySize || c.priority < (COIN * 144 / 250) as real
  }

  /** The fee reaches the minimum, and the inputs can be spent. */
  predicate Connects(r: Rules, view: TxMap, size: nat, sigOps: nat, tx: Tx) {
    && FeeOf(view, tx) >= r.minFee(tx, size) && sigOps + SigOps(r, tx) < MAX_BLOCK_SIGOPS
    && r.verified(tx) && AssembleTx(view, tx).Some?
  }

  /** What considering a candidate does. */
  function Turn(r: Rules, l: Limits, f: Filling, c: Candidate): Filling {
    var byFee := f.byFee || (FitsLimits(r, l, f, c) && PastPriority(r, l, f, c));
    if FitsLimits(r, l, f, c) && Connects(r, f.view, f.size, f.sigOps, c.tx) then
      Filling(f.vtx + [c.tx], AssembleTx(f.view, c.tx).value, f.size + r.size(c.tx), f.sigOps + SigOps(r, c.tx),
              f.fees + FeeOf(f.view, c.tx), byFee)
    else f.(byFee := byFee)
  }

  method WithinLimits(r: Rules, l: Limits, ghost f: Filling, b: Template, c: Candidate, sortedByFee: bool)
    returns (ok: bool, fSortedByFee: bool)
    requires f.size == b.size && f.sigOps == b.sigOps && f.byFee == sortedByFee
    ensures ok <==> FitsLimits(r, l, f, c)
    ensures fSortedByFee <==> sortedByFee || (ok && PastPriority(r, l, f, c))
  {
    ok, fSortedByFee := false, sortedByFee;
    var nTxSize := r.size(c.tx);
    if b.size + nTxSize >= l.maxSize { return; }
    if b.sigOps + r.legacySigOps(c.tx) >= MAX_BLOCK_SIGOPS { return; }
    if !r.timely(c.tx) { return; }
    if fSortedByFee && c.feePerKb < l.minTxFee as real && b.size + nTxSize >= l.minSize { return; }
    if !fSortedByFee && (b.size + nTxSize >= l.prioritySize || c.priority < (COIN * 144 / 250) as real) {
      fSortedByFee := true;
    }
    ok := true;
  }

  /** Fetches and connects the inputs in the test pool, if the fee and the signature operations allow it. */
  method TryConnect(txdb: TxDb, r: Rules, b: Template, tx: Tx)
    returns (ok: bool, mapTestPool: TxMap, nTxSigOps: nat, nTxFees: int)
    requires !tx.IsCoinBase()
    ensures ok <==> Connects(r, txdb.View() + b.testPool, b.size, b.sigOps, tx)
    ensures var v := txdb.View() + b.testPool;
      ok ==> && AssembleTx(v, tx) == Some(txdb.View() + mapTestPool)
             && nTxSigOps == SigOps(r, tx) && nTxFees == FeeOf(v, tx)
  {
    ok, mapTestPool, nTxSigOps, nTxFees := false, b.testPool, 0, 0;
    var nMinFee := r.minFee(tx, b.size);
    var fetched, mapInputs := FetchInputs(txdb, tx, b.testPool);
    if !fetched {
      UnresolvedFails(txdb.View() + b.testPool, tx);
      return;
    }
    var nValueIn := GetValueIn(txdb.View() + b.testPool, tx, mapInputs);
    nTxFees := nValueIn - ValueOut(tx);
    if nTxFees < nMinFee { return; }
    nTxSigOps := r.legacySigOps(tx) + r.p2shSigOps(tx);
    if b.sigOps + nTxSigOps >= MAX_BLOCK_SIGOPS { return; }
    if !r.verified(tx) { return; }
    var connected, q := ConnectInputs(txdb.View(), tx, mapInputs, b.testPool, PoolPos(tx));
    if !connected { return; }
    ghost var spent := txdb.View() + q;
    ok, mapTestPool := true, q[tx.hash := NewEntry(PoolPos(tx), tx)];
    assert txdb.View() + mapTestPool == spent[tx.hash := NewEntry(PoolPos(tx), tx)];
  }

  /** A transaction with an input that refers to no output cannot be connected. */
  lemma UnresolvedFails(v: TxMap, tx: Tx)
    requires !(forall o :: o in tx.vin ==> Resolves(v, o))
    ensures AssembleTx(v, tx).None?
  {
    if AssembleTx(v, tx).Some? {
      SpendMarks(v, tx.vin, PoolPos(tx));
    }
  }

  /** Includes a candidate if sizes, fee and inputs allow it. */
  method TryInclude(txdb: TxDb, r: Rules, l: Limits, b: Template, c: Candidate, sortedByFee: bool)
    returns (included: bool, b': Template, fSortedByFee: bool)
    requires TemplateOk(txdb.View(), r, l, b) && Eligible(r, c.tx)
    requires c.tx.hash !in Ids(b.vtx) && Parents(txdb.View(), c.tx.vin) <= Ids(b.vtx)
    ensures TemplateOk(txdb.View(), r, l, b')
    ensures FillingOf(txdb.View(), b', fSortedByFee) == Turn(r, l, FillingOf(txdb.View(), b, sortedByFee), c)
    ensures Ids(b'.vtx) == Ids(b.vtx) + if included then {c.tx.hash} else {}
  {
    b' := b;
    ghost var db, f := txdb.View(), FillingOf(txdb.View(), b, sortedByFee);
    included, fSortedByFee := WithinLimits(r, l, f, b, c, sortedByFee);
    ghost var fits := included;
    if included {
      var mapTestPool, nTxSigOps, nTxFees;
      included, mapTestPool, nTxSigOps, nTxFees := TryConnect(txdb, r, b, c.tx);
      if included {
        b' := Template(b.vtx + [c.tx], mapTestPool, b.size + r.size(c.tx), b.sigOps + nTxSigOps, b.fees + nTxFees);
      }
    }
    TurnIs(db, r, l, f, b, c, fits, included, b', fSortedByFee);
    TurnKeeps(db, r, l, f, b, c, fits, included, b');
  }

  /** The ways through TryInclude. */
  ghost predicate Went(db: TxMap, r: Rules, l: Limits, f: Filling, b: Template, c: Candidate, fits: bool,
                       included: bool, b': Template) {
    && (fits <==> FitsLimits(r, l, f, c)) && (included <==> fits && Connects(r, f.view, f.size, f.sigOps, c.tx))
    && if included then
         AssembleTx(f.view, c.tx) == Some(db + b'.testPool)
         && b' == Template(b.vtx + [c.tx], b'.testPool, b.size + r.size(c.tx), b.sigOps + SigOps(r, c.tx),
                           b.fees + FeeOf(f.view, c.tx))
       else b' == b
  }

  lemma TurnIs(db: TxMap, r: Rules, l: Limits, f: Filling, b: Template, c: Candidate, fits: bool, included: bool,
               b': Template, fSortedByFee: bool)
    requires f == FillingOf(db, b, f.byFee) && Went(db, r, l, f, b, c, fits, included, b')
    requires fSortedByFee <==> f.byFee || (fits && PastPriority(r, l, f, c))
    ensures FillingOf(db, b', fSortedByFee) == Turn(r, l, f, c)
  {
  }

  lemma TurnKeeps(db: TxMap, r: Rules, l: Limits, f: Filling, b: Template, c: Candidate, fits: bool, included: bool,
                  b': Template)
    requires f == FillingOf(db, b, f.byFee) && Went(db, r, l, f, b, c, fits, included, b')
    requires TemplateOk(db, r, l, b) && Eligible(r, c.tx)
    requires c.tx.hash !in Ids(b.vtx) && Parents(db, c.tx.vin) <= Ids(b.vtx)
    ensures TemplateOk(db, r, l, b') && Ids(b'.vtx) == Ids(b.vtx) + if included then {c.tx.hash} else {}
  {
    if included { IncludedIs(db, r, l, b, f.view, c.tx, b'); }
  }

  lemma IncludedIs(db: TxMap, r: Rules, l: Limits, b: Template, view: TxMap, tx: Tx, b': Template)
    requires Chosen(db, r, l, b.vtx, view, b.size, b.sigOps, b.fees) && Allowed(r, tx)
    requires tx.hash !in Ids(b.vtx) && Parents(db, tx.vin) <= Ids(b.vtx)
             && AssembleTx(view, tx) == Some(db + b'.testPool)
    requires b.size + r.size(tx) < l.maxSize && b.sigOps + SigOps(r, tx) < MAX_BLOCK_SIGOPS
    requires FeeOf(view, tx) >= r.minFee(tx, b.size)
    requires b' == Template(b.vtx + [tx], b'.testPool, b.size + r.size(tx), b.sigOps + SigOps(r, tx),
                            b.fees + FeeOf(view, tx))
    ensures TemplateOk(db, r, l, b') && Ids(b'.vtx) == Ids(b.vtx) + {tx.hash}
  {
    ChosenNext(db, r, l, b.vtx, view, b.size, b.sigOps, b.fees, tx);
  }

  // ---------- the greedy order ----------

  function CandidateOf(db: TxMap, r: Rules, pool: Pool, tx: Tx): Candidate {
    Candidate(Priority(db, r, tx), FeePerKb(db, pool, r, tx), tx)
  }

  /** The block after considering some transactions, one after the other. */
  function Filled(db: TxMap, r: Rules, l: Limits, pool: Pool, picks: seq<Tx>): Filling {
    if picks == [] then Filling([], db, INITIAL_SIZE, INITIAL_SIGOPS, 0, l.prioritySize <= 0)
    else Turn(r, l, Filled(db, r, l, pool, Front(picks)), CandidateOf(db, r, pool, Last(picks)))
  }

  /** A transaction not considered so far, whose parents are in the block. */
  ghost predicate Available(db: TxMap, r: Rules, pool: Pool, included: set<TxId>, taken: set<TxId>, tx: Tx) {
    Ready(db, r, pool, included, tx) && tx.hash !in taken
  }

  ghost predicate BestChoice(db: TxMap, r: Rules, pool: Pool, f: Filling, taken: set<TxId>, tx: Tx) {
    && Available(db, r, pool, Ids(f.vtx), taken, tx)
    && forall x :: Available(db, r, pool, Ids(f.vtx), taken, x) ==>
         !Less(f.byFee, CandidateOf(db, r, pool, tx), CandidateOf(db, r, pool, x))
  }

  /** Each transaction considered is a best one of those available then. */
  ghost predicate Greedy(db: TxMap, r: Rules, l: Limits, pool: Pool, picks: seq<Tx>) {
    picks != [] ==>
      && Greedy(db, r, l, pool, Front(picks))
      && BestChoice(db, r, pool, Filled(db, r, l, pool, Front(picks)), Ids(Front(picks)), Last(picks))
  }

  /** The queue has considered picks and holds f and the template b. */
  ghost predicate Progress(db: TxMap, r: Rules, l: Limits, pool: Pool, picks: seq<Tx>, b: Template, byFee: bool) {
    Greedy(db, r, l, pool, picks) && FillingOf(db, b, byFee) == Filled(db, r, l, pool, picks)
  }

  /** The block is what considering best choices gives, until nothing is available. */
  ghost predicate GreedyBlock(db: TxMap, r: Rules, l: Limits, pool: Pool, b: Template) {
    exists picks, byFee :: Progress(db, r, l, pool, picks, b, byFee)
      && forall tx :: !Available(db, r, pool, Ids(b.vtx), Ids(picks), tx)
  }

  /** The queue holds exactly what is available. */
  lemma QueueHoldsAvailable(db: TxMap, r: Rules, pool: Pool, included: set<TxId>, taken: set<TxId>,
                            q: seq<Candidate>, orphans: seq<Orphan>, dependers: Dependers, tx: Tx)
    requires Scheduled(db, r, pool, included, taken, q, orphans, dependers)
    ensures Available(db, r, pool, included, taken, tx) <==> CandidateOf(db, r, pool, tx) in q
  {
    var c := CandidateOf(db, r, pool, tx);
    if Available(db, r, pool, included, taken, tx) {
      assert tx.hash in MinableIds(r, pool);
      WaitsForParent(db, r, pool, included, orphans, tx);
      var x :| x in q && x.tx.hash == tx.hash;
      var i :| 0 <= i < |q| && q[i] == x;
      assert Ready(db, r, pool, included, q[i].tx) && Valued(db, r, pool, q[i]);
    }
    if c in q {
      var i :| 0 <= i < |q| && q[i] == c;
      assert Ready(db, r, pool, included, q[i].tx) && c.tx.hash in QueueIds(q);
      assert c.tx.hash !in taken * QueueIds(q);
    }
  }

  lemma WaitsForParent(db: TxMap, r: Rules, pool: Pool, included: set<TxId>, orphans: seq<Orphan>, tx: Tx)
    requires WaitingOk(db, r, pool, included, orphans) && Minable(r, pool, tx)
    ensures tx.hash in WaitingIds(orphans) ==> !(Parents(db, tx.vin) <= included)
  {
    if tx.hash in WaitingIds(orphans) {
      var o :| o in orphans && o.dependsOn != {} && o.tx.hash == tx.hash;
      var k :| 0 <= k < |orphans| && orphans[k] == o;
      assert OrphanOk(db, r, pool, included, orphans[k]);
    }
  }

  /** A greatest element of the queue is a best choice. */
  lemma GreatestIsBest(db: TxMap, r: Rules, pool: Pool, f: Filling, taken: set<TxId>,
                       q: seq<Candidate>, orphans: seq<Orphan>, dependers: Dependers, c: Candidate)
    requires Scheduled(db, r, pool, Ids(f.vtx), taken, q, orphans, dependers)
    requires c in q && forall x :: x in q ==> !Less(f.byFee, c, x)
    ensures c == CandidateOf(db, r, pool, c.tx) && BestChoice(db, r, pool, f, taken, c.tx)
  {
    var i :| 0 <= i < |q| && q[i] == c;
    assert Valued(db, r, pool, q[i]);
    QueueHoldsAvailable(db, r, pool, Ids(f.vtx), taken, q, orphans, dependers, c.tx);
    forall x | Available(db, r, pool, Ids(f.vtx), taken, x)
      ensures !Less(f.byFee, CandidateOf(db, r, pool, c.tx), CandidateOf(db, r, pool, x))
    {
      QueueHoldsAvailable(db, r, pool, Ids(f.vtx), taken, q, orphans, dependers, x);
    }
  }

  /** One more best choice. */
  lemma GreedyNext(db: TxMap, r: Rules, l: Limits, pool: Pool, picks: seq<Tx>, tx: Tx)
    requires Greedy(db, r, l, pool, picks) && BestChoice(db, r, pool, Filled(db, r, l, pool, picks), Ids(picks), tx)
    ensures Greedy(db, r, l, pool, picks + [tx]) && Ids(picks + [tx]) == Ids(picks) + {tx.hash}
    ensures Filled(db, r, l, pool, picks + [tx])
         == Turn(r, l, Filled(db, r, l, pool, picks), CandidateOf(db, r, pool, tx))
  {
    assert Front(picks + [tx]) == picks && Last(picks + [tx]) == tx;
    IdsSplit(picks + [tx]);
  }

  lemma WithoutOne(q: seq<Candidate>, i: nat)
    requires i < |q| && forall j, k :: 0 <= j < k < |q| ==> q[j].tx.hash != q[k].tx.hash
    ensures QueueIds(q[..i] + q[i + 1..]) == QueueIds(q) - {q[i].tx.hash} && q[i].tx.hash in QueueIds(q)
  {
    var c, q' := q[i], q[..i] + q[i + 1..];
    assert q == q[..i] + [c] + q[i + 1..];
    assert c in q;
    forall x | x in q' ensures x in q && x.tx.hash != c.tx.hash {
      var j :| 0 <= j < |q'| && q'[j] == x;
      assert x == if j < i then q[j] else q[j + 1];
    }
    assert forall x :: x in q ==> x in q' || x == c;
  }

  lemma PoppedIsScheduled(db: TxMap, r: Rules, pool: Pool, included: set<TxId>, taken: set<TxId>,
                          q: seq<Candidate>, orphans: seq<Orphan>, dependers: Dependers, i: nat)
    requires Scheduled(db, r, pool, included, taken, q, orphans, dependers) && i < |q|
    ensures Scheduled(db, r, pool, included, taken + {q[i].tx.hash}, q[..i] + q[i + 1..], orphans, dependers)
    ensures Ready(db, r, pool, included, q[i].tx) && q[i].tx.hash !in taken && q[i].tx.hash in MinableIds(r, pool)
  {
    WithoutOne(q, i);
    QueueWithoutOne(db, r, pool, included, q, i);
    PartitionWithoutOne(MinableIds(r, pool), orphans, q, q[..i] + q[i + 1..], taken, q[i].tx.hash);
  }

  lemma QueueWithoutOne(db: TxMap, r: Rules, pool: Pool, included: set<TxId>, q: seq<Candidate>, i: nat)
    requires QueueOk(db, r, pool, included, q) && i < |q|
    ensures QueueOk(db, r, pool, included, q[..i] + q[i + 1..])
  {
    var q' := q[..i] + q[i + 1..];
    assert forall j :: 0 <= j < |q'| ==> q'[j] == if j < i then q[j] else q[j + 1];
  }

  lemma PartitionWithoutOne(universe: set<TxId>, orphans: seq<Orphan>, q: seq<Candidate>, q': seq<Candidate>,
                            taken: set<TxId>, id: TxId)
    requires Partition(universe, orphans, q, taken) && id in QueueIds(q) && QueueIds(q') == QueueIds(q) - {id}
    ensures Partition(universe, orphans, q', taken + {id}) && id !in taken && id in universe
  {
  }

  /** Takes a greatest element out of the queue. */
  method PopBest(q: seq<Candidate>, byFee: bool) returns (c: Candidate, q': seq<Candidate>)
    requires q != []
    ensures exists i :: 0 <= i < |q| && c == q[i] && q' == q[..i] + q[i + 1..]
    ensures forall x :: x in q ==> !Less(byFee, c, x)
  {
    var best := Greatest(q, byFee);
    c, q' := q[best], q[..best] + q[best + 1..];
  }

  /** The candidates and the waiting transactions of the pool. */
  method Gather(txdb: TxDb, r: Rules, pool: Pool)
    returns (q: seq<Candidate>, orphans: seq<Orphan>, dependers: Dependers)
    requires GoodPool(txdb.View(), r, pool)
    ensures Scheduled(txdb.View(), r, pool, {}, {}, q, orphans, dependers)
  {
    q, orphans, dependers := [], [], map[];
    var order := Ascending(pool.Keys);
    ghost var seen: set<TxId> := {};
    NothingGathered(txdb.View(), r, pool);
    for i := 0 to |order|
      invariant forall x :: x in order[..i] <==> x in seen
      invariant Gathering(txdb.View(), r, pool, MinableOf(r, pool, seen), q, orphans, dependers)
    {
      var id := order[i];
      NextInOrder(order, i);
      assert id in pool.Keys;
      q, orphans, dependers := GatherOne(txdb, r, pool, id, q, orphans, dependers, seen);
      seen := seen + {id};
    }
    assert order[..|order|] == order;
    SameElements(seen, pool.Keys);
    AllGathered(txdb.View(), r, pool, seen, q, orphans, dependers);
  }

  lemma NextInOrder(order: seq<int>, i: nat)
    requires i < |order| && forall j, k :: 0 <= j < k < |order| ==> order[j] < order[k]
    ensures order[i] in order && order[i] !in order[..i] && order[..i + 1] == order[..i] + [order[i]]
  {
  }

  method GatherOne(txdb: TxDb, r: Rules, pool: Pool, id: TxId, q: seq<Candidate>, orphans: seq<Orphan>,
                   links: Dependers,
                   ghost seen: set<TxId>)
    returns (q': seq<Candidate>, orphans': seq<Orphan>, dependers: Dependers)
    requires GoodPool(txdb.View(), r, pool) && id in pool && id !in seen
    requires Gathering(txdb.View(), r, pool, MinableOf(r, pool, seen), q, orphans, links)
    ensures Gathering(txdb.View(), r, pool, MinableOf(r, pool, seen + {id}), q', orphans', dependers)
  {
    q', orphans', dependers := q, orphans, links;
    MinableOfNext(r, pool, seen, id);
    if Eligible(r, pool[id]) {
      q', orphans', dependers := Consider(txdb, r, pool, pool[id], q, orphans, links, MinableOf(r, pool, seen));
    }
  }

  lemma NothingGathered(db: TxMap, r: Rules, pool: Pool)
    ensures Gathering(db, r, pool, MinableOf(r, pool, {}), [], [], map[])
  {
    assert MinableOf(r, pool, {}) == {};
  }

  lemma AllGathered(db: TxMap, r: Rules, pool: Pool, seen: set<TxId>, q: seq<Candidate>, orphans: seq<Orphan>,
                    dependers: Dependers)
    requires Gathering(db, r, pool, MinableOf(r, pool, seen), q, orphans, dependers) && seen == pool.Keys
    ensures Scheduled(db, r, pool, {}, {}, q, orphans, dependers)
  {
  }

  lemma MinableOfNext(r: Rules, pool: Pool, seen: set<TxId>, id: TxId)
    requires id in pool && id !in seen
    ensures MinableOf(r, pool, seen + {id}) == MinableOf(r, pool, seen) + if Eligible(r, pool[id]) then {id} else {}
  {
  }

  /** Between two turns of the main loop. */
  ghost predicate Turning(db: TxMap, r: Rules, l: Limits, pool: Pool, picks: seq<Tx>, b: Template, byFee: bool,
                          q: seq<Candidate>, orphans: seq<Orphan>, dependers: Dependers) {
    && TemplateOk(db, r, l, b) && Progress(db, r, l, pool, picks, b, byFee)
    && Scheduled(db, r, pool, Ids(b.vtx), Ids(picks), q, orphans, dependers)
  }

  method TakeBest(ghost db: TxMap, ghost r: Rules, ghost pool: Pool, ghost f: Filling, ghost taken: set<TxId>,
                  queue: seq<Candidate>, ghost orphans: seq<Orphan>, ghost dependers: Dependers, byFee: bool)
    returns (c: Candidate, q: seq<Candidate>)
    requires Scheduled(db, r, pool, Ids(f.vtx), taken, queue, orphans, dependers) && queue != [] && byFee == f.byFee
    ensures BestChoice(db, r, pool, f, taken, c.tx) && c == CandidateOf(db, r, pool, c.tx)
    ensures Scheduled(db, r, pool, Ids(f.vtx), taken + {c.tx.hash}, q, orphans, dependers)
  {
    c, q := PopBest(queue, byFee);
    ghost var i :| 0 <= i < |queue| && c == queue[i] && q == queue[..i] + queue[i + 1..];
    GreatestIsBest(db, r, pool, f, taken, queue, orphans, dependers, c);
    PoppedIsScheduled(db, r, pool, Ids(f.vtx), taken, queue, orphans, dependers, i);
  }

  /** One turn of the main loop: takes the best candidate, tries to include it, and releases what waited for it. */
  method FillOne(txdb: TxDb, r: Rules, l: Limits, ghost pool: Pool, b: Template, sortedByFee: bool,
                 queue: seq<Candidate>,
                 waiting: seq<Orphan>, dependers: Dependers, ghost picks: seq<Tx>)
    returns (b': Template, fSortedByFee: bool, q: seq<Candidate>, orphans: seq<Orphan>, ghost tx: Tx)
    requires Turning(txdb.View(), r, l, pool, picks, b, sortedByFee, queue, waiting, dependers) && queue != []
    ensures Turning(txdb.View(), r, l, pool, picks + [tx], b', fSortedByFee, q, orphans, dependers)
    ensures Ids(picks + [tx]) == Ids(picks) + {tx.hash} && tx.hash !in Ids(picks) && tx.hash in MinableIds(r, pool)
  {
    ghost var db, f, taken := txdb.View(), FillingOf(txdb.View(), b, sortedByFee), Ids(picks);
    var c;
    c, q := TakeBest(db, r, pool, f, taken, queue, waiting, dependers, sortedByFee);
    tx, orphans := c.tx, waiting;
    var included;
    included, b', fSortedByFee := TryInclude(txdb, r, l, b, c, sortedByFee);
    if included {
      q, orphans := Release(db, r, pool, Ids(b.vtx), taken + {tx.hash}, c.tx.hash, q, orphans, dependers);
    }
    NextTurn(db, r, l, pool, picks, b, sortedByFee, tx, b', fSortedByFee, q, orphans, dependers);
  }

  lemma NextTurn(db: TxMap, r: Rules, l: Limits, pool: Pool, picks: seq<Tx>, b: Template, byFee: bool, tx: Tx,
                 b': Template, byFee': bool, q: seq<Candidate>, orphans: seq<Orphan>, dependers: Dependers)
    requires Progress(db, r, l, pool, picks, b, byFee)
    requires BestChoice(db, r, pool, FillingOf(db, b, byFee), Ids(picks), tx)
    requires FillingOf(db, b', byFee') == Turn(r, l, FillingOf(db, b, byFee), CandidateOf(db, r, pool, tx))
    requires TemplateOk(db, r, l, b')
             && Scheduled(db, r, pool, Ids(b'.vtx), Ids(picks) + {tx.hash}, q, orphans, dependers)
    ensures Turning(db, r, l, pool, picks + [tx], b', byFee', q, orphans, dependers)
    ensures Ids(picks + [tx]) == Ids(picks) + {tx.hash} && tx.hash !in Ids(picks) && tx.hash in MinableIds(r, pool)
  {
    GreedyNext(db, r, l, pool, picks, tx);
  }

  /** Chooses transactions of the pool for a new block: over and over a best one of those available. */
  method CreateNewBlock(txdb: TxDb, r: Rules, l: Limits, pool: Pool) returns (b: Template)
    requires GoodPool(txdb.View(), r, pool)
    ensures TemplateOk(txdb.View(), r, l, b) && GreedyBlock(txdb.View(), r, l, pool, b)
    ensures PoolIsNew(txdb.View(), r, pool) ==> SpendsOnce(b.vtx)
  {
    var q, orphans, dependers := Gather(txdb, r, pool);
    b := Template([], map[], INITIAL_SIZE, INITIAL_SIGOPS, 0);
    StartTurning(txdb.View(), r, l, pool, q, orphans, dependers);
    ghost var picks: seq<Tx> := [];
    var fSortedByFee := l.prioritySize <= 0;
    while q != []
      invariant Turning(txdb.View(), r, l, pool, picks, b, fSortedByFee, q, orphans, dependers)
      decreases |MinableIds(r, pool) - Ids(picks)|
    {
      ghost var tx;
      b, fSortedByFee, q, orphans, tx := FillOne(txdb, r, l, pool, b, fSortedByFee, q, orphans, dependers, picks);
      OneFewer(MinableIds(r, pool), Ids(picks), tx.hash);
      picks := picks + [tx];
    }
    LastTurn(txdb.View(), r, l, pool, picks, b, fSortedByFee, orphans, dependers);
    GreedySpendsOnce(txdb.View(), r, l, pool, b);
  }

  lemma StartTurning(db: TxMap, r: Rules, l: Limits, pool: Pool, q: seq<Candidate>, orphans: seq<Orphan>,
                     dependers: Dependers)
    requires Scheduled(db, r, pool, {}, {}, q, orphans, dependers)
    ensures Turning(db, r, l, pool, [], Template([], map[], INITIAL_SIZE, INITIAL_SIGOPS, 0), l.prioritySize <= 0,
                    q, orphans, dependers)
  {
    EmptyTemplate(db, r, l);
    assert db + map[] == db;
  }

  lemma LastTurn(db: TxMap, r: Rules, l: Limits, pool: Pool, picks: seq<Tx>, b: Template, byFee: bool,
                 orphans: seq<Orphan>, dependers: Dependers)
    requires Turning(db, r, l, pool, picks, b, byFee, [], orphans, dependers)
    ensures GreedyBlock(db, r, l, pool, b)
  {
    NothingAvailable(db, r, pool, Ids(b.vtx), Ids(picks), orphans, dependers);
  }

  lemma EmptyTemplate(db: TxMap, r: Rules, l: Limits)
    ensures TemplateOk(db, r, l, Template([], map[], INITIAL_SIZE, INITIAL_SIGOPS, 0))
    ensures Ids([]) == {}
  {
    assert db + map[] == db;
  }

  lemma OneFewer(universe: set<TxId>, taken: set<TxId>, id: TxId)
    requires id in universe && id !in taken
    ensures |universe - (taken + {id})| < |universe - taken|
  {
    assert universe - (taken + {id}) == (universe - taken) - {id};
  }

  lemma NothingAvailable(db: TxMap, r: Rules, pool: Pool, included: set<TxId>, taken: set<TxId>, orphans: seq<Orphan>,
                         dependers: Dependers)
    requires Scheduled(db, r, pool, included, taken, [], orphans, dependers)
    ensures forall tx :: !Available(db, r, pool, included, taken, tx)
  {
    forall tx ensures !Available(db, r, pool, included, taken, tx) {
      QueueHoldsAvailable(db, r, pool, included, taken, [], orphans, dependers, tx);
    }
  }

  /** Only transactions that were considered are chosen, so a minable one is left out for a reason: it was
      refused when its turn came, or a parent of it is not in the block. */
  lemma {:induction false} FilledFromPicks(db: TxMap, r: Rules, l: Limits, pool: Pool, picks: seq<Tx>)
    requires Greedy(db, r, l, pool, picks)
    ensures forall tx :: tx in Filled(db, r, l, pool, picks).vtx ==> tx in picks
    ensures forall tx :: tx in picks ==> Minable(r, pool, tx)
    ensures UniqueIds(picks)
  {
    if picks != [] {
      FilledFromPicks(db, r, l, pool, Front(picks));
      assert picks == Front(picks) + [Last(picks)];
      forall i | 0 <= i < |picks| - 1
        ensures picks[i].hash != Last(picks).hash
      {
        assert Front(picks)[i] in Front(picks);
      }
    }
  }

  /** If the pool repeats no id that the chain still needs, no outpoint is spent twice in the block. */
  lemma GreedySpendsOnce(db: TxMap, r: Rules, l: Limits, pool: Pool, b: Template)
    requires TemplateOk(db, r, l, b) && GreedyBlock(db, r, l, pool, b)
    ensures PoolIsNew(db, r, pool) ==> SpendsOnce(b.vtx)
  {
    if PoolIsNew(db, r, pool) {
      var picks, byFee :| Progress(db, r, l, pool, picks, b, byFee)
        && forall tx :: !Available(db, r, pool, Ids(b.vtx), Ids(picks), tx);
      FilledFromPicks(db, r, l, pool, picks);
      forall i | 0 <= i < |b.vtx| ensures Dead(db, b.vtx[i].hash) { assert b.vtx[i] in b.vtx; }
      ChosenSpendsOnce(db, b.vtx);
    }
  }
}
