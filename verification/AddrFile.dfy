/** The file format of the address manager: only records and the new buckets are written, everything else
    is rebuilt on loading. */
module AddrFile {
  import opened Basics
  import opened AddrTables
  import opened Ascend
  import opened AddrCheck
  import opened AddrMan

  /** The part of an entry that is written. */
  datatype Record = Record(
    ip: NetAddr, port: nat, services: Services, time: nat, source: NetAddr, lastSuccess: int, attempts: int)

  /** The counts of new and tried records and of buckets are the lengths of the lists; buckets hold
      indexes into the new records. */
  datatype File = File(key: Key, newRecords: seq<Record>, triedRecords: seq<Record>, buckets: seq<seq<int>>)

  function Written(e: AddrInfo): Record {
    Record(e.ip, e.port, e.services, e.time, e.source, e.lastSuccess, e.attempts)
  }

  function ReadBack(r: Record): AddrInfo {
    AddrInfo(r.ip, r.port, r.services, r.time, r.source, r.lastSuccess, 0, r.attempts, 0, false, -1)
  }

  // ---------- saving ----------

  ghost predicate RecordsOf(info: Infos, records: seq<Record>, ids: seq<int>) {
    |records| == |ids| && forall k :: 0 <= k < |ids| ==> ids[k] in info && records[k] == Written(info[ids[k]])
  }

  /** The indexes of the elements of a bucket. */
  ghost predicate BucketWritten(indexes: seq<int>, ids: seq<int>, bucket: set<int>) {
    && Distinct(indexes) && |indexes| == |bucket|
    && (forall i :: i in indexes ==> 0 <= i < |ids|)
    && (forall i :: 0 <= i < |ids| ==> (i in indexes <==> ids[i] in bucket))
  }

  ghost predicate Saved(s: Tables, f: File, newOrder: seq<int>, triedOrder: seq<int>) {
    && f.key == s.key
    && Lists(newOrder, NewIds(s.info)) && RecordsOf(s.info, f.newRecords, newOrder)
    && Lists(triedOrder, TriedIds(s.info)) && RecordsOf(s.info, f.triedRecords, triedOrder)
    && |f.buckets| == |s.vvNew|
    && forall b :: 0 <= b < |f.buckets| ==> BucketWritten(f.buckets[b], newOrder, s.vvNew[b])
  }

  /** f is a file that holds s. */
  ghost predicate Holds(s: Tables, f: File) {
    exists newOrder, triedOrder :: Saved(s, f, newOrder, triedOrder)
  }

  /** A list without repetition of as many elements as a set has lists the set. */
  lemma {:induction false} FullList(q: seq<int>, s: set<int>)
    requires Distinct(q) && |q| == |s| && forall x :: x in q ==> x in s
    ensures Lists(q, s)
  {
    if q == [] {
      forall x ensures x in q <==> x in s {}
    } else {
      var x := Last(q);
      assert q == Front(q) + [x];
      assert x in q;
      FullList(Front(q), s - {x});
    }
  }

  lemma {:induction false} ListSize(q: seq<int>, s: set<int>)
    requires Lists(q, s)
    ensures |q| == |s|
  {
    if q == [] {
      assert (forall x :: x !in s) ==> s == {};
    } else {
      var y := Last(q);
      assert q == Front(q) + [y];
      assert y in q;
      forall x ensures x in Front(q) <==> x in s - {y} { assert x in q <==> x in s; }
      ListSize(Front(q), s - {y});
    }
  }

  /** Appending a listed element keeps a list free of repetition. */
  lemma DistinctAppend(q: seq<int>, x: int)
    requires Distinct(q) && x !in q
    ensures Distinct(q + [x])
  {
  }

  /** The new records, and the index given to each new id. */
  method SaveNew(am: AddrMan) returns (newRecords: seq<Record>, mapUnkIds: map<int, int>, ghost newOrder: seq<int>)
    requires am.Valid()
    ensures Lists(newOrder, NewIds(am.mapInfo)) && RecordsOf(am.mapInfo, newRecords, newOrder)
    ensures forall k :: 0 <= k < |newOrder| ==> newOrder[k] in mapUnkIds && mapUnkIds[newOrder[k]] == k
  {
    NewByCount(am.Abs());
    newRecords, mapUnkIds, newOrder := WriteNew(am.mapInfo, am.nNew);
  }

  ghost predicate NewAreCounted(info: Infos) {
    forall id :: id in info ==> (info[id].refCount != 0 <==> !info[id].inTried)
  }

  method WriteNew(info: Infos, nNew: int)
    returns (newRecords: seq<Record>, mapUnkIds: map<int, int>, ghost newOrder: seq<int>)
    requires NewAreCounted(info) && nNew == |NewIds(info)|
    ensures Lists(newOrder, NewIds(info)) && RecordsOf(info, newRecords, newOrder)
    ensures forall k :: 0 <= k < |newOrder| ==> newOrder[k] in mapUnkIds && mapUnkIds[newOrder[k]] == k
  {
    var order := Ascending(info.Keys);
    newRecords, mapUnkIds, newOrder := [], map[], [];
    var nIds, i := 0, 0;
    while i < |order| && nIds != nNew
      invariant 0 <= i <= |order| && nIds == |newOrder| <= nNew
      invariant Distinct(newOrder) && forall x :: x in newOrder <==> x in order[..i] && x in NewIds(info)
      invariant RecordsOf(info, newRecords, newOrder)
      invariant forall k :: 0 <= k < |newOrder| ==> newOrder[k] in mapUnkIds && mapUnkIds[newOrder[k]] == k
    {
      var id := order[i];
      assert id !in order[..i] && order[..i + 1] == order[..i] + [id];
      mapUnkIds := mapUnkIds[id := nIds];
      if info[id].refCount != 0 {
        DistinctAppend(newOrder, id);
        newRecords := newRecords + [Written(info[id])];
        newOrder := newOrder + [id];
        nIds := nIds + 1;
      }
      i := i + 1;
    }
    if nIds == nNew {
      FullList(newOrder, NewIds(info));
    } else {
      assert order[..|order|] == order;
    }
  }

  /** The tried records. */
  method SaveTried(am: AddrMan) returns (tried: seq<Record>, ghost triedOrder: seq<int>)
    requires am.Valid()
    ensures Lists(triedOrder, TriedIds(am.mapInfo)) && RecordsOf(am.mapInfo, tried, triedOrder)
  {
    NewByCount(am.Abs());
    tried, triedOrder := WriteTried(am.mapInfo, am.nTried);
  }

  method WriteTried(info: Infos, nTried: int) returns (tried: seq<Record>, ghost triedOrder: seq<int>)
    requires nTried == |TriedIds(info)|
    ensures Lists(triedOrder, TriedIds(info)) && RecordsOf(info, tried, triedOrder)
  {
    var order := Ascending(info.Keys);
    tried, triedOrder := [], [];
    var nIds, i := 0, 0;
    while i < |order| && nIds != nTried
      invariant 0 <= i <= |order| && nIds == |triedOrder| <= nTried
      invariant Distinct(triedOrder) && forall x :: x in triedOrder <==> x in order[..i] && x in TriedIds(info)
      invariant RecordsOf(info, tried, triedOrder)
    {
      var id := order[i];
      assert id !in order[..i] && order[..i + 1] == order[..i] + [id];
      if info[id].inTried {
        DistinctAppend(triedOrder, id);
        tried := tried + [Written(info[id])];
        triedOrder := triedOrder + [id];
        nIds := nIds + 1;
      }
      i := i + 1;
    }
    if nIds == nTried {
      FullList(triedOrder, TriedIds(info));
    } else {
      assert order[..|order|] == order;
    }
  }

  lemma NewByCount(s: Tables)
    requires Consistent(s)
    ensures NewAreCounted(s.info)
    ensures s.nNew == |NewIds(s.info)| && s.nTried == |TriedIds(s.info)|
  {
    forall id | id in s.info ensures s.info[id].refCount != 0 <==> !s.info[id].inTried {
      assert EntryOk(s.info[id], s.idCount, s.vvNew, None, id);
    }
  }

  method SaveBucket(bucket: set<int>, mapUnkIds: map<int, int>, ghost newOrder: seq<int>) returns (indexes: seq<int>)
    requires Distinct(newOrder) && forall x :: x in bucket ==> x in newOrder
    requires forall k :: 0 <= k < |newOrder| ==> newOrder[k] in mapUnkIds && mapUnkIds[newOrder[k]] == k
    ensures BucketWritten(indexes, newOrder, bucket)
  {
    var order := Ascending(bucket);
    indexes := [];
    for k := 0 to |order|
      invariant |indexes| == k
      invariant forall j :: 0 <= j < k ==> 0 <= indexes[j] < |newOrder| && newOrder[indexes[j]] == order[j]
    {
      var id := order[k];
      assert id in order;
      assert id in bucket;
      ghost var at :| 0 <= at < |newOrder| && newOrder[at] == id;
      assert mapUnkIds[newOrder[at]] == at;
      indexes := indexes + [mapUnkIds[id]];
    }
    forall i | 0 <= i < |newOrder| && newOrder[i] in bucket ensures i in indexes {
      var x := newOrder[i];
      assert x in bucket;
      assert x in order;
      var j :| 0 <= j < |order| && order[j] == x;
      assert newOrder[indexes[j]] == x;
    }
  }

  /** Writes the records in order of their ids, then for each new bucket the indexes of its elements. */
  method Save(am: AddrMan) returns (f: File)
    requires am.Valid()
    ensures Holds(am.Abs(), f)
  {
    var newRecords, mapUnkIds, ids := SaveNew(am);
    var tried, tids := SaveTried(am);
    var buckets := [];
    for b := 0 to |am.vvNew|
      invariant |buckets| == b
      invariant forall j :: 0 <= j < b ==> BucketWritten(buckets[j], ids, am.vvNew[j])
    {
      assert NewBucketOk(am.mapInfo, am.vvNew[b]);
      var indexes := SaveBucket(am.vvNew[b], mapUnkIds, ids);
      buckets := buckets + [indexes];
    }
    f := File(am.nKey, newRecords, tried, buckets);
    assert Saved(am.Abs(), f, ids, tids);
  }

  // ---------- loading ----------

  /** rehash: the file has another number of new buckets, so each new record goes to the bucket of its source. */
  function LoadedNew(key: Key, rehash: bool, newRecords: seq<Record>): (t: Tables)
    ensures |t.vvNew| == NEW_BUCKET_COUNT
  {
    if newRecords == [] then EmptyTables(key) else
      NewStep(LoadedNew(key, rehash, Front(newRecords)), rehash, Last(newRecords), |newRecords| - 1)
  }

  function NewStep(t: Tables, rehash: bool, r: Record, n: nat): (u: Tables)
    requires |t.vvNew| == NEW_BUCKET_COUNT
    ensures |u.vvNew| == NEW_BUCKET_COUNT
  {
    var e := NewEntry(r, rehash, n);
    t.(idCount := n + 1, info := t.info[n := e], addr := t.addr[e.ip := n], random := t.random + [n], nNew := n + 1,
       vvNew := if rehash then Rehashed(t.vvNew, t.key, e, n) else t.vvNew)
  }

  function NewEntry(r: Record, rehash: bool, n: nat): AddrInfo {
    ReadBack(r).(randomPos := n, refCount := if rehash then 1 else 0)
  }

  function Rehashed(vvNew: seq<set<int>>, key: Key, e: AddrInfo, n: int): (vv: seq<set<int>>)
    requires |vvNew| == NEW_BUCKET_COUNT
    ensures |vv| == NEW_BUCKET_COUNT
  {
    var b := GetNewBucket(key, e, e.source);
    vvNew[b := vvNew[b] + {n}]
  }

  /** A tried record that finds its bucket full is lost. */
  function LoadedTried(t: Tables, tried: seq<Record>): (u: Tables)
    ensures |u.vvTried| == |t.vvTried| && u.vvNew == t.vvNew
  {
    if tried == [] then t else TriedStep(LoadedTried(t, Front(tried)), Last(tried))
  }

  predicate Fits(u: Tables, r: Record) {
    var b := GetTriedBucket(u.key, ReadBack(r));
    b < |u.vvTried| && |u.vvTried[b]| < TRIED_BUCKET_SIZE
  }

  function TriedStep(u: Tables, r: Record): Tables {
    if Fits(u, r) then AddedTried(u, ReadBack(r), GetTriedBucket(u.key, ReadBack(r))) else u
  }

  function AddedTried(u: Tables, e: AddrInfo, b: nat): Tables
    requires b < |u.vvTried|
  {
    u.(idCount := u.idCount + 1, info := u.info[u.idCount := e.(randomPos := |u.random|, inTried := true)],
       addr := u.addr[e.ip := u.idCount], random := u.random + [u.idCount],
       vvTried := u.vvTried[b := u.vvTried[b] + [u.idCount]], nTried := u.nTried + 1)
  }

  /** The entry at an index; the map makes a default one where there is none. */
  function EntryAt(info: Infos, n: int): AddrInfo {
    if n in info then info[n] else AddrInfo(0, 0, Services({0}), 100_000_000, 0, 0, 0, 0, 0, false, -1)
  }

  /** counts: the file has the present number of buckets. */
  function LoadedBucket(info: Infos, indexes: seq<int>, counts: bool): (Infos, set<int>) {
    if indexes == [] then (info, {}) else
      var (i, s) := LoadedBucket(info, Front(indexes), counts);
      var n := Last(indexes);
      var e := EntryAt(i, n);
      if counts && e.refCount < NEW_BUCKETS_PER_ADDRESS
      then (i[n := e.(refCount := e.refCount + 1)], s + {n}) else (i[n := e], s)
  }

  function LoadedBuckets(t: Tables, buckets: seq<seq<int>>, counts: bool): (u: Tables)
    requires counts ==> |buckets| <= |t.vvNew|
    ensures u == t.(info := u.info, vvNew := u.vvNew) && |u.vvNew| == |t.vvNew|
  {
    if buckets == [] then t else
      var u := LoadedBuckets(t, Front(buckets), counts);
      var (info, s) := LoadedBucket(u.info, Last(buckets), counts);
      u.(info := info, vvNew := if counts then u.vvNew[|buckets| - 1 := s] else u.vvNew)
  }

  predicate SameCount(f: File) { |f.buckets| == NEW_BUCKET_COUNT }

  function Loaded(f: File): (t: Tables)
    ensures |t.vvNew| == NEW_BUCKET_COUNT && |t.vvTried| == TRIED_BUCKET_COUNT
  {
    LoadedBuckets(LoadedTried(NewPart(f), f.triedRecords), f.buckets, SameCount(f))
  }

  function NewPart(f: File): (t: Tables)
    ensures |t.vvNew| == NEW_BUCKET_COUNT && |t.vvTried| == TRIED_BUCKET_COUNT
  {
    LoadedNewShape(f.key, !SameCount(f), f.newRecords);
    LoadedNew(f.key, !SameCount(f), f.newRecords)
  }

  lemma {:induction false} LoadedNewShape(key: Key, rehash: bool, newRecords: seq<Record>)
    ensures var t := LoadedNew(key, rehash, newRecords);
      && t == EmptyTables(key).(idCount := |newRecords|, info := t.info, addr := t.addr, random := t.random,
                                nNew := |newRecords|, vvNew := t.vvNew)
      && |t.random| == |newRecords| && (!rehash ==> t.vvNew == EmptyTables(key).vvNew)
  {
    if newRecords != [] { LoadedNewShape(key, rehash, Front(newRecords)); }
  }

  /** When the number of buckets has changed, every new record is in exactly one bucket, the one for its source. */
  lemma {:induction false} RehashedOnce(key: Key, newRecords: seq<Record>, n: nat, b: nat)
    requires n < |newRecords| && b < NEW_BUCKET_COUNT
    ensures var t := LoadedNew(key, true, newRecords);
      && n in t.info && Written(t.info[n]) == newRecords[n] && t.info[n].refCount == 1
      && (n in t.vvNew[b] <==> b == GetNewBucket(key, t.info[n], t.info[n].source))
  {
    LoadedNewShape(key, true, Front(newRecords));
    NoLaterId(key, Front(newRecords), |newRecords| - 1, b);
    if n < |newRecords| - 1 { RehashedOnce(key, Front(newRecords), n, b); }
  }

  lemma {:induction false} NoLaterId(key: Key, newRecords: seq<Record>, n: nat, b: nat)
    requires n >= |newRecords| && b < NEW_BUCKET_COUNT
    ensures n !in LoadedNew(key, true, newRecords).vvNew[b]
  {
    if newRecords != [] { NoLaterId(key, Front(newRecords), n, b); }
  }

  method LoadNewRecords(am: AddrMan, f: File, nUBuckets: nat)
    requires am.Abs() == EmptyTables(f.key).(nNew := |f.newRecords|, nTried := |f.triedRecords|)
    requires nUBuckets == |f.buckets|
    modifies am
    ensures am.Abs() == NewPart(f).(nTried := |f.triedRecords|)
  {
    ghost var rehash := !SameCount(f);
    assert f.newRecords[..0] == [];
    for n := 0 to |f.newRecords|
      invariant am.Abs() == LoadedNew(f.key, rehash, f.newRecords[..n])
                            .(idCount := 0, nNew := |f.newRecords|, nTried := |f.triedRecords|)
      invariant |am.vRandom| == n
    {
      assert Front(f.newRecords[..n + 1]) == f.newRecords[..n];
      LoadedNewShape(f.key, rehash, f.newRecords[..n]);
      LoadNewRecord(am, f.newRecords[n], n, nUBuckets);
    }
    assert f.newRecords[..|f.newRecords|] == f.newRecords;
    LoadedNewShape(f.key, rehash, f.newRecords);
    am.nIdCount := am.nNew;
  }

  method LoadNewRecord(am: AddrMan, r: Record, n: nat, nUBuckets: nat)
    requires |am.vRandom| == n && |am.vvNew| == NEW_BUCKET_COUNT
    modifies am
    ensures am.Abs() == NewStep(old(am.Abs()), nUBuckets != NEW_BUCKET_COUNT, r, n)
                        .(idCount := old(am.nIdCount), nNew := old(am.nNew))
  {
    var info := ReadBack(r).(randomPos := |am.vRandom|);
    am.mapAddr := am.mapAddr[info.ip := n];
    am.vRandom := am.vRandom + [n];
    if nUBuckets != NEW_BUCKET_COUNT {
      var b := GetNewBucket(am.nKey, info, info.source);
      am.vvNew := am.vvNew[b := am.vvNew[b] + {n}];
      info := info.(refCount := info.refCount + 1);
    }
    am.mapInfo := am.mapInfo[n := info];
  }

  method LoadTriedRecord(am: AddrMan, r: Record) returns (fLost: bool)
    requires |am.vvTried| == TRIED_BUCKET_COUNT
    modifies am
    ensures am.Abs() == TriedStep(old(am.Abs()), r).(nTried := old(am.nTried)) && (fLost <==> !Fits(old(am.Abs()), r))
  {
    var info := ReadBack(r);
    var b := GetTriedBucket(am.nKey, info);
    fLost := |am.vvTried[b]| >= TRIED_BUCKET_SIZE;
    if !fLost {
      info := info.(randomPos := |am.vRandom|, inTried := true);
      am.vRandom := am.vRandom + [am.nIdCount];
      am.mapInfo := am.mapInfo[am.nIdCount := info];
      am.mapAddr := am.mapAddr[info.ip := am.nIdCount];
      am.vvTried := am.vvTried[b := am.vvTried[b] + [am.nIdCount]];
      am.nIdCount := am.nIdCount + 1;
    }
  }

  /** The number of tried entries does not matter to the step. */
  lemma StepIgnoresCount(u: Tables, r: Record, n: int)
    ensures Fits(u.(nTried := n), r) <==> Fits(u, r)
    ensures TriedStep(u.(nTried := n), r).(nTried := n) == TriedStep(u, r).(nTried := n)
    ensures TriedStep(u, r).nTried == u.nTried + if Fits(u, r) then 1 else 0
  {
  }

  method LoadTriedRecords(am: AddrMan, f: File)
    requires am.Abs() == NewPart(f).(nTried := |f.triedRecords|)
    modifies am
    ensures am.Abs() == LoadedTried(NewPart(f), f.triedRecords)
  {
    LoadedNewShape(f.key, !SameCount(f), f.newRecords);
    var nLost := 0;
    ghost var u := NewPart(f);
    for n := 0 to |f.triedRecords|
      invariant u == LoadedTried(NewPart(f), f.triedRecords[..n]) && |u.vvTried| == TRIED_BUCKET_COUNT
      invariant am.Abs() == u.(nTried := |f.triedRecords|) && u.nTried == n - nLost
    {
      var r := f.triedRecords[n];
      assert Front(f.triedRecords[..n + 1]) == f.triedRecords[..n];
      StepIgnoresCount(u, r, |f.triedRecords|);
      var fLost := LoadTriedRecord(am, r);
      if fLost { nLost := nLost + 1; }
      u := TriedStep(u, r);
    }
    assert f.triedRecords[..|f.triedRecords|] == f.triedRecords;
    am.nTried := am.nTried - nLost;
  }

  method LoadOneBucket(mapInfo: Infos, indexes: seq<int>, nUBuckets: nat) returns (info: Infos, vNew: set<int>)
    ensures (info, vNew) == LoadedBucket(mapInfo, indexes, nUBuckets == NEW_BUCKET_COUNT)
  {
    info, vNew := mapInfo, {};
    for n := 0 to |indexes|
      invariant (info, vNew) == LoadedBucket(mapInfo, indexes[..n], nUBuckets == NEW_BUCKET_COUNT)
    {
      assert Front(indexes[..n + 1]) == indexes[..n];
      var nIndex := indexes[n];
      var e := EntryAt(info, nIndex);
      ghost var before := info;
      info := info[nIndex := e];
      if nUBuckets == NEW_BUCKET_COUNT && e.refCount < NEW_BUCKETS_PER_ADDRESS {
        info := info[nIndex := e.(refCount := e.refCount + 1)];
        assert info == before[nIndex := e.(refCount := e.refCount + 1)];
        vNew := vNew + {nIndex};
      }
    }
    assert indexes[..|indexes|] == indexes;
  }

  /** Reads any file. */
  method Load(am: AddrMan, f: File)
    modifies am
    ensures am.Abs() == Loaded(f)
  {
    var nUBuckets := |f.buckets|;
    am.nKey, am.nNew, am.nTried := f.key, |f.newRecords|, |f.triedRecords|;
    am.nIdCount, am.mapInfo, am.mapAddr, am.vRandom := 0, map[], map[], [];
    am.vvTried, am.vvNew := seq(TRIED_BUCKET_COUNT, _ => []), seq(NEW_BUCKET_COUNT, _ => {});
    LoadNewRecords(am, f, nUBuckets);
    LoadTriedRecords(am, f);
    ghost var t := am.Abs();
    for b := 0 to nUBuckets
      invariant |t.vvNew| == NEW_BUCKET_COUNT && am.Abs() == LoadedBuckets(t, f.buckets[..b], SameCount(f))
    {
      assert Front(f.buckets[..b + 1]) == f.buckets[..b];
      var info, vNew := LoadOneBucket(am.mapInfo, f.buckets[b], nUBuckets);
      am.mapInfo := info;
      if nUBuckets == NEW_BUCKET_COUNT { am.vvNew := am.vvNew[b := vNew]; }
    }
    assert f.buckets[..|f.buckets|] == f.buckets;
  }
}
