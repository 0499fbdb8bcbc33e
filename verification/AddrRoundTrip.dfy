/** Loading what was saved gives back the same tables up to the ids, the order of the random list and of the
    tried buckets, and the time of the last try. */
module AddrRoundTrip {
  import opened Basics
  import opened AddrTables
  import opened AddrCheck
  import opened AddrMan
  import opened AddrFile

  /** What survives of an entry that becomes number i. */
  function Restored(e: AddrInfo, i: int): AddrInfo { e.(lastTry := 0, randomPos := i) }

  ghost predicate RestoredAt(s: Infos, t: Infos, ids: seq<int>, i: nat)
    requires i < |ids|
  {
    i in t && ids[i] in s && t[i] == Restored(s[ids[i]], i)
  }

  /** The same members, under their new numbers. */
  ghost predicate SameMembers(a: set<int>, b: set<int>, ids: seq<int>) {
    && (forall i :: i in a ==> 0 <= i < |ids|) && (forall x :: x in b ==> x in ids)
    && (forall i :: 0 <= i < |ids| ==> (i in a <==> ids[i] in b))
  }

  function Members(q: seq<int>): set<int> { set x | x in q }

  ghost predicate SameTriedBucket(a: seq<int>, b: seq<int>, ids: seq<int>) {
    Distinct(a) && |a| <= TRIED_BUCKET_SIZE && SameMembers(Members(a), Members(b), ids)
  }

  /** Id i of t is id ids[i] of s. */
  ghost predicate SameUpToIds(s: Tables, t: Tables, ids: seq<int>) {
    && t.key == s.key && t.nNew == s.nNew && t.nTried == s.nTried && t.idCount == |ids|
    && Lists(ids, s.info.Keys) && Counted(t.info, t.random, |ids|) && AddrOk(t.info, t.addr)
    && (forall i :: 0 <= i < |ids| ==> RestoredAt(s.info, t.info, ids, i))
    && |t.vvNew| == |s.vvNew| && (forall b :: 0 <= b < |t.vvNew| ==> SameMembers(t.vvNew[b], s.vvNew[b], ids))
    && |t.vvTried| == |s.vvTried|
      && (forall b :: 0 <= b < |t.vvTried| ==> SameTriedBucket(t.vvTried[b], s.vvTried[b], ids))
  }

  /** The ids are 0, ..., n - 1, in this order in the random list. */
  ghost predicate Counted(info: Infos, random: seq<int>, n: nat) {
    && (forall i :: i in info <==> 0 <= i < n)
    && |random| == n && (forall i :: 0 <= i < n ==> random[i] == i)
  }

  // ---------- renumbered tables are consistent ----------

  lemma SameMembersFront(a: set<int>, b: set<int>, ids: seq<int>, x: int)
    requires Distinct(ids + [x]) && SameMembers(a, b, ids + [x])
    ensures SameMembers(a - {|ids|}, b - {x}, ids) && (|ids| in a <==> x in b)
  {
    var all := ids + [x];
    assert all[|ids|] == x;
    forall i | 0 <= i < |ids|
      ensures i in a - {|ids|} <==> ids[i] in b - {x}
    {
      assert all[i] == ids[i] && all[i] != x;
    }
    forall y | y in b - {x} ensures y in ids { assert y in all; }
  }

  lemma {:induction false} SameSize(a: set<int>, b: set<int>, ids: seq<int>)
    requires Distinct(ids) && SameMembers(a, b, ids)
    ensures |a| == |b|
  {
    if ids == [] {
      assert (forall x :: x !in a) ==> a == {};
      assert (forall x :: x !in b) ==> b == {};
    } else {
      var n, id := |ids| - 1, Last(ids);
      assert ids == Front(ids) + [id];
      SameMembersFront(a, b, Front(ids), id);
      SameSize(a - {n}, b - {id}, Front(ids));
      SizeWithout(a, n);
      SizeWithout(b, id);
      assert n in a <==> id in b;
    }
  }

  lemma SizeWithout(a: set<int>, x: int)
    ensures |a| == |a - {x}| + if x in a then 1 else 0
  {
    if x !in a { assert a - {x} == a; }
  }

  lemma {:induction false} SameRefs(vv: seq<set<int>>, ww: seq<set<int>>, ids: seq<int>, i: nat)
    requires |vv| == |ww| && i < |ids| && forall b :: 0 <= b < |vv| ==> SameMembers(vv[b], ww[b], ids)
    ensures Refs(vv, i) == Refs(ww, ids[i])
  {
    if vv != [] {
      forall b | 0 <= b < |vv| - 1 ensures SameMembers(Front(vv)[b], Front(ww)[b], ids) {
        assert SameMembers(vv[b], ww[b], ids);
      }
      SameRefs(Front(vv), Front(ww), ids, i);
      assert SameMembers(vv[|vv| - 1], ww[|vv| - 1], ids);
    }
  }

  lemma RenumberedRandom(s: Infos, t: Infos, random: seq<int>, ids: seq<int>)
    requires Counted(t, random, |ids|) && forall i :: 0 <= i < |ids| ==> RestoredAt(s, t, ids, i)
    ensures RandomOk(t, random)
  {
    forall x ensures x in random <==> x in t.Keys {
      if x in t { assert random[x] == x; }
    }
    ListSize(random, t.Keys);
    assert |t| == |t.Keys|;
    forall i | i in t ensures RandomAt(t, random, i) { assert RestoredAt(s, t, ids, i); }
    forall i | 0 <= i < |random| ensures RandomSlot(t, random, i) { assert RestoredAt(s, t, ids, i); }
  }

  lemma RenumberedTried(key: Key, s: Infos, t: Infos, ids: seq<int>, vs: seq<seq<int>>, vt: seq<seq<int>>)
    requires TriedOk(key, s, vs) && |vt| == |vs| && forall i :: i in t <==> 0 <= i < |ids|
    requires forall i :: 0 <= i < |ids| ==> RestoredAt(s, t, ids, i)
    requires forall b :: 0 <= b < |vt| ==> SameTriedBucket(vt[b], vs[b], ids)
    ensures TriedOk(key, t, vt)
  {
    forall b | 0 <= b < |vt| ensures TriedBucketOk(key, t, vt[b], b) {
      assert SameTriedBucket(vt[b], vs[b], ids) && TriedBucketOk(key, s, vs[b], b);
      forall i | i in vt[b] ensures InTriedSlot(key, t, i, b) {
        assert i in Members(vt[b]);
        assert ids[i] in Members(vs[b]);
        var x := ids[i];
        assert x in vs[b];
        assert InTriedSlot(key, s, x, b) && RestoredAt(s, t, ids, i);
      }
    }
    forall i | i in t && t[i].inTried ensures i in vt[GetTriedBucket(key, t[i])] {
      assert RestoredAt(s, t, ids, i);
      var x, b := ids[i], GetTriedBucket(key, t[i]);
      assert x in vs[b];
      assert SameTriedBucket(vt[b], vs[b], ids) && x in Members(vs[b]);
      assert i in Members(vt[b]);
    }
  }

  lemma RenumberedFresh(s: Infos, t: Infos, ids: seq<int>, vs: seq<set<int>>, vt: seq<set<int>>)
    requires FreshOk(s, vs) && |vt| == |vs| && Distinct(ids)
    requires forall i :: 0 <= i < |ids| ==> RestoredAt(s, t, ids, i)
    requires forall b :: 0 <= b < |vt| ==> SameMembers(vt[b], vs[b], ids)
    ensures FreshOk(t, vt)
  {
    forall b | 0 <= b < |vt| ensures NewBucketOk(t, vt[b]) {
      assert SameMembers(vt[b], vs[b], ids) && NewBucketOk(s, vs[b]);
      SameSize(vt[b], vs[b], ids);
      forall i | i in vt[b] ensures i in t && !t[i].inTried {
        assert RestoredAt(s, t, ids, i);
        var x := ids[i];
        assert x in vs[b];
      }
    }
  }

  lemma RenumberedEntries(s: Infos, t: Infos, ids: seq<int>, idCount: int, vs: seq<set<int>>, vt: seq<set<int>>)
    requires EntriesOk(s, idCount, vs, None) && |vt| == |vs| && forall i :: i in t <==> 0 <= i < |ids|
    requires forall i :: 0 <= i < |ids| ==> RestoredAt(s, t, ids, i)
    requires forall b :: 0 <= b < |vt| ==> SameMembers(vt[b], vs[b], ids)
    ensures EntriesOk(t, |ids|, vt, None)
  {
    forall i | i in t ensures EntryOk(t[i], |ids|, vt, None, i) {
      assert RestoredAt(s, t, ids, i);
      assert EntryOk(s[ids[i]], idCount, vs, None, ids[i]);
      SameRefs(vt, vs, ids, i);
    }
  }

  lemma RenumberedCounts(s: Infos, t: Infos, ids: seq<int>)
    requires Lists(ids, s.Keys) && forall i :: i in t <==> 0 <= i < |ids|
    requires forall i :: 0 <= i < |ids| ==> RestoredAt(s, t, ids, i)
    ensures |TriedIds(t)| == |TriedIds(s)| && |NewIds(t)| == |NewIds(s)|
  {
    forall i | 0 <= i < |ids|
      ensures (i in TriedIds(t) <==> ids[i] in TriedIds(s)) && (i in NewIds(t) <==> ids[i] in NewIds(s))
    {
      assert RestoredAt(s, t, ids, i);
    }
    SameSize(TriedIds(t), TriedIds(s), ids);
    SameSize(NewIds(t), NewIds(s), ids);
  }

  lemma RenumberedIsConsistent(s: Tables, t: Tables, ids: seq<int>)
    requires Consistent(s) && SameUpToIds(s, t, ids)
    ensures Consistent(t)
  {
    RenumberedRandom(s.info, t.info, t.random, ids);
    RenumberedTried(s.key, s.info, t.info, ids, s.vvTried, t.vvTried);
    RenumberedFresh(s.info, t.info, ids, s.vvNew, t.vvNew);
    RenumberedEntries(s.info, t.info, ids, s.idCount, s.vvNew, t.vvNew);
    RenumberedCounts(s.info, t.info, ids);
  }

  // ---------- the records ----------

  /** After loading the records of ids, and before any bucket. */
  ghost predicate PartLoaded(s: Tables, t: Tables, ids: seq<int>) {
    && t.key == s.key && t.idCount == |ids| && Distinct(ids)
    && Counted(t.info, t.random, |ids|) && AddrOk(t.info, t.addr)
    && (forall i :: 0 <= i < |ids| ==> ids[i] in s.info && t.info[i] == Unplaced(s.info[ids[i]], i))
    && |t.vvTried| == |s.vvTried|
    && (forall b :: 0 <= b < |t.vvTried| ==> PlacedBucket(t.vvTried[b], s.vvTried[b], ids))
    && |t.vvNew| == NEW_BUCKET_COUNT && (forall b :: 0 <= b < |t.vvNew| ==> t.vvNew[b] == {})
  }

  function Unplaced(e: AddrInfo, i: int): AddrInfo { Restored(e, i).(refCount := 0) }

  /** The part of a tried bucket that is among ids. */
  ghost predicate PlacedBucket(a: seq<int>, b: seq<int>, ids: seq<int>) {
    && Distinct(a) && (forall i :: i in a ==> 0 <= i < |ids|)
    && (forall i :: 0 <= i < |ids| ==> (i in a <==> ids[i] in b))
  }

  lemma NewAddress(s: Tables, t: Tables, ids: seq<int>, id: int)
    requires AddrOk(s.info, s.addr) && PartLoaded(s, t, ids) && id in s.info && id !in ids
    ensures s.info[id].ip !in t.addr
  {
    forall ip | ip in t.addr ensures ip != s.info[id].ip {
      var i := t.addr[ip];
      assert i in t.info && t.info[i].ip == ip;
      var x := ids[i];
      assert x in ids && x in s.info;
      assert s.addr[s.info[x].ip] == x && s.addr[s.info[id].ip] == id;
    }
  }

  /** The step common to new and tried records. */
  lemma RecordStep(s: Tables, t: Tables, ids: seq<int>, id: int, vvTried: seq<seq<int>>, e: AddrInfo, u: Tables)
    requires AddrOk(s.info, s.addr) && PartLoaded(s, t, ids) && id in s.info && id !in ids
    requires e == Unplaced(s.info[id], |ids|) && |vvTried| == |s.vvTried|
    requires forall b :: 0 <= b < |vvTried| ==> PlacedBucket(vvTried[b], s.vvTried[b], ids + [id])
    requires u == t.(idCount := |ids| + 1, info := t.info[|ids| := e], addr := t.addr[e.ip := |ids|],
                     random := t.random + [|ids|], vvTried := vvTried, nNew := u.nNew, nTried := u.nTried)
    ensures PartLoaded(s, u, ids + [id])
  {
    NewAddress(s, t, ids, id);
    CreateAddr(t.info, t.addr, |ids|, e);
  }

  /** The record of one more entry that is not tried. */
  lemma NewStepIs(s: Tables, t: Tables, before: seq<int>, id: int)
    requires Consistent(s) && PartLoaded(s, t, before) && id in s.info && !s.info[id].inTried && id !in before
    ensures var u := NewStep(t, false, Written(s.info[id]), |before|);
      PartLoaded(s, u, before + [id]) && u.nNew == |before| + 1 && u.nTried == t.nTried
  {
    forall b | 0 <= b < |t.vvTried| ensures PlacedBucket(t.vvTried[b], s.vvTried[b], before + [id]) {
      NotTried(s, id, b);
      assert PlacedBucket(t.vvTried[b], s.vvTried[b], before);
    }
    RecordStep(s, t, before, id, t.vvTried, Unplaced(s.info[id], |before|),
               NewStep(t, false, Written(s.info[id]), |before|));
  }

  lemma NothingLoaded(s: Tables)
    requires |s.vvTried| == TRIED_BUCKET_COUNT
    ensures var t := EmptyTables(s.key); PartLoaded(s, t, []) && t.nNew == 0 && t.nTried == 0
  {
  }

  lemma {:induction false} LoadedNewIs(s: Tables, records: seq<Record>, ids: seq<int>)
    requires Consistent(s) && Distinct(ids) && RecordsOf(s.info, records, ids)
    requires forall k :: 0 <= k < |ids| ==> ids[k] in s.info && !s.info[ids[k]].inTried
    ensures var t := LoadedNew(s.key, false, records); PartLoaded(s, t, ids) && t.nNew == |ids| && t.nTried == 0
  {
    if ids == [] {
      NothingLoaded(s);
    } else {
      var n, id := |ids| - 1, Last(ids);
      FrontAndLast(ids);
      LoadedNewIs(s, Front(records), Front(ids));
      assert records[n] == Written(s.info[id]);
      DistinctSplit(Front(ids), id);
      NewStepIs(s, LoadedNew(s.key, false, Front(records)), Front(ids), id);
    }
  }

  lemma NotTried(s: Tables, id: int, b: nat)
    requires Consistent(s) && id in s.info && !s.info[id].inTried && b < |s.vvTried|
    ensures id !in s.vvTried[b]
  {
    assert TriedBucketOk(s.key, s.info, s.vvTried[b], b);
    assert id in s.vvTried[b] ==> InTriedSlot(s.key, s.info, id, b);
  }

  /** The bucket of a tried entry still to come has room. */
  lemma Room(a: seq<int>, bucket: seq<int>, ids: seq<int>, id: int)
    requires Distinct(ids) && PlacedBucket(a, bucket, ids) && id in bucket && id !in ids && Distinct(bucket)
    ensures |a| < |bucket|
  {
    var listed := set x | x in bucket && x in ids;
    assert SameMembers(Members(a), listed, ids) by {
      forall i | 0 <= i < |ids| ensures i in Members(a) <==> ids[i] in listed {}
    }
    SameSize(Members(a), listed, ids);
    ListSize(a, Members(a));
    ListSize(bucket, Members(bucket));
    assert listed <= Members(bucket) - {id};
    Smaller(listed, Members(bucket) - {id});
  }

  lemma Smaller(a: set<int>, b: set<int>)
    requires a <= b
    ensures |a| <= |b|
  {
    assert b == a + (b - a);
  }

  lemma TriedBucketGrows(s: Tables, t: Tables, ids: seq<int>, id: int, b: nat)
    requires Consistent(s) && PartLoaded(s, t, ids) && id in s.info && s.info[id].inTried && id !in ids
    requires b == GetTriedBucket(s.key, s.info[id])
    ensures |t.vvTried[b]| < TRIED_BUCKET_SIZE
    ensures var vv := t.vvTried[b := t.vvTried[b] + [|ids|]];
      forall c :: 0 <= c < |vv| ==> PlacedBucket(vv[c], s.vvTried[c], ids + [id])
  {
    assert TriedBucketOk(s.key, s.info, s.vvTried[b], b) && PlacedBucket(t.vvTried[b], s.vvTried[b], ids);
    Room(t.vvTried[b], s.vvTried[b], ids, id);
    var vv := t.vvTried[b := t.vvTried[b] + [|ids|]];
    DistinctAppend(t.vvTried[b], |ids|);
    forall c | 0 <= c < |vv| ensures PlacedBucket(vv[c], s.vvTried[c], ids + [id]) {
      assert TriedBucketOk(s.key, s.info, s.vvTried[c], c) && PlacedBucket(t.vvTried[c], s.vvTried[c], ids);
      assert id in s.vvTried[c] ==> InTriedSlot(s.key, s.info, id, c);
    }
  }

  lemma DistinctSplit(q: seq<int>, x: int)
    requires Distinct(q + [x])
    ensures Distinct(q) && x !in q
  {
    var r := q + [x];
    assert r[|q|] == x && forall i :: 0 <= i < |q| ==> q[i] == r[i];
  }

  /** The record of one more tried entry finds room in its bucket. */
  lemma TriedStepIs(s: Tables, u: Tables, before: seq<int>, id: int)
    requires Consistent(s) && PartLoaded(s, u, before) && id in s.info && s.info[id].inTried && id !in before
    ensures var w := TriedStep(u, Written(s.info[id]));
      PartLoaded(s, w, before + [id]) && w.nNew == u.nNew && w.nTried == u.nTried + 1
  {
    assert EntryOk(s.info[id], s.idCount, s.vvNew, None, id);
    var b := GetTriedBucket(s.key, s.info[id]);
    TriedBucketGrows(s, u, before, id, b);
    RecordStep(s, u, before, id, u.vvTried[b := u.vvTried[b] + [|before|]], Unplaced(s.info[id], |before|),
               TriedStep(u, Written(s.info[id])));
  }

  /** No tried record is lost. */
  lemma {:induction false} LoadedTriedIs(s: Tables, t: Tables, ids: seq<int>, records: seq<Record>, more: seq<int>)
    requires Consistent(s) && PartLoaded(s, t, ids) && Distinct(ids + more) && RecordsOf(s.info, records, more)
    requires forall k :: 0 <= k < |more| ==> more[k] in s.info && s.info[more[k]].inTried
    ensures var u := LoadedTried(t, records);
      PartLoaded(s, u, ids + more) && u.nNew == t.nNew && u.nTried == t.nTried + |more|
  {
    if more == [] {
      assert ids + more == ids;
    } else {
      var n, id := |more| - 1, Last(more);
      var before := ids + Front(more);
      assert ids + more == before + [id];
      DistinctSplit(before, id);
      LoadedTriedIs(s, t, ids, Front(records), Front(more));
      assert records[n] == Written(s.info[id]);
      TriedStepIs(s, LoadedTried(t, Front(records)), before, id);
    }
  }

  // ---------- the new buckets ----------

  lemma {:induction false} LoadedBucketIs(info: Infos, q: seq<int>)
    requires Distinct(q) && forall k :: 0 <= k < |q| ==> q[k] in info && info[q[k]].refCount < NEW_BUCKETS_PER_ADDRESS
    ensures var (i, s) := LoadedBucket(info, q, true);
      && i.Keys == info.Keys && Members(q) == s
      && forall n :: n in info ==> i[n] == info[n].(refCount := info[n].refCount + if n in q then 1 else 0)
  {
    if q != [] {
      assert q == Front(q) + [Last(q)];
      LoadedBucketIs(info, Front(q));
    }
  }

  /** Counting up the references bucket by bucket: none is refused. */
  ghost predicate BucketsLoaded(s: Tables, t: Tables, u: Tables, ids: seq<int>, buckets: seq<seq<int>>) {
    && |buckets| <= |s.vvNew| == |u.vvNew| == |t.vvNew| && u.info.Keys == t.info.Keys
    && (forall n :: n in t.info ==>
         u.info[n] == t.info[n].(refCount := t.info[n].refCount + RefsOf(s.vvNew[..|buckets|], ids, n)))
    && (forall b :: 0 <= b < |buckets| ==> u.vvNew[b] == Members(buckets[b]))
    && (forall b :: |buckets| <= b < |u.vvNew| ==> u.vvNew[b] == t.vvNew[b])
  }

  function RefsOf(vvNew: seq<set<int>>, ids: seq<int>, n: int): nat {
    if 0 <= n < |ids| then Refs(vvNew, ids[n]) else 0
  }

  /** An id in the next bucket has not reached the maximum yet. */
  lemma NotRefused(s: Tables, ids: seq<int>, q: seq<int>, n: nat, k: int)
    requires Consistent(s) && n < |s.vvNew| && BucketWritten(q, ids, s.vvNew[n]) && k in q
    requires forall i :: 0 <= i < |ids| ==> ids[i] in s.info
    ensures 0 <= k < |ids| && Refs(s.vvNew[..n], ids[k]) < NEW_BUCKETS_PER_ADDRESS
  {
    var x, after := ids[k], s.vvNew[..n + 1];
    assert EntryOk(s.info[x], s.idCount, s.vvNew, None, x);
    assert Front(after) == s.vvNew[..n] && Last(after) == s.vvNew[n];
    RefsGrow(s.vvNew, n + 1, x);
  }

  lemma RefsOfNext(vvNew: seq<set<int>>, ids: seq<int>, q: seq<int>, n: nat, k: int)
    requires n < |vvNew| && BucketWritten(q, ids, vvNew[n])
    ensures RefsOf(vvNew[..n + 1], ids, k) == RefsOf(vvNew[..n], ids, k) + if k in q then 1 else 0
  {
    var after := vvNew[..n + 1];
    assert Front(after) == vvNew[..n] && Last(after) == vvNew[n];
  }

  /** Every reference of the next bucket is counted. */
  lemma NextCounted(s: Tables, t: Tables, u: Tables, ids: seq<int>, front: seq<seq<int>>, q: seq<int>)
    requires Consistent(s) && BucketsLoaded(s, t, u, ids, front) && |front| < |s.vvNew|
    requires forall k :: 0 <= k < |ids| ==> ids[k] in s.info && k in t.info && t.info[k].refCount == 0
    requires BucketWritten(q, ids, s.vvNew[|front|])
    ensures var (i, members) := LoadedBucket(u.info, q, true);
      && i.Keys == u.info.Keys && members == Members(q)
      && forall n :: n in u.info ==> i[n] == u.info[n].(refCount := u.info[n].refCount + if n in q then 1 else 0)
  {
    forall j | 0 <= j < |q| ensures q[j] in u.info && u.info[q[j]].refCount < NEW_BUCKETS_PER_ADDRESS {
      NotRefused(s, ids, q, |front|, q[j]);
    }
    LoadedBucketIs(u.info, q);
  }

  lemma BucketsLoadedNext(s: Tables, t: Tables, u: Tables, ids: seq<int>, front: seq<seq<int>>, q: seq<int>,
                          info: Infos)
    requires BucketsLoaded(s, t, u, ids, front) && |front| < |s.vvNew|
    requires BucketWritten(q, ids, s.vvNew[|front|]) && info.Keys == u.info.Keys
    requires forall n :: n in u.info ==>
               info[n] == u.info[n].(refCount := u.info[n].refCount + if n in q then 1 else 0)
    ensures BucketsLoaded(s, t, u.(info := info, vvNew := u.vvNew[|front| := Members(q)]), ids, front + [q])
  {
    forall k
      ensures RefsOf(s.vvNew[..|front| + 1], ids, k) == RefsOf(s.vvNew[..|front|], ids, k) + if k in q then 1 else 0
    {
      RefsOfNext(s.vvNew, ids, q, |front|, k);
    }
  }

  lemma {:induction false} LoadedBucketsIs(s: Tables, t: Tables, ids: seq<int>, buckets: seq<seq<int>>)
    requires Consistent(s) && |buckets| <= |s.vvNew| == |t.vvNew|
    requires forall k :: 0 <= k < |ids| ==> ids[k] in s.info && k in t.info && t.info[k].refCount == 0
    requires forall b :: 0 <= b < |buckets| ==> BucketWritten(buckets[b], ids, s.vvNew[b])
    ensures BucketsLoaded(s, t, LoadedBuckets(t, buckets, true), ids, buckets)
  {
    if buckets == [] {
      assert s.vvNew[..0] == [];
    } else {
      var front, q := Front(buckets), Last(buckets);
      FrontAndLast(buckets);
      assert forall b :: 0 <= b < |front| ==> front[b] == buckets[b];
      LoadedBucketsIs(s, t, ids, front);
      var u := LoadedBuckets(t, front, true);
      NextCounted(s, t, u, ids, front, q);
      BucketsLoadedNext(s, t, u, ids, front, q, LoadedBucket(u.info, q, true).0);
    }
  }

  // ---------- the round trip ----------

  lemma FreshMembers(s: Tables, newOrder: seq<int>, triedOrder: seq<int>, indexes: seq<int>, b: nat)
    requires Consistent(s) && b < |s.vvNew| && BucketWritten(indexes, newOrder, s.vvNew[b])
    requires Lists(newOrder, NewIds(s.info)) && Lists(triedOrder, TriedIds(s.info))
    ensures SameMembers(Members(indexes), s.vvNew[b], newOrder + triedOrder)
  {
    var ids := newOrder + triedOrder;
    assert NewBucketOk(s.info, s.vvNew[b]);
    forall x | x in s.vvNew[b] ensures x in ids { assert x in NewIds(s.info); assert x in newOrder; }
    forall i | 0 <= i < |ids| ensures i in Members(indexes) <==> ids[i] in s.vvNew[b] {
      if i >= |newOrder| {
        var x := ids[i];
        assert x == triedOrder[i - |newOrder|];
        assert x in triedOrder;
        assert x in TriedIds(s.info);
      }
    }
  }

  lemma TriedMembers(s: Tables, t: Tables, ids: seq<int>, b: nat)
    requires Consistent(s) && PartLoaded(s, t, ids) && b < |s.vvTried| && Lists(ids, s.info.Keys)
    ensures SameTriedBucket(t.vvTried[b], s.vvTried[b], ids)
  {
    var a, bucket := t.vvTried[b], s.vvTried[b];
    assert TriedBucketOk(s.key, s.info, bucket, b) && PlacedBucket(a, bucket, ids);
    forall x | x in Members(bucket) ensures x in ids {
      assert x in bucket;
      assert InTriedSlot(s.key, s.info, x, b);
    }
    SameSize(Members(a), Members(bucket), ids);
    ListSize(a, Members(a));
    ListSize(bucket, Members(bucket));
  }

  lemma AllIds(info: Infos, newOrder: seq<int>, triedOrder: seq<int>)
    requires Lists(newOrder, NewIds(info)) && Lists(triedOrder, TriedIds(info))
    ensures Lists(newOrder + triedOrder, info.Keys)
  {
    forall x | x in newOrder ensures x !in triedOrder { assert x in NewIds(info); }
    DistinctConcat(newOrder, triedOrder);
    forall x ensures x in newOrder + triedOrder <==> x in info.Keys {
      assert x in newOrder <==> x in NewIds(info);
      assert x in triedOrder <==> x in TriedIds(info);
    }
  }

  lemma ListedKinds(info: Infos, newOrder: seq<int>, triedOrder: seq<int>)
    requires Lists(newOrder, NewIds(info)) && Lists(triedOrder, TriedIds(info))
    ensures forall k :: 0 <= k < |newOrder| ==> newOrder[k] in info && !info[newOrder[k]].inTried
    ensures forall k :: 0 <= k < |triedOrder| ==> triedOrder[k] in info && info[triedOrder[k]].inTried
  {
    forall k | 0 <= k < |newOrder| ensures newOrder[k] in info && !info[newOrder[k]].inTried {
      var x := newOrder[k];
      assert x in newOrder;
      assert x in NewIds(info);
    }
    forall k | 0 <= k < |triedOrder| ensures triedOrder[k] in info && info[triedOrder[k]].inTried {
      var x := triedOrder[k];
      assert x in triedOrder;
      assert x in TriedIds(info);
    }
  }

  lemma PartsOf(s: Tables, f: File, newOrder: seq<int>, triedOrder: seq<int>)
    requires Consistent(s) && Saved(s, f, newOrder, triedOrder)
    ensures var t := LoadedTried(NewPart(f), f.triedRecords);
      PartLoaded(s, t, newOrder + triedOrder) && t.nNew == |newOrder| == s.nNew && t.nTried == |triedOrder| == s.nTried
  {
    AllIds(s.info, newOrder, triedOrder);
    ListedKinds(s.info, newOrder, triedOrder);
    LoadedNewIs(s, f.newRecords, newOrder);
    LoadedTriedIs(s, NewPart(f), newOrder, f.triedRecords, triedOrder);
    ListSize(newOrder, NewIds(s.info));
    ListSize(triedOrder, TriedIds(s.info));
  }

  lemma EntryRestored(s: Tables, t: Tables, u: Tables, newOrder: seq<int>, triedOrder: seq<int>,
                      buckets: seq<seq<int>>, i: nat)
    requires Consistent(s) && PartLoaded(s, t, newOrder + triedOrder) && i < |newOrder + triedOrder|
    requires BucketsLoaded(s, t, u, newOrder, buckets) && |buckets| == |s.vvNew|
    requires i >= |newOrder| ==> s.info[(newOrder + triedOrder)[i]].inTried
    ensures RestoredAt(s.info, u.info, newOrder + triedOrder, i)
  {
    var x := (newOrder + triedOrder)[i];
    assert s.vvNew[..|buckets|] == s.vvNew;
    assert EntryOk(s.info[x], s.idCount, s.vvNew, None, x);
  }

  lemma LoadedEntries(s: Tables, t: Tables, u: Tables, f: File, newOrder: seq<int>, triedOrder: seq<int>)
    requires Consistent(s) && Saved(s, f, newOrder, triedOrder)
    requires PartLoaded(s, t, newOrder + triedOrder) && BucketsLoaded(s, t, u, newOrder, f.buckets)
    ensures forall i :: 0 <= i < |newOrder + triedOrder| ==> RestoredAt(s.info, u.info, newOrder + triedOrder, i)
  {
    var ids := newOrder + triedOrder;
    forall i | 0 <= i < |ids| ensures RestoredAt(s.info, u.info, ids, i) {
      if i >= |newOrder| {
        var x := triedOrder[i - |newOrder|];
        assert x in triedOrder;
        assert x in TriedIds(s.info);
      }
      EntryRestored(s, t, u, newOrder, triedOrder, f.buckets, i);
    }
  }

  lemma LoadedMembers(s: Tables, t: Tables, u: Tables, f: File, newOrder: seq<int>, triedOrder: seq<int>)
    requires Consistent(s) && Saved(s, f, newOrder, triedOrder)
    requires PartLoaded(s, t, newOrder + triedOrder) && BucketsLoaded(s, t, u, newOrder, f.buckets)
    requires Lists(newOrder + triedOrder, s.info.Keys) && u.vvTried == t.vvTried
    ensures forall b :: 0 <= b < |u.vvNew| ==> SameMembers(u.vvNew[b], s.vvNew[b], newOrder + triedOrder)
    ensures forall b :: 0 <= b < |u.vvTried| ==> SameTriedBucket(u.vvTried[b], s.vvTried[b], newOrder + triedOrder)
  {
    var ids := newOrder + triedOrder;
    forall b | 0 <= b < |u.vvNew| ensures SameMembers(u.vvNew[b], s.vvNew[b], ids) {
      assert BucketWritten(f.buckets[b], newOrder, s.vvNew[b]);
      FreshMembers(s, newOrder, triedOrder, f.buckets[b], b);
    }
    forall b | 0 <= b < |u.vvTried| ensures SameTriedBucket(u.vvTried[b], s.vvTried[b], ids) {
      TriedMembers(s, t, ids, b);
    }
  }

  /** Loading a saved file loses nothing, and the result is consistent. */
  lemma LoadedIsSame(s: Tables, f: File, newOrder: seq<int>, triedOrder: seq<int>)
    requires Consistent(s) && Saved(s, f, newOrder, triedOrder)
    ensures SameUpToIds(s, Loaded(f), newOrder + triedOrder) && Consistent(Loaded(f))
  {
    var t := LoadedTried(NewPart(f), f.triedRecords);
    PartsOf(s, f, newOrder, triedOrder);
    AllIds(s.info, newOrder, triedOrder);
    NewEntries(s, t, newOrder, triedOrder);
    LoadedBucketsIs(s, t, newOrder, f.buckets);
    MatchesSaved(s, t, Loaded(f), f, newOrder, triedOrder);
    RenumberedIsConsistent(s, Loaded(f), newOrder + triedOrder);
  }

  lemma NewEntries(s: Tables, t: Tables, newOrder: seq<int>, triedOrder: seq<int>)
    requires PartLoaded(s, t, newOrder + triedOrder)
    ensures forall k :: 0 <= k < |newOrder| ==> newOrder[k] in s.info && k in t.info && t.info[k].refCount == 0
  {
    var ids := newOrder + triedOrder;
    forall k | 0 <= k < |newOrder| ensures newOrder[k] in s.info && k in t.info && t.info[k].refCount == 0 {
      assert ids[k] == newOrder[k];
    }
  }

  lemma MatchesSaved(s: Tables, t: Tables, u: Tables, f: File, newOrder: seq<int>, triedOrder: seq<int>)
    requires Consistent(s) && Saved(s, f, newOrder, triedOrder) && Lists(newOrder + triedOrder, s.info.Keys)
    requires PartLoaded(s, t, newOrder + triedOrder) && BucketsLoaded(s, t, u, newOrder, f.buckets)
    requires t.nNew == s.nNew && t.nTried == s.nTried && u == t.(info := u.info, vvNew := u.vvNew)
    ensures SameUpToIds(s, u, newOrder + triedOrder)
  {
    LoadedEntries(s, t, u, f, newOrder, triedOrder);
    LoadedMembers(s, t, u, f, newOrder, triedOrder);
    LoadedAddr(s, t, u, newOrder + triedOrder);
  }

  lemma LoadedAddr(s: Tables, t: Tables, u: Tables, ids: seq<int>)
    requires PartLoaded(s, t, ids) && u.info.Keys == t.info.Keys && u.addr == t.addr
    requires forall n :: n in t.info ==> u.info[n] == t.info[n].(refCount := u.info[n].refCount)
    ensures AddrOk(u.info, u.addr)
  {
    forall ip | ip in u.addr ensures u.addr[ip] in u.info && u.info[u.addr[ip]].ip == ip {
      var n := t.addr[ip];
      assert n in t.info;
    }
  }

  /** Saving one address manager and loading it into another. */
  method SaveAndLoad(am: AddrMan, into: AddrMan) returns (ghost ids: seq<int>)
    requires am.Valid()
    modifies into
    ensures into.Valid() && SameUpToIds(old(am.Abs()), into.Abs(), ids)
  {
    ghost var s := am.Abs();
    var f := Save(am);
    ghost var newOrder, triedOrder :| Saved(s, f, newOrder, triedOrder);
    LoadedIsSame(s, f, newOrder, triedOrder);
    Load(into, f);
    ids := newOrder + triedOrder;
  }
}
