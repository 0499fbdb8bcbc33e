/** The tables of the address manager, as values, and the elementary updates its operations are made of. */
module AddrTables {
  import opened Basics

  const TRIED_BUCKET_COUNT := 64
  const TRIED_BUCKET_SIZE := 64
  const NEW_BUCKET_COUNT := 256
  const NEW_BUCKET_SIZE := 64
  const NEW_BUCKETS_PER_ADDRESS := 4

  /** An IP address, without port. */
  type NetAddr = nat

  /** The service bits that are set. */
  datatype Services = Services(bits: set<nat>) {
    function With(more: Services): Services { Services(bits + more.bits) }
  }

  /** What a peer advertises. */
  datatype Address = Address(ip: NetAddr, port: nat, services: Services, time: nat)

  /** The secret key enters only through two keyed hashes: one of an address with its port, one of an
      address with the source it was heard from. */
  datatype Key = Key(triedHash: (NetAddr, nat) -> nat, newHash: (NetAddr, NetAddr) -> nat)

  datatype AddrInfo = AddrInfo(
    ip: NetAddr, port: nat, services: Services, time: nat, source: NetAddr,
    lastSuccess: int, lastTry: int, attempts: int,
    refCount: int, inTried: bool, randomPos: int)

  function GetTriedBucket(key: Key, a: AddrInfo): (b: nat)
    ensures b < TRIED_BUCKET_COUNT
  {
    key.triedHash(a.ip, a.port) % TRIED_BUCKET_COUNT
  }

  function GetNewBucket(key: Key, a: AddrInfo, source: NetAddr): (b: nat)
    ensures b < NEW_BUCKET_COUNT
  {
    key.newHash(a.ip, source) % NEW_BUCKET_COUNT
  }

  /** vvTried and vvNew are the buckets, random is vRandom. */
  datatype Tables = Tables(
    key: Key, idCount: int, info: map<int, AddrInfo>, addr: map<NetAddr, int>, random: seq<int>,
    nTried: int, vvTried: seq<seq<int>>, nNew: int, vvNew: seq<set<int>>)

  type Infos = map<int, AddrInfo>

  function TriedIds(info: Infos): set<int> { set id | id in info && info[id].inTried }

  function NewIds(info: Infos): set<int> { set id | id in info && !info[id].inTried }

  /** In how many buckets an id occurs. */
  function Refs(vvNew: seq<set<int>>, id: int): nat {
    if vvNew == [] then 0 else Refs(Front(vvNew), id) + if id in Last(vvNew) then 1 else 0
  }

  // ---------- the invariant ----------

  ghost predicate RandomAt(info: Infos, random: seq<int>, id: int)
    requires id in info
  {
    0 <= info[id].randomPos < |random| && random[info[id].randomPos] == id
  }

  ghost predicate RandomSlot(info: Infos, random: seq<int>, i: nat)
    requires i < |random|
  {
    random[i] in info && info[random[i]].randomPos == i
  }

  /** vRandom lists every id once, at the position its entry records. */
  ghost predicate RandomOk(info: Infos, random: seq<int>) {
    && |random| == |info|
    && (forall id :: id in info ==> RandomAt(info, random, id))
    && (forall i :: 0 <= i < |random| ==> RandomSlot(info, random, i))
  }

  /** mapAddr finds exactly the addresses of the entries. */
  ghost predicate AddrOk(info: Infos, addr: map<NetAddr, int>) {
    && (forall id :: id in info ==> info[id].ip in addr && addr[info[id].ip] == id)
    && (forall ip :: ip in addr ==> addr[ip] in info && info[addr[ip]].ip == ip)
  }

  ghost predicate InTriedSlot(key: Key, info: Infos, id: int, b: nat) {
    id in info && info[id].inTried && GetTriedBucket(key, info[id]) == b
  }

  ghost predicate TriedBucketOk(key: Key, info: Infos, bucket: seq<int>, b: nat) {
    |bucket| <= TRIED_BUCKET_SIZE && Distinct(bucket) && forall id :: id in bucket ==> InTriedSlot(key, info, id, b)
  }

  /** Tried buckets are small, without repetition, and hold exactly the tried ids, each in its own bucket. */
  ghost predicate TriedOk(key: Key, info: Infos, vvTried: seq<seq<int>>) {
    && |vvTried| == TRIED_BUCKET_COUNT
    && (forall b :: 0 <= b < |vvTried| ==> TriedBucketOk(key, info, vvTried[b], b))
    && (forall id :: id in info && info[id].inTried ==> id in vvTried[GetTriedBucket(key, info[id])])
  }

  ghost predicate NewBucketOk(info: Infos, bucket: set<int>) {
    |bucket| <= NEW_BUCKET_SIZE && forall id :: id in bucket ==> id in info && !info[id].inTried
  }

  ghost predicate FreshOk(info: Infos, vvNew: seq<set<int>>) {
    |vvNew| == NEW_BUCKET_COUNT && forall b :: 0 <= b < |vvNew| ==> NewBucketOk(info, vvNew[b])
  }

  /** The reference count of an entry; the id in pending, if any, counts one bucket it is about to enter. */
  ghost predicate EntryOk(e: AddrInfo, idCount: int, vvNew: seq<set<int>>, pending: Option<int>, id: int) {
    && 0 <= id < idCount && 0 <= e.lastTry && 0 <= e.lastSuccess
    && e.refCount == Refs(vvNew, id) + (if pending == Some(id) then 1 else 0)
    && (e.inTried ==> e.refCount == 0 && e.lastSuccess > 0)
    && (!e.inTried ==> 1 <= e.refCount <= NEW_BUCKETS_PER_ADDRESS)
  }

  ghost predicate EntriesOk(info: Infos, idCount: int, vvNew: seq<set<int>>, pending: Option<int>) {
    forall id :: id in info ==> EntryOk(info[id], idCount, vvNew, pending, id)
  }

  ghost predicate Almost(s: Tables, pending: Option<int>) {
    && 0 <= s.idCount
    && RandomOk(s.info, s.random)
    && AddrOk(s.info, s.addr)
    && TriedOk(s.key, s.info, s.vvTried)
    && FreshOk(s.info, s.vvNew)
    && EntriesOk(s.info, s.idCount, s.vvNew, pending)
    && s.nTried == |TriedIds(s.info)| && s.nNew == |NewIds(s.info)|
  }

  ghost predicate Consistent(s: Tables) { Almost(s, None) }

  // ---------- counting buckets ----------

  lemma {:induction false} RefsUpdate(vvNew: seq<set<int>>, b: nat, bucket: set<int>, id: int)
    requires b < |vvNew|
    ensures Refs(vvNew[b := bucket], id) ==
            Refs(vvNew, id) - (if id in vvNew[b] then 1 else 0) + (if id in bucket then 1 else 0)
  {
    if b < |vvNew| - 1 {
      assert Front(vvNew[b := bucket]) == Front(vvNew)[b := bucket];
      RefsUpdate(Front(vvNew), b, bucket, id);
    } else {
      assert Front(vvNew[b := bucket]) == Front(vvNew);
    }
  }

  lemma {:induction false} RefsZero(vvNew: seq<set<int>>, id: int)
    ensures Refs(vvNew, id) == 0 <==> forall b :: 0 <= b < |vvNew| ==> id !in vvNew[b]
  {
    if vvNew != [] {
      RefsZero(Front(vvNew), id);
      if Refs(vvNew, id) == 0 {
        forall b | 0 <= b < |vvNew| ensures id !in vvNew[b] {
          if b < |vvNew| - 1 { assert Front(vvNew)[b] == vvNew[b]; }
        }
      } else if id !in Last(vvNew) {
        var b :| 0 <= b < |Front(vvNew)| && id in Front(vvNew)[b];
        assert id in vvNew[b];
      } else {
        assert id in vvNew[|vvNew| - 1];
      }
    }
  }

  // ---------- elementary updates ----------

  function SetInfo(s: Tables, id: int, e: AddrInfo): Tables { s.(info := s.info[id := e]) }

  /** A new entry, at the end of vRandom. */
  function Created(s: Tables, a: Address, source: NetAddr): Tables {
    var e := AddrInfo(a.ip, a.port, a.services, a.time, source, 0, 0, 0, 0, false, |s.random|);
    s.(idCount := s.idCount + 1, info := s.info[s.idCount := e],
       addr := s.addr[a.ip := s.idCount], random := s.random + [s.idCount])
  }

  predicate Positions(s: Tables, i: int, j: int) {
    0 <= i < |s.random| && 0 <= j < |s.random| && s.random[i] in s.info && s.random[j] in s.info
  }

  function Swapped(s: Tables, i: int, j: int): Tables
    requires Positions(s, i, j)
  {
    if i == j then s else
      var a, b := s.random[i], s.random[j];
      var info1 := s.info[a := s.info[a].(randomPos := j)];
      s.(info := info1[b := info1[b].(randomPos := i)], random := s.random[i := b][j := a])
  }

  /** Drops the entry at the end of vRandom from all indexes but the buckets. */
  function Dropped(s: Tables, id: int): Tables
    requires id in s.info && s.random != []
  {
    s.(random := Front(s.random), addr := s.addr - {s.info[id].ip}, info := s.info - {id}, nNew := s.nNew - 1)
  }

  /** Deletes an entry: moves it to the end of vRandom and drops it. */
  function Erased(s: Tables, id: int): Tables
    requires id in s.info && Positions(s, s.info[id].randomPos, |s.random| - 1)
  {
    Dropped(Swapped(s, s.info[id].randomPos, |s.random| - 1), id)
  }

  /** Takes one reference away, and deletes the entry with its last one. */
  function Unreferenced(s: Tables, id: int): Tables
    requires id in s.info && Positions(s, s.info[id].randomPos, |s.random| - 1)
  {
    var e := s.info[id];
    var t := SetInfo(s, id, e.(refCount := e.refCount - 1));
    if e.refCount - 1 == 0 then Erased(t, id) else t
  }

  /** Removes an id from a new bucket. */
  function Removed(s: Tables, b: nat, id: int): Tables
    requires b < |s.vvNew| && id in s.info && Positions(s, s.info[id].randomPos, |s.random| - 1)
  {
    var t := Unreferenced(s, id);
    t.(vvNew := t.vvNew[b := t.vvNew[b] - {id}])
  }

  function Inserted(s: Tables, b: nat, id: int): Tables
    requires b < |s.vvNew|
  {
    s.(vvNew := s.vvNew[b := s.vvNew[b] + {id}])
  }

  // ---------- fields that an index does not depend on may change ----------

  /** Same ids, with the same addresses and the same tried flags. */
  ghost predicate SameIdentity(a: Infos, b: Infos) {
    a.Keys == b.Keys && forall id :: id in a ==> SameEntry(a[id], b[id])
  }

  ghost predicate SameEntry(x: AddrInfo, y: AddrInfo) {
    x.ip == y.ip && x.port == y.port && x.inTried == y.inTried
  }

  lemma IdentityFrames(key: Key, a: Infos, b: Infos, addr: map<NetAddr, int>, vvTried: seq<seq<int>>,
                       vvNew: seq<set<int>>)
    requires SameIdentity(a, b)
    ensures |a| == |b| && TriedIds(a) == TriedIds(b) && NewIds(a) == NewIds(b)
    ensures AddrOk(a, addr) ==> AddrOk(b, addr)
    ensures FreshOk(a, vvNew) ==> FreshOk(b, vvNew)
  {
    assert |a| == |a.Keys| && |b| == |b.Keys|;
    forall id | id in a ensures SameEntry(a[id], b[id]) {}
    if FreshOk(a, vvNew) {
      forall i | 0 <= i < |vvNew| ensures NewBucketOk(b, vvNew[i]) { assert NewBucketOk(a, vvNew[i]); }
    }
  }

  lemma TriedFrame(key: Key, a: Infos, b: Infos, vvTried: seq<seq<int>>)
    requires SameIdentity(a, b) && TriedOk(key, a, vvTried)
    ensures TriedOk(key, b, vvTried)
  {
    forall i | 0 <= i < |vvTried| ensures TriedBucketOk(key, b, vvTried[i], i) {
      assert TriedBucketOk(key, a, vvTried[i], i);
      forall id | id in vvTried[i] ensures InTriedSlot(key, b, id, i) { assert InTriedSlot(key, a, id, i); }
    }
  }

  lemma RandomFrame(a: Infos, b: Infos, random: seq<int>)
    requires a.Keys == b.Keys && (forall id :: id in a ==> a[id].randomPos == b[id].randomPos) && RandomOk(a, random)
    ensures RandomOk(b, random)
  {
    assert |a| == |a.Keys| && |b| == |b.Keys|;
    forall id | id in b ensures RandomAt(b, random, id) { assert RandomAt(a, random, id); }
    forall i | 0 <= i < |random| ensures RandomSlot(b, random, i) {
      var id := random[i];
      assert RandomSlot(a, random, i) && a[id].randomPos == b[id].randomPos;
    }
  }

  /** Times, services and attempts may change freely; the reference count follows the buckets. */
  lemma TouchKeeps(s: Tables, pending: Option<int>, id: int, e: AddrInfo)
    requires Almost(s, pending) && id in s.info
    requires SameEntry(s.info[id], e) && e.randomPos == s.info[id].randomPos && e.refCount == s.info[id].refCount
    requires 0 <= e.lastTry && 0 <= e.lastSuccess && (e.inTried ==> e.lastSuccess > 0)
    ensures Almost(SetInfo(s, id, e), pending)
  {
    var info' := s.info[id := e];
    assert SameIdentity(s.info, info');
    IdentityFrames(s.key, s.info, info', s.addr, s.vvTried, s.vvNew);
    TriedFrame(s.key, s.info, info', s.vvTried);
    RandomFrame(s.info, info', s.random);
  }

  function Reserved(s: Tables, id: int): Tables
    requires id in s.info
  {
    SetInfo(s, id, s.info[id].(refCount := s.info[id].refCount + 1))
  }

  lemma ReserveEntries(info: Infos, idCount: int, vvNew: seq<set<int>>, id: int)
    requires EntriesOk(info, idCount, vvNew, None) && id in info
    requires !info[id].inTried && info[id].refCount < NEW_BUCKETS_PER_ADDRESS
    ensures EntriesOk(info[id := info[id].(refCount := info[id].refCount + 1)], idCount, vvNew, Some(id))
  {
    var info' := info[id := info[id].(refCount := info[id].refCount + 1)];
    forall x | x in info' ensures EntryOk(info'[x], idCount, vvNew, Some(id), x) {
      assert EntryOk(info[x], idCount, vvNew, None, x);
    }
  }

  /** One more reference, for a bucket the entry is about to enter. */
  lemma ReserveKeeps(s: Tables, id: int)
    requires Consistent(s) && id in s.info && !s.info[id].inTried && s.info[id].refCount < NEW_BUCKETS_PER_ADDRESS
    ensures Almost(Reserved(s, id), Some(id))
  {
    ReserveEntries(s.info, s.idCount, s.vvNew, id);
    var t := Reserved(s, id);
    assert SameIdentity(s.info, t.info);
    IdentityFrames(s.key, s.info, t.info, s.addr, s.vvTried, s.vvNew);
    TriedFrame(s.key, s.info, t.info, s.vvTried);
    RandomFrame(s.info, t.info, s.random);
  }

  // ---------- vRandom ----------

  lemma SwapRandomOk(s: Tables, i: int, j: int)
    requires RandomOk(s.info, s.random) && Positions(s, i, j)
    ensures var t := Swapped(s, i, j);
      && RandomOk(t.info, t.random) && SameIdentity(s.info, t.info)
      && t == s.(info := t.info, random := t.random)
      && (forall id :: id in s.info ==> t.info[id] == s.info[id].(randomPos := t.info[id].randomPos))
      && t.info[s.random[i]].randomPos == j && multiset(t.random) == multiset(s.random)
  {
    var t := Swapped(s, i, j);
    assert RandomSlot(s.info, s.random, i) && RandomSlot(s.info, s.random, j);
    if i != j {
      assert |t.info| == |t.info.Keys| && |s.info| == |s.info.Keys| && t.info.Keys == s.info.Keys;
      forall id | id in t.info ensures RandomAt(t.info, t.random, id) { assert RandomAt(s.info, s.random, id); }
      forall k | 0 <= k < |t.random| ensures RandomSlot(t.info, t.random, k) {
        assert RandomSlot(s.info, s.random, k);
      }
    }
  }

  lemma SwapKeeps(s: Tables, pending: Option<int>, i: int, j: int)
    requires Almost(s, pending) && Positions(s, i, j)
    ensures Almost(Swapped(s, i, j), pending)
  {
    var t := Swapped(s, i, j);
    SwapRandomOk(s, i, j);
    IdentityFrames(s.key, s.info, t.info, s.addr, s.vvTried, s.vvNew);
    TriedFrame(s.key, s.info, t.info, s.vvTried);
    forall x | x in t.info ensures EntryOk(t.info[x], t.idCount, t.vvNew, pending, x) {
      assert EntryOk(s.info[x], s.idCount, s.vvNew, pending, x);
    }
  }

  lemma PositionsOk(s: Tables, id: int)
    requires RandomOk(s.info, s.random) && id in s.info
    ensures s.random != [] && Positions(s, s.info[id].randomPos, |s.random| - 1)
  {
    assert RandomAt(s.info, s.random, id);
    assert RandomSlot(s.info, s.random, |s.random| - 1);
  }

  // ---------- deleting an entry ----------

  lemma DropRandom(info: Infos, random: seq<int>, id: int)
    requires RandomOk(info, random) && id in info && info[id].randomPos == |random| - 1
    ensures RandomOk(info - {id}, Front(random))
  {
    var info', random' := info - {id}, Front(random);
    assert info'.Keys == info.Keys - {id} && |info'| == |info'.Keys| && |info| == |info.Keys|;
    assert RandomAt(info, random, id);
    forall x | x in info' ensures RandomAt(info', random', x) { assert RandomAt(info, random, x); }
    forall k | 0 <= k < |random'| ensures RandomSlot(info', random', k) { assert RandomSlot(info, random, k); }
  }

  lemma DropTried(key: Key, info: Infos, vvTried: seq<seq<int>>, id: int)
    requires TriedOk(key, info, vvTried) && id in info && !info[id].inTried
    ensures TriedOk(key, info - {id}, vvTried)
  {
    forall i | 0 <= i < |vvTried| ensures TriedBucketOk(key, info - {id}, vvTried[i], i) {
      assert TriedBucketOk(key, info, vvTried[i], i);
      forall x | x in vvTried[i] ensures InTriedSlot(key, info - {id}, x, i) { assert InTriedSlot(key, info, x, i); }
    }
  }

  lemma DropFresh(info: Infos, vvNew: seq<set<int>>, b: nat, id: int)
    requires FreshOk(info, vvNew) && b < |vvNew| && id in vvNew[b] && Refs(vvNew, id) == 1
    ensures FreshOk(info - {id}, vvNew[b := vvNew[b] - {id}])
  {
    var vvNew' := vvNew[b := vvNew[b] - {id}];
    RefsUpdate(vvNew, b, vvNew[b] - {id}, id);
    RefsZero(vvNew', id);
    forall i | 0 <= i < |vvNew'| ensures NewBucketOk(info - {id}, vvNew'[i]) {
      assert NewBucketOk(info, vvNew[i]) && id !in vvNew'[i];
    }
  }

  lemma DropCounts(info: Infos, id: int)
    requires id in info && !info[id].inTried
    ensures TriedIds(info - {id}) == TriedIds(info) && NewIds(info - {id}) == NewIds(info) - {id} && id in NewIds(info)
  {
  }

  lemma DropAddr(info: Infos, addr: map<NetAddr, int>, id: int)
    requires AddrOk(info, addr) && id in info
    ensures AddrOk(info - {id}, addr - {info[id].ip})
  {
  }

  lemma DropEntries(info: Infos, info': Infos, idCount: int, vvNew: seq<set<int>>, b: nat, id: int,
                    pending: Option<int>)
    requires EntriesOk(info, idCount, vvNew, pending) && b < |vvNew|
    requires info'.Keys == info.Keys - {id} && pending != Some(id)
    requires forall x :: x in info' ==> info'[x] == info[x].(randomPos := info'[x].randomPos)
    ensures EntriesOk(info', idCount, vvNew[b := vvNew[b] - {id}], pending)
  {
    forall x | x in info' ensures EntryOk(info'[x], idCount, vvNew[b := vvNew[b] - {id}], pending, x) {
      assert EntryOk(info[x], idCount, vvNew, pending, x);
      RefsUpdate(vvNew, b, vvNew[b] - {id}, x);
    }
  }

  /** The entry at the end of vRandom, with one reference, leaves all indexes. */
  lemma DropKeeps(s: Tables, pending: Option<int>, b: nat, id: int)
    requires RandomOk(s.info, s.random) && AddrOk(s.info, s.addr) && TriedOk(s.key, s.info, s.vvTried)
    requires FreshOk(s.info, s.vvNew) && 0 <= s.idCount
    requires s.nTried == |TriedIds(s.info)| && s.nNew == |NewIds(s.info)|
    requires id in s.info && !s.info[id].inTried && b < |s.vvNew| && id in s.vvNew[b] && Refs(s.vvNew, id) == 1
    requires s.info[id].randomPos == |s.random| - 1 && s.random != []
    ensures var t := Dropped(s, id).(vvNew := s.vvNew[b := s.vvNew[b] - {id}]);
      EntriesOk(t.info, t.idCount, t.vvNew, pending) ==> Almost(t, pending)
  {
    DropRandom(s.info, s.random, id);
    DropAddr(s.info, s.addr, id);
    DropTried(s.key, s.info, s.vvTried, id);
    DropFresh(s.info, s.vvNew, b, id);
    DropCounts(s.info, id);
  }

  /** The entry without its last reference, moved to the end of vRandom. */
  function AtEnd(s: Tables, id: int): Tables
    requires id in s.info && Positions(s, s.info[id].randomPos, |s.random| - 1)
  {
    Swapped(SetInfo(s, id, s.info[id].(refCount := 0)), s.info[id].randomPos, |s.random| - 1)
  }

  /** t differs from s in the order of vRandom and in the last reference of id, now at the end. */
  ghost predicate EndReady(s: Tables, t: Tables, id: int) {
    && t == s.(info := t.info, random := t.random) && RandomOk(t.info, t.random)
    && SameIdentity(s.info, t.info) && id in t.info && t.random != [] && t.info[id].randomPos == |t.random| - 1
    && forall x :: x in s.info && x != id ==> t.info[x] == s.info[x].(randomPos := t.info[x].randomPos)
  }

  /** The reference count has no part in the order of vRandom. */
  lemma CountCleared(s: Tables, id: int)
    requires RandomOk(s.info, s.random) && id in s.info
    ensures var s0 := SetInfo(s, id, s.info[id].(refCount := 0));
      RandomOk(s0.info, s0.random) && SameIdentity(s.info, s0.info) && RandomAt(s.info, s.random, id)
  {
    RandomFrame(s.info, SetInfo(s, id, s.info[id].(refCount := 0)).info, s.random);
  }

  lemma MovedToEnd(s: Tables, id: int)
    requires RandomOk(s.info, s.random) && id in s.info && Positions(s, s.info[id].randomPos, |s.random| - 1)
    ensures EndReady(s, AtEnd(s, id), id)
  {
    var s0 := SetInfo(s, id, s.info[id].(refCount := 0));
    CountCleared(s, id);
    SwapRandomOk(s0, s.info[id].randomPos, |s.random| - 1);
    IdentityChains(s.info, s0.info, AtEnd(s, id).info);
  }

  lemma DropReady(s: Tables, t: Tables, pending: Option<int>, b: nat, id: int)
    requires Almost(s, pending) && EndReady(s, t, id) && !s.info[id].inTried
    requires b < |s.vvNew| && id in s.vvNew[b] && Refs(s.vvNew, id) == 1 && pending != Some(id)
    ensures Almost(Dropped(t, id).(vvNew := s.vvNew[b := s.vvNew[b] - {id}]), pending)
  {
    assert SameEntry(s.info[id], t.info[id]);
    IdentityFrames(s.key, s.info, t.info, s.addr, s.vvTried, s.vvNew);
    TriedFrame(s.key, s.info, t.info, s.vvTried);
    DropKeeps(t, pending, b, id);
    DropEntries(s.info, t.info - {id}, s.idCount, s.vvNew, b, id, pending);
  }

  lemma RemovedLast(s: Tables, b: nat, id: int)
    requires id in s.info && b < |s.vvNew| && s.info[id].refCount == 1
    requires Positions(s, s.info[id].randomPos, |s.random| - 1)
    ensures var t := AtEnd(s, id);
      id in t.info && t.random != [] && Removed(s, b, id) == Dropped(t, id).(vvNew := s.vvNew[b := s.vvNew[b] - {id}])
  {
  }

  /** Deleting the last reference of an entry together with the entry. */
  lemma EraseLast(s: Tables, pending: Option<int>, b: nat, id: int)
    requires Almost(s, pending) && id in s.info && b < |s.vvNew| && id in s.vvNew[b] && pending != Some(id)
    requires s.info[id].refCount == 1
    requires Positions(s, s.info[id].randomPos, |s.random| - 1)
    ensures Almost(Removed(s, b, id), pending)
  {
    assert NewBucketOk(s.info, s.vvNew[b]) && EntryOk(s.info[id], s.idCount, s.vvNew, pending, id);
    MovedToEnd(s, id);
    DropReady(s, AtEnd(s, id), pending, b, id);
    RemovedLast(s, b, id);
  }

  lemma IdentityChains(a: Infos, b: Infos, c: Infos)
    requires SameIdentity(a, b) && SameIdentity(b, c)
    ensures SameIdentity(a, c)
  {
    forall x | x in a ensures SameEntry(a[x], c[x]) { assert SameEntry(b[x], c[x]); }
  }

  lemma DropReference(s: Tables, pending: Option<int>, b: nat, id: int)
    requires Almost(s, pending) && id in s.info && b < |s.vvNew| && id in s.vvNew[b] && pending != Some(id)
    requires s.info[id].refCount != 1
    requires Positions(s, s.info[id].randomPos, |s.random| - 1)
    ensures Almost(Removed(s, b, id), pending)
  {
    assert NewBucketOk(s.info, s.vvNew[b]) && EntryOk(s.info[id], s.idCount, s.vvNew, pending, id);
    var t := Removed(s, b, id);
    assert SameIdentity(s.info, t.info);
    IdentityFrames(s.key, s.info, t.info, s.addr, s.vvTried, s.vvNew);
    TriedFrame(s.key, s.info, t.info, s.vvTried);
    RandomFrame(s.info, t.info, s.random);
    forall i | 0 <= i < |t.vvNew| ensures NewBucketOk(t.info, t.vvNew[i]) { assert NewBucketOk(t.info, s.vvNew[i]); }
    forall x | x in t.info ensures EntryOk(t.info[x], t.idCount, t.vvNew, pending, x) {
      assert EntryOk(s.info[x], s.idCount, s.vvNew, pending, x);
      RefsUpdate(s.vvNew, b, s.vvNew[b] - {id}, x);
    }
  }

  /** Taking an id out of a new bucket keeps the tables consistent, also while another id is pending. */
  lemma RemoveKeeps(s: Tables, pending: Option<int>, b: nat, id: int)
    requires Almost(s, pending) && b < |s.vvNew| && id in s.vvNew[b] && pending != Some(id)
    ensures id in s.info && s.random != [] && Positions(s, s.info[id].randomPos, |s.random| - 1)
    ensures Almost(Removed(s, b, id), pending)
  {
    assert NewBucketOk(s.info, s.vvNew[b]);
    PositionsOk(s, id);
    if s.info[id].refCount == 1 { EraseLast(s, pending, b, id); } else { DropReference(s, pending, b, id); }
  }

  // ---------- adding ----------

  lemma InsertKeeps(s: Tables, b: nat, id: int)
    requires Almost(s, Some(id)) && id in s.info && !s.info[id].inTried
    requires b < |s.vvNew| && id !in s.vvNew[b] && |s.vvNew[b]| < NEW_BUCKET_SIZE
    ensures Consistent(Inserted(s, b, id))
  {
    var t := Inserted(s, b, id);
    forall i | 0 <= i < |t.vvNew| ensures NewBucketOk(t.info, t.vvNew[i]) { assert NewBucketOk(s.info, s.vvNew[i]); }
    forall x | x in t.info ensures EntryOk(t.info[x], t.idCount, t.vvNew, None, x) {
      assert EntryOk(s.info[x], s.idCount, s.vvNew, Some(id), x);
      RefsUpdate(s.vvNew, b, s.vvNew[b] + {id}, x);
    }
  }

  lemma CreateRandom(info: Infos, random: seq<int>, id: int, e: AddrInfo)
    requires RandomOk(info, random) && id !in info && e.randomPos == |random|
    ensures RandomOk(info[id := e], random + [id])
  {
    var info', random' := info[id := e], random + [id];
    assert info'.Keys == info.Keys + {id} && |info'| == |info'.Keys| && |info| == |info.Keys|;
    forall x | x in info' ensures RandomAt(info', random', x) { assert x != id ==> RandomAt(info, random, x); }
    forall k | 0 <= k < |random'| ensures RandomSlot(info', random', k) {
      assert k < |random| ==> RandomSlot(info, random, k);
    }
  }

  lemma CreateTried(key: Key, info: Infos, vvTried: seq<seq<int>>, id: int, e: AddrInfo)
    requires TriedOk(key, info, vvTried) && id !in info && !e.inTried
    ensures TriedOk(key, info[id := e], vvTried)
  {
    forall i | 0 <= i < |vvTried| ensures TriedBucketOk(key, info[id := e], vvTried[i], i) {
      assert TriedBucketOk(key, info, vvTried[i], i);
      forall x | x in vvTried[i] ensures InTriedSlot(key, info[id := e], x, i) { assert InTriedSlot(key, info, x, i); }
    }
  }

  lemma CreateFresh(info: Infos, vvNew: seq<set<int>>, id: int, e: AddrInfo)
    requires FreshOk(info, vvNew) && id !in info
    ensures FreshOk(info[id := e], vvNew) && Refs(vvNew, id) == 0
  {
    forall i | 0 <= i < |vvNew| ensures NewBucketOk(info[id := e], vvNew[i]) && id !in vvNew[i] {
      assert NewBucketOk(info, vvNew[i]);
    }
    RefsZero(vvNew, id);
  }

  lemma CreateCounts(info: Infos, id: int, e: AddrInfo)
    requires id !in info && !e.inTried
    ensures TriedIds(info[id := e]) == TriedIds(info) && NewIds(info[id := e]) == NewIds(info) + {id}
  {
  }

  lemma CreateAddr(info: Infos, addr: map<NetAddr, int>, id: int, e: AddrInfo)
    requires AddrOk(info, addr) && id !in info && e.ip !in addr
    ensures AddrOk(info[id := e], addr[e.ip := id])
  {
  }

  lemma UnusedId(s: Tables)
    requires Consistent(s)
    ensures s.idCount !in s.info
  {
  }

  lemma CreateEntries(info: Infos, idCount: int, vvNew: seq<set<int>>, e: AddrInfo)
    requires EntriesOk(info, idCount, vvNew, None) && idCount !in info && 0 <= idCount
    requires Refs(vvNew, idCount) == 0 && e.refCount == 1 && !e.inTried && e.lastTry == 0 && e.lastSuccess == 0
    ensures EntriesOk(info[idCount := e], idCount + 1, vvNew, Some(idCount))
  {
    var info' := info[idCount := e];
    forall x | x in info' ensures EntryOk(info'[x], idCount + 1, vvNew, Some(idCount), x) {
      assert x != idCount ==> EntryOk(info[x], idCount, vvNew, None, x);
    }
  }

  /** A new entry with one pending reference keeps the tables consistent. */
  lemma CreateKeeps(s: Tables, a: Address, source: NetAddr)
    requires Consistent(s) && a.ip !in s.addr
    ensures var id, t := s.idCount, Created(s, a, source);
      id !in s.info && Almost(SetInfo(t, id, t.info[id].(refCount := 1)).(nNew := s.nNew + 1), Some(id))
  {
    UnusedId(s);
    var id, t0 := s.idCount, Created(s, a, source);
    var e := t0.info[id].(refCount := 1);
    var t := SetInfo(t0, id, e).(nNew := s.nNew + 1);
    assert t.info == s.info[id := e];
    CreateRandom(s.info, s.random, id, e);
    CreateAddr(s.info, s.addr, id, e);
    CreateTried(s.key, s.info, s.vvTried, id, e);
    CreateFresh(s.info, s.vvNew, id, e);
    CreateCounts(s.info, id, e);
    CreateEntries(s.info, s.idCount, s.vvNew, e);
  }

  // ---------- promotion to a tried bucket ----------

  function Without(vvNew: seq<set<int>>, id: int): (r: seq<set<int>>)
    ensures |r| == |vvNew|
  {
    seq(|vvNew|, i requires 0 <= i < |vvNew| => vvNew[i] - {id})
  }

  lemma {:induction false} RefsWithout(vvNew: seq<set<int>>, id: int, x: int)
    ensures Refs(Without(vvNew, id), x) == if x == id then 0 else Refs(vvNew, x)
  {
    if vvNew != [] {
      assert Front(Without(vvNew, id)) == Without(Front(vvNew), id);
      RefsWithout(Front(vvNew), id, x);
    }
  }

  function Promoted(e: AddrInfo): AddrInfo { e.(refCount := 0, inTried := true) }

  function Demoted(e: AddrInfo): AddrInfo { e.(refCount := 1, inTried := false) }

  /** id leaves its new buckets for the free place in its tried bucket. */
  function MovedToTried(s: Tables, id: int): Tables
    requires id in s.info && |s.vvTried| == TRIED_BUCKET_COUNT
  {
    var b := GetTriedBucket(s.key, s.info[id]);
    s.(vvNew := Without(s.vvNew, id), nNew := s.nNew - 1, nTried := s.nTried + 1,
       vvTried := s.vvTried[b := s.vvTried[b] + [id]], info := s.info[id := Promoted(s.info[id])])
  }

  /** The new bucket an evicted entry goes to: its own if there is room, else the one the promoted id came from. */
  function EvictionTarget(s: Tables, id: int, origin: nat, old': int): nat
    requires old' in s.info && |s.vvNew| == NEW_BUCKET_COUNT
  {
    var b := GetNewBucket(s.key, s.info[old'], s.info[old'].source);
    if |Without(s.vvNew, id)[b]| < NEW_BUCKET_SIZE then b else origin
  }

  /** id takes the place pos of its full tried bucket; the entry there goes back to a new bucket. */
  function Exchanged(s: Tables, id: int, origin: nat, pos: nat): Tables
    requires id in s.info && |s.vvTried| == TRIED_BUCKET_COUNT && |s.vvNew| == NEW_BUCKET_COUNT
             && origin < NEW_BUCKET_COUNT
    requires pos < |s.vvTried[GetTriedBucket(s.key, s.info[id])]|
    requires s.vvTried[GetTriedBucket(s.key, s.info[id])][pos] in s.info
  {
    var b := GetTriedBucket(s.key, s.info[id]);
    var old' := s.vvTried[b][pos];
    var w, target := Without(s.vvNew, id), EvictionTarget(s, id, origin, old');
    s.(vvNew := w[target := w[target] + {old'}], vvTried := s.vvTried[b := s.vvTried[b][pos := id]],
       info := s.info[old' := Demoted(s.info[old'])][id := Promoted(s.info[id])])
  }

  /** Replacing one tried bucket, when the tried ids change accordingly. */
  lemma ReplaceTried(key: Key, info: Infos, info': Infos, vvTried: seq<seq<int>>, b: nat, bucket: seq<int>,
                     gone: set<int>)
    requires TriedOk(key, info, vvTried) && b < |vvTried| && info'.Keys == info.Keys
    requires TriedBucketOk(key, info', bucket, b)
    requires forall x :: x in info && x !in bucket && x !in gone ==> SameEntry(info[x], info'[x])
    requires forall x :: x in vvTried[b] ==> x in bucket || x in gone
    requires forall x :: x in gone ==> x in vvTried[b] && !info'[x].inTried
    requires forall x :: x in bucket ==> x in info && (info[x].inTried ==> x in vvTried[b])
    ensures TriedOk(key, info', vvTried[b := bucket])
  {
    assert TriedBucketOk(key, info, vvTried[b], b);
    var vvTried' := vvTried[b := bucket];
    forall i | 0 <= i < |vvTried'| ensures TriedBucketOk(key, info', vvTried'[i], i) {
      assert TriedBucketOk(key, info, vvTried[i], i);
      if i != b {
        forall x | x in vvTried[i] ensures InTriedSlot(key, info', x, i) {
          assert InTriedSlot(key, info, x, i);
          assert x in vvTried[b] ==> InTriedSlot(key, info, x, b);
        }
      }
    }
    forall x | x in info' && info'[x].inTried ensures x in vvTried'[GetTriedBucket(key, info'[x])] {
      assert x in bucket ==> InTriedSlot(key, info', x, b);
    }
  }

  lemma MoveFresh(info: Infos, info': Infos, vvNew: seq<set<int>>, id: int)
    requires FreshOk(info, vvNew) && info'.Keys == info.Keys
    requires forall x :: x in info && x != id && !info[x].inTried ==> !info'[x].inTried
    ensures FreshOk(info', Without(vvNew, id))
  {
    forall i | 0 <= i < |vvNew| ensures NewBucketOk(info', Without(vvNew, id)[i]) {
      assert NewBucketOk(info, vvNew[i]);
    }
  }

  lemma FrameAddrRandom(info: Infos, info': Infos, addr: map<NetAddr, int>, random: seq<int>)
    requires AddrOk(info, addr) && RandomOk(info, random) && info'.Keys == info.Keys
    requires forall x :: x in info ==> info'[x].ip == info[x].ip && info'[x].randomPos == info[x].randomPos
    ensures AddrOk(info', addr) && RandomOk(info', random)
  {
    RandomFrame(info, info', random);
    forall ip | ip in addr
      ensures addr[ip] in info' && info'[addr[ip]].ip == ip
    {
      var x := addr[ip];
      assert x in info;
    }
  }

  lemma MoveCounts(info: Infos, id: int)
    requires id in info && !info[id].inTried
    ensures TriedIds(info[id := Promoted(info[id])]) == TriedIds(info) + {id} && id !in TriedIds(info)
    ensures NewIds(info[id := Promoted(info[id])]) == NewIds(info) - {id} && id in NewIds(info)
  {
  }

  lemma MoveTried(key: Key, info: Infos, info': Infos, vvTried: seq<seq<int>>, id: int)
    requires TriedOk(key, info, vvTried) && id in info && !info[id].inTried
    requires info' == info[id := Promoted(info[id])]
    requires |vvTried[GetTriedBucket(key, info[id])]| < TRIED_BUCKET_SIZE
    ensures var b := GetTriedBucket(key, info[id]); TriedOk(key, info', vvTried[b := vvTried[b] + [id]])
  {
    var b := GetTriedBucket(key, info[id]);
    var bucket := vvTried[b] + [id];
    assert TriedBucketOk(key, info, vvTried[b], b);
    assert id in vvTried[b] ==> InTriedSlot(key, info, id, b);
    forall x | x in bucket ensures InTriedSlot(key, info', x, b) {
      assert x in vvTried[b] ==> InTriedSlot(key, info, x, b);
    }
    ReplaceTried(key, info, info', vvTried, b, bucket, {});
  }

  lemma MoveEntries(info: Infos, idCount: int, vvNew: seq<set<int>>, id: int)
    requires EntriesOk(info, idCount, vvNew, None) && id in info && info[id].lastSuccess > 0
    ensures EntriesOk(info[id := Promoted(info[id])], idCount, Without(vvNew, id), None)
  {
    var info' := info[id := Promoted(info[id])];
    forall x | x in info' ensures EntryOk(info'[x], idCount, Without(vvNew, id), None, x) {
      assert EntryOk(info[x], idCount, vvNew, None, x);
      RefsWithout(vvNew, id, x);
    }
  }

  lemma MoveOldParts(s: Tables, id: int)
    requires RandomOk(s.info, s.random) && AddrOk(s.info, s.addr) && TriedOk(s.key, s.info, s.vvTried)
    requires id in s.info && !s.info[id].inTried
    requires |s.vvTried[GetTriedBucket(s.key, s.info[id])]| < TRIED_BUCKET_SIZE
    ensures var info', b := s.info[id := Promoted(s.info[id])], GetTriedBucket(s.key, s.info[id]);
      RandomOk(info', s.random) && AddrOk(info', s.addr) && TriedOk(s.key, info', s.vvTried[b := s.vvTried[b] + [id]])
  {
    var info' := s.info[id := Promoted(s.info[id])];
    FrameAddrRandom(s.info, info', s.addr, s.random);
    MoveTried(s.key, s.info, info', s.vvTried, id);
  }

  lemma MoveNewParts(s: Tables, id: int)
    requires FreshOk(s.info, s.vvNew) && EntriesOk(s.info, s.idCount, s.vvNew, None)
    requires id in s.info && !s.info[id].inTried && s.info[id].lastSuccess > 0
    ensures var info' := s.info[id := Promoted(s.info[id])];
      && FreshOk(info', Without(s.vvNew, id)) && EntriesOk(info', s.idCount, Without(s.vvNew, id), None)
      && |TriedIds(info')| == |TriedIds(s.info)| + 1 && |NewIds(info')| == |NewIds(s.info)| - 1
  {
    MoveCounts(s.info, id);
    MoveFresh(s.info, s.info[id := Promoted(s.info[id])], s.vvNew, id);
    MoveEntries(s.info, s.idCount, s.vvNew, id);
  }

  lemma MoveKeeps(s: Tables, id: int)
    requires Consistent(s) && id in s.info && !s.info[id].inTried && s.info[id].lastSuccess > 0
    requires |s.vvTried[GetTriedBucket(s.key, s.info[id])]| < TRIED_BUCKET_SIZE
    ensures Consistent(MovedToTried(s, id))
  {
    MoveOldParts(s, id);
    MoveNewParts(s, id);
  }

  // ---------- promotion with eviction ----------

  lemma ExchangeTried(key: Key, info: Infos, info': Infos, vvTried: seq<seq<int>>, id: int, pos: nat)
    requires TriedOk(key, info, vvTried) && id in info && !info[id].inTried
    requires var b := GetTriedBucket(key, info[id]);
      pos < |vvTried[b]| && vvTried[b][pos] in info &&
      info' == info[vvTried[b][pos] := Demoted(info[vvTried[b][pos]])][id := Promoted(info[id])]
    ensures var b := GetTriedBucket(key, info[id]); TriedOk(key, info', vvTried[b := vvTried[b][pos := id]])
  {
    var b := GetTriedBucket(key, info[id]);
    var old', bucket := vvTried[b][pos], vvTried[b][pos := id];
    assert TriedBucketOk(key, info, vvTried[b], b);
    assert InTriedSlot(key, info, old', b);
    assert id in vvTried[b] ==> InTriedSlot(key, info, id, b);
    forall x | x in bucket ensures InTriedSlot(key, info', x, b) && x != old' {
      var k :| 0 <= k < |bucket| && bucket[k] == x;
      assert k != pos ==> vvTried[b][k] == x && InTriedSlot(key, info, x, b);
    }
    forall x | x in vvTried[b] ensures x in bucket || x == old' {
      var k :| 0 <= k < |vvTried[b]| && vvTried[b][k] == x;
      assert k != pos ==> bucket[k] == x;
    }
    forall x | x in bucket ensures x in info && (info[x].inTried ==> x in vvTried[b]) {
      assert InTriedSlot(key, info', x, b);
    }
    assert bucket[pos] == id && id in bucket;
    ReplaceTried(key, info, info', vvTried, b, bucket, {old'});
  }

  lemma ExchangeFresh(info: Infos, info': Infos, vvNew: seq<set<int>>, id: int, old': int, target: nat)
    requires FreshOk(info, vvNew) && old' in info && info[old'].inTried && id != old' && target < |vvNew| && id in info
    requires info' == info[old' := Demoted(info[old'])][id := Promoted(info[id])]
    requires |Without(vvNew, id)[target]| < NEW_BUCKET_SIZE
    ensures FreshOk(info', Without(vvNew, id)[target := Without(vvNew, id)[target] + {old'}])
    ensures old' !in Without(vvNew, id)[target]
  {
    var w := Without(vvNew, id);
    var w' := w[target := w[target] + {old'}];
    forall i | 0 <= i < |w'| ensures NewBucketOk(info', w'[i]) { assert NewBucketOk(info, vvNew[i]); }
    assert NewBucketOk(info, vvNew[target]);
  }

  lemma ExchangeEntries(info: Infos, idCount: int, vvNew: seq<set<int>>, id: int, old': int, target: nat)
    requires EntriesOk(info, idCount, vvNew, None) && id in info && info[id].lastSuccess > 0
    requires old' in info && info[old'].inTried && id != old' && target < |vvNew| && old' !in Without(vvNew, id)[target]
    ensures EntriesOk(info[old' := Demoted(info[old'])][id := Promoted(info[id])], idCount,
                      Without(vvNew, id)[target := Without(vvNew, id)[target] + {old'}], None)
  {
    var info' := info[old' := Demoted(info[old'])][id := Promoted(info[id])];
    var w := Without(vvNew, id);
    var w' := w[target := w[target] + {old'}];
    forall x | x in info' ensures EntryOk(info'[x], idCount, w', None, x) {
      assert EntryOk(info[x], idCount, vvNew, None, x);
      RefsWithout(vvNew, id, x);
      RefsUpdate(w, target, w[target] + {old'}, x);
    }
  }

  lemma ExchangeSize(s: set<int>, x: int, y: int)
    requires x in s && y !in s
    ensures |s - {x} + {y}| == |s|
  {
  }

  lemma ExchangeCounts(info: Infos, id: int, old': int)
    requires id in info && !info[id].inTried && old' in info && info[old'].inTried
    ensures var info' := info[old' := Demoted(info[old'])][id := Promoted(info[id])];
      |TriedIds(info')| == |TriedIds(info)| && |NewIds(info')| == |NewIds(info)|
  {
    var info' := info[old' := Demoted(info[old'])][id := Promoted(info[id])];
    assert TriedIds(info') == TriedIds(info) - {old'} + {id};
    ExchangeSize(TriedIds(info), old', id);
    assert NewIds(info') == NewIds(info) - {id} + {old'};
    ExchangeSize(NewIds(info), id, old');
  }

  /** The bucket that id just left has room. */
  lemma TargetHasRoom(info: Infos, vvNew: seq<set<int>>, id: int, origin: nat)
    requires FreshOk(info, vvNew) && origin < NEW_BUCKET_COUNT && id in vvNew[origin]
    ensures |Without(vvNew, id)[origin]| < NEW_BUCKET_SIZE
  {
    assert NewBucketOk(info, vvNew[origin]) && |Without(vvNew, id)[origin]| == |vvNew[origin]| - 1;
  }

  /** The entry that leaves, and the bucket it goes to. */
  lemma LeavesFor(s: Tables, id: int, origin: nat, pos: nat)
    requires Consistent(s) && id in s.info && !s.info[id].inTried
    requires origin < NEW_BUCKET_COUNT && id in s.vvNew[origin]
    requires pos < |s.vvTried[GetTriedBucket(s.key, s.info[id])]|
    ensures var old' := s.vvTried[GetTriedBucket(s.key, s.info[id])][pos];
      && old' in s.info && s.info[old'].inTried && id != old'
      && var target := EvictionTarget(s, id, origin, old');
        target < |s.vvNew| && |Without(s.vvNew, id)[target]| < NEW_BUCKET_SIZE
  {
    var b := GetTriedBucket(s.key, s.info[id]);
    assert TriedBucketOk(s.key, s.info, s.vvTried[b], b);
    assert InTriedSlot(s.key, s.info, s.vvTried[b][pos], b);
    TargetHasRoom(s.info, s.vvNew, id, origin);
  }

  ghost predicate Leaving(s: Tables, id: int, pos: nat, old': int, target: nat) {
    && id in s.info && !s.info[id].inTried && s.info[id].lastSuccess > 0
    && |s.vvTried| == TRIED_BUCKET_COUNT && pos < |s.vvTried[GetTriedBucket(s.key, s.info[id])]|
    && s.vvTried[GetTriedBucket(s.key, s.info[id])][pos] == old'
    && old' in s.info && s.info[old'].inTried && id != old'
    && target < |s.vvNew| && |Without(s.vvNew, id)[target]| < NEW_BUCKET_SIZE
  }

  lemma ExchangeNewParts(s: Tables, id: int, pos: nat, old': int, target: nat)
    requires FreshOk(s.info, s.vvNew) && EntriesOk(s.info, s.idCount, s.vvNew, None)
             && Leaving(s, id, pos, old', target)
    ensures var info' := s.info[old' := Demoted(s.info[old'])][id := Promoted(s.info[id])];
      var w' := Without(s.vvNew, id)[target := Without(s.vvNew, id)[target] + {old'}];
      FreshOk(info', w') && EntriesOk(info', s.idCount, w', None)
      && |TriedIds(info')| == |TriedIds(s.info)| && |NewIds(info')| == |NewIds(s.info)|
  {
    ExchangeCounts(s.info, id, old');
    ExchangeFresh(s.info, s.info[old' := Demoted(s.info[old'])][id := Promoted(s.info[id])], s.vvNew, id, old', target);
    ExchangeEntries(s.info, s.idCount, s.vvNew, id, old', target);
  }

  lemma ExchangeOldParts(s: Tables, id: int, pos: nat, old': int, target: nat)
    requires RandomOk(s.info, s.random) && AddrOk(s.info, s.addr) && TriedOk(s.key, s.info, s.vvTried)
    requires Leaving(s, id, pos, old', target)
    ensures var info' := s.info[old' := Demoted(s.info[old'])][id := Promoted(s.info[id])];
      var b := GetTriedBucket(s.key, s.info[id]);
      RandomOk(info', s.random) && AddrOk(info', s.addr)
        && TriedOk(s.key, info', s.vvTried[b := s.vvTried[b][pos := id]])
  {
    var info' := s.info[old' := Demoted(s.info[old'])][id := Promoted(s.info[id])];
    FrameAddrRandom(s.info, info', s.addr, s.random);
    ExchangeTried(s.key, s.info, info', s.vvTried, id, pos);
  }

  lemma ExchangeKeeps(s: Tables, id: int, origin: nat, pos: nat)
    requires Consistent(s) && id in s.info && !s.info[id].inTried && s.info[id].lastSuccess > 0
    requires origin < NEW_BUCKET_COUNT && id in s.vvNew[origin]
    requires pos < |s.vvTried[GetTriedBucket(s.key, s.info[id])]|
    ensures s.vvTried[GetTriedBucket(s.key, s.info[id])][pos] in s.info
    ensures Consistent(Exchanged(s, id, origin, pos))
  {
    LeavesFor(s, id, origin, pos);
    var old' := s.vvTried[GetTriedBucket(s.key, s.info[id])][pos];
    var target := EvictionTarget(s, id, origin, old');
    ExchangeOldParts(s, id, pos, old', target);
    ExchangeNewParts(s, id, pos, old', target);
  }

  // ---------- shuffling a tried bucket ----------

  function SwapAt(bucket: seq<int>, i: nat, j: nat): seq<int>
    requires i < |bucket| && j < |bucket|
  {
    bucket[j := bucket[i]][i := bucket[j]]
  }

  lemma OnceInMultiset(s: seq<int>, i: nat, j: nat)
    requires i < j < |s| && s[i] == s[j]
    ensures multiset(s)[s[i]] >= 2
  {
    assert s == s[..j] + [s[j]] + s[j + 1..];
    assert s[i] in s[..j];
  }

  lemma {:induction false} DistinctCounts(s: seq<int>, x: int)
    requires Distinct(s)
    ensures multiset(s)[x] <= 1
  {
    if s != [] {
      assert s == Front(s) + [Last(s)];
      DistinctCounts(Front(s), x);
      if x == Last(s) { assert x !in Front(s); }
    }
  }

  lemma PermutedDistinct(a: seq<int>, b: seq<int>)
    requires multiset(a) == multiset(b) && Distinct(a)
    ensures Distinct(b)
  {
    forall i, j | 0 <= i < j < |b| ensures b[i] != b[j] {
      DistinctCounts(a, b[i]);
      if b[i] == b[j] { OnceInMultiset(b, i, j); }
    }
  }

  /** The order inside a tried bucket is free. */
  lemma ShuffleKeeps(s: Tables, b: nat, bucket: seq<int>)
    requires Consistent(s) && b < |s.vvTried| && multiset(bucket) == multiset(s.vvTried[b])
    ensures Consistent(s.(vvTried := s.vvTried[b := bucket]))
  {
    assert TriedBucketOk(s.key, s.info, s.vvTried[b], b);
    PermutedDistinct(s.vvTried[b], bucket);
    assert |bucket| == |multiset(bucket)| == |s.vvTried[b]|;
    forall x | x in bucket ensures x in s.vvTried[b] && InTriedSlot(s.key, s.info, x, b) {
      assert x in multiset(bucket);
      assert x in multiset(s.vvTried[b]);
      assert InTriedSlot(s.key, s.info, x, b);
    }
    forall x | x in s.vvTried[b]
      ensures x in bucket
    {
      assert x in multiset(s.vvTried[b]);
      assert x in multiset(bucket);
    }
    ReplaceTried(s.key, s.info, s.info, s.vvTried, b, bucket, {});
  }
}
