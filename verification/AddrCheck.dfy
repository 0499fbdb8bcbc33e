/** The executable self-check of the address manager, and what passing it means. */
module AddrCheck {
  import opened Basics
  import opened AddrTables
  import opened Ascend

  /** What indexing mapAddr yields: a missing address reads as 0. */
  function Lookup(addr: map<NetAddr, int>, ip: NetAddr): int {
    if ip in addr then addr[ip] else 0
  }

  predicate EntryPasses(e: AddrInfo, addr: map<NetAddr, int>, random: seq<int>, id: int) {
    && (if e.inTried then e.lastSuccess != 0 && e.refCount == 0 else 1 <= e.refCount <= NEW_BUCKETS_PER_ADDRESS)
    && Lookup(addr, e.ip) == id
    && 0 <= e.randomPos < |random| && random[e.randomPos] == id
    && 0 <= e.lastTry && 0 <= e.lastSuccess
  }

  ghost predicate AddressesIn(info: Infos, addr: map<NetAddr, int>) {
    forall id :: id in info ==> info[id].ip in addr
  }

  function Flat(vvTried: seq<seq<int>>): seq<int> {
    if vvTried == [] then [] else Flat(Front(vvTried)) + Last(vvTried)
  }

  /** q lists the elements of s, each once. */
  ghost predicate Lists(q: seq<int>, s: set<int>) {
    Distinct(q) && forall x :: x in q <==> x in s
  }

  ghost predicate CountsAre(vvNew: seq<set<int>>, counts: map<int, int>) {
    forall id :: Refs(vvNew, id) == CountOf(counts, id)
  }

  function CountOf(counts: map<int, int>, id: int): int { if id in counts then counts[id] else 0 }

  function RefCounts(info: Infos): map<int, int> {
    map id | id in NewIds(info) :: info[id].refCount
  }

  ghost predicate PassesCheck(s: Tables) {
    && |s.random| == s.nTried + s.nNew
    && (forall id :: id in s.info ==> EntryPasses(s.info[id], s.addr, s.random, id))
    && |TriedIds(s.info)| == s.nTried && |NewIds(s.info)| == s.nNew
    && Lists(Flat(s.vvTried), TriedIds(s.info))
    && CountsAre(s.vvNew, RefCounts(s.info))
  }

  // ---------- every consistent state passes ----------

  lemma {:induction false} FlatMembers(vvTried: seq<seq<int>>, x: int)
    ensures x in Flat(vvTried) <==> exists b :: 0 <= b < |vvTried| && x in vvTried[b]
  {
    if vvTried != [] {
      FlatMembers(Front(vvTried), x);
      assert x in Last(vvTried) ==> x in vvTried[|vvTried| - 1];
      assert forall b :: 0 <= b < |vvTried| - 1 ==> Front(vvTried)[b] == vvTried[b];
    }
  }

  /** Buckets without repetition and without common elements flatten to a list without repetition. */
  lemma {:induction false} FlatDistinct(key: Key, info: Infos, vvTried: seq<seq<int>>)
    requires forall b :: 0 <= b < |vvTried| ==> TriedBucketOk(key, info, vvTried[b], b)
    ensures Distinct(Flat(vvTried))
  {
    if vvTried != [] {
      var front, n := Front(vvTried), |vvTried| - 1;
      forall b | 0 <= b < |front| ensures TriedBucketOk(key, info, front[b], b) {
        assert TriedBucketOk(key, info, vvTried[b], b);
      }
      FlatDistinct(key, info, front);
      forall x | x in Flat(front) ensures x !in Last(vvTried) {
        FlatMembers(front, x);
        var b :| 0 <= b < |front| && x in front[b];
        assert InTriedSlot(key, info, x, b);
        assert TriedBucketOk(key, info, vvTried[n], n);
        assert x in vvTried[n] ==> InTriedSlot(key, info, x, n);
      }
      assert TriedBucketOk(key, info, vvTried[n], n);
      DistinctConcat(Flat(front), Last(vvTried));
    }
  }

  lemma DistinctConcat(a: seq<int>, b: seq<int>)
    requires Distinct(a) && Distinct(b) && forall x :: x in a ==> x !in b
    ensures Distinct(a + b)
  {
    forall i, j | 0 <= i < j < |a + b| ensures (a + b)[i] != (a + b)[j] {
      assert i < |a| <= j ==> a[i] in a && b[j - |a|] in b;
    }
  }

  lemma ConsistentEntriesPass(s: Tables)
    requires Consistent(s)
    ensures forall id :: id in s.info ==> EntryPasses(s.info[id], s.addr, s.random, id)
  {
    forall id | id in s.info ensures EntryPasses(s.info[id], s.addr, s.random, id) {
      assert EntryOk(s.info[id], s.idCount, s.vvNew, None, id);
      assert RandomAt(s.info, s.random, id);
    }
  }

  lemma ConsistentCounts(info: Infos, idCount: int, vvNew: seq<set<int>>)
    requires EntriesOk(info, idCount, vvNew, None) && FreshOk(info, vvNew)
    ensures CountsAre(vvNew, RefCounts(info))
  {
    forall id ensures Refs(vvNew, id) == CountOf(RefCounts(info), id) {
      if id in info {
        assert EntryOk(info[id], idCount, vvNew, None, id);
      } else {
        forall b | 0 <= b < |vvNew| ensures id !in vvNew[b] { assert NewBucketOk(info, vvNew[b]); }
        RefsZero(vvNew, id);
      }
    }
  }

  lemma ConsistentLists(key: Key, info: Infos, vvTried: seq<seq<int>>)
    requires TriedOk(key, info, vvTried)
    ensures Lists(Flat(vvTried), TriedIds(info))
  {
    FlatDistinct(key, info, vvTried);
    forall x ensures x in Flat(vvTried) <==> x in TriedIds(info) {
      FlatMembers(vvTried, x);
      if x in Flat(vvTried) {
        var b :| 0 <= b < |vvTried| && x in vvTried[b];
        assert TriedBucketOk(key, info, vvTried[b], b);
        assert InTriedSlot(key, info, x, b);
      }
    }
  }

  lemma PartitionSize(info: Infos)
    ensures |info| == |TriedIds(info)| + |NewIds(info)|
  {
    assert TriedIds(info) + NewIds(info) == info.Keys && TriedIds(info) * NewIds(info) == {};
    assert |info| == |info.Keys|;
  }

  /** The invariant kept by every operation implies the one the code checks. */
  lemma ConsistentPasses(s: Tables)
    requires Consistent(s)
    ensures PassesCheck(s)
  {
    PartitionSize(s.info);
    ConsistentEntriesPass(s);
    ConsistentLists(s.key, s.info, s.vvTried);
    ConsistentCounts(s.info, s.idCount, s.vvNew);
  }

  // ---------- the check itself ----------

  /** The tests of one entry.  Reading mapAddr may insert a missing address. */
  method CheckEntry(e: AddrInfo, addr: map<NetAddr, int>, random: seq<int>, n: int)
    returns (code: int, mapAddr: map<NetAddr, int>)
    ensures code == 0 <==> EntryPasses(e, addr, random, n)
    ensures mapAddr == if e.ip in addr then addr else addr[e.ip := 0]
  {
    mapAddr := if e.ip in addr then addr else addr[e.ip := 0];
    if e.inTried {
      if e.lastSuccess == 0 { return -1, mapAddr; }
      if e.refCount != 0 { return -2, mapAddr; }
    } else {
      if e.refCount < 0 || e.refCount > NEW_BUCKETS_PER_ADDRESS { return -3, mapAddr; }
      if e.refCount == 0 { return -4, mapAddr; }
    }
    if mapAddr[e.ip] != n { return -5, mapAddr; }
    if e.randomPos < 0 || e.randomPos >= |random| || random[e.randomPos] != n { return -14, mapAddr; }
    if e.lastTry < 0 { return -6, mapAddr; }
    if e.lastSuccess < 0 { return -8, mapAddr; }
    code := 0;
  }

  ghost predicate Defaulted(a: map<NetAddr, int>, b: map<NetAddr, int>) {
    forall ip :: Lookup(a, ip) == Lookup(b, ip)
  }

  /** How far the loop over mapInfo has come: the entries seen pass and are in the right collection. */
  ghost predicate Visited(info: Infos, addr: map<NetAddr, int>, random: seq<int>, seen: set<int>,
                          mapAddr: map<NetAddr, int>, setTried: set<int>, mapNew: map<int, int>) {
    && seen <= info.Keys && Defaulted(mapAddr, addr)
    && (forall id :: id in seen ==> EntryPasses(info[id], addr, random, id))
    && (AddressesIn(info, addr) ==> mapAddr == addr)
    && (forall id :: id in setTried <==> id in seen && info[id].inTried)
    && (forall id :: id in mapNew <==> id in seen && !info[id].inTried)
    && (forall id :: id in mapNew ==> mapNew[id] == info[id].refCount)
  }

  lemma VisitOne(info: Infos, addr: map<NetAddr, int>, random: seq<int>, seen: set<int>,
                 mapAddr: map<NetAddr, int>, setTried: set<int>, mapNew: map<int, int>, n: int)
    requires Visited(info, addr, random, seen, mapAddr, setTried, mapNew) && n in info
    ensures EntryPasses(info[n], mapAddr, random, n) <==> EntryPasses(info[n], addr, random, n)
    ensures EntryPasses(info[n], addr, random, n) ==>
              Visited(info, addr, random, seen + {n},
                      if info[n].ip in mapAddr then mapAddr else mapAddr[info[n].ip := 0],
                      if info[n].inTried then setTried + {n} else setTried,
                      if info[n].inTried then mapNew else mapNew[n := info[n].refCount])
  {
    assert Lookup(mapAddr, info[n].ip) == Lookup(addr, info[n].ip);
  }

  lemma VisitedAll(info: Infos, addr: map<NetAddr, int>, random: seq<int>,
                   mapAddr: map<NetAddr, int>, setTried: set<int>, mapNew: map<int, int>)
    requires Visited(info, addr, random, info.Keys, mapAddr, setTried, mapNew)
    ensures setTried == TriedIds(info) && mapNew == RefCounts(info)
    ensures forall id :: id in info ==> EntryPasses(info[id], addr, random, id)
  {
    SameElements(setTried, TriedIds(info));
    SameElements(mapNew.Keys, NewIds(info));
    assert mapNew.Keys == RefCounts(info).Keys;
    assert forall id :: id in mapNew ==> mapNew[id] == RefCounts(info)[id];
  }

  /** The loop over mapInfo. */
  method CheckEntries(info: Infos, addr: map<NetAddr, int>, random: seq<int>)
    returns (code: int, mapAddr: map<NetAddr, int>, setTried: set<int>, mapNew: map<int, int>)
    ensures code == 0 <==> forall id :: id in info ==> EntryPasses(info[id], addr, random, id)
    ensures code == 0 ==> setTried == TriedIds(info) && mapNew == RefCounts(info)
    ensures AddressesIn(info, addr) ==> mapAddr == addr
  {
    mapAddr, setTried, mapNew := addr, {}, map[];
    ghost var seen: set<int> := {};
    var order := Ascending(info.Keys);
    for i := 0 to |order|
      invariant forall id :: id in order[..i] <==> id in seen
      invariant Visited(info, addr, random, seen, mapAddr, setTried, mapNew)
    {
      var n := order[i];
      var e := info[n];
      assert order[..i + 1] == order[..i] + [n];
      VisitOne(info, addr, random, seen, mapAddr, setTried, mapNew, n);
      code, mapAddr := CheckEntry(e, mapAddr, random, n);
      if code != 0 { return; }
      seen := seen + {n};
      if e.inTried {
        setTried := setTried + {n};
      } else {
        mapNew := mapNew[n := e.refCount];
      }
    }
    assert order[..|order|] == order;
    SameElements(seen, info.Keys);
    VisitedAll(info, addr, random, mapAddr, setTried, mapNew);
    code := 0;
  }

  lemma {:induction false} FlatPrefix(vvTried: seq<seq<int>>, n: nat, k: nat)
    requires n < |vvTried| && k <= |vvTried[n]|
    ensures Flat(vvTried[..n]) + vvTried[n][..k] <= Flat(vvTried)
  {
    if n == |vvTried| - 1 {
      assert vvTried[..n] == Front(vvTried);
      assert vvTried[n][..k] <= vvTried[n];
    } else {
      assert Front(vvTried)[..n] == vvTried[..n];
      FlatPrefix(Front(vvTried), n, k);
    }
  }

  /** The loop over the tried buckets, crossing ids off the set of tried entries. */
  method CheckTriedBuckets(vvTried: seq<seq<int>>, tried: set<int>) returns (code: int)
    ensures code == 0 <==> Lists(Flat(vvTried), tried)
  {
    var setTried := tried;
    for n := 0 to |vvTried|
      invariant Distinct(Flat(vvTried[..n]))
      invariant forall x :: x in setTried <==> x in tried && x !in Flat(vvTried[..n])
      invariant forall x :: x in Flat(vvTried[..n]) ==> x in tried
    {
      var vTried := vvTried[n];
      ghost var flat := Flat(vvTried[..n]);
      assert vTried[..0] == [] && flat + [] == flat;
      for k := 0 to |vTried|
        invariant Distinct(flat + vTried[..k])
        invariant forall x :: x in setTried <==> x in tried && x !in flat + vTried[..k]
        invariant forall x :: x in flat + vTried[..k] ==> x in tried
      {
        var id := vTried[k];
        assert flat + vTried[..k + 1] == flat + vTried[..k] + [id];
        if id !in setTried {
          FlatPrefix(vvTried, n, k + 1);
          NotListed(Flat(vvTried), flat + vTried[..k], id, tried);
          return -11;
        }
        setTried := setTried - {id};
      }
      assert Front(vvTried[..n + 1]) == vvTried[..n] && vTried[..|vTried|] == vTried;
    }
    assert vvTried[..|vvTried|] == vvTried;
    if setTried != {} {
      SomeElement(setTried);
      return -13;
    }
    code := 0;
  }

  lemma NotListed(q: seq<int>, prefix: seq<int>, id: int, s: set<int>)
    requires prefix + [id] <= q && (id in prefix || id !in s)
    ensures !Lists(q, s)
  {
    assert q[|prefix|] == id;
    if id in prefix {
      var i :| 0 <= i < |prefix| && prefix[i] == id;
      assert q[i] == id;
    }
  }

  lemma {:induction false} RefsGrow(vvNew: seq<set<int>>, n: nat, id: int)
    requires n <= |vvNew|
    ensures Refs(vvNew[..n], id) <= Refs(vvNew, id)
    decreases |vvNew| - n
  {
    if n < |vvNew| {
      assert Front(vvNew[..n + 1]) == vvNew[..n];
      RefsGrow(vvNew, n + 1, id);
    } else {
      assert vvNew[..n] == vvNew;
    }
  }

  /** The references met in the first n buckets and in the part seen of the next one. */
  function Met(vvNew: seq<set<int>>, seen: seq<int>, id: int): nat {
    Refs(vvNew, id) + if id in seen then 1 else 0
  }

  ghost predicate RemainingAt(mapNew: map<int, int>, counts: map<int, int>, vvNew: seq<set<int>>, seen: seq<int>,
                              id: int) {
    CountOf(mapNew, id) == CountOf(counts, id) - Met(vvNew, seen, id)
  }

  /** mapNew holds what is left of the counts. */
  ghost predicate Remaining(mapNew: map<int, int>, counts: map<int, int>, vvNew: seq<set<int>>, seen: seq<int>) {
    && (forall id :: RemainingAt(mapNew, counts, vvNew, seen, id))
    && (forall id :: id in mapNew ==> mapNew[id] > 0)
  }

  /** The loop over the new buckets, counting down the references of the new entries. */
  method CheckNewBuckets(vvNew: seq<set<int>>, counts: map<int, int>) returns (code: int)
    requires forall id :: id in counts ==> counts[id] > 0
    ensures code == 0 <==> CountsAre(vvNew, counts)
  {
    var mapNew := counts;
    assert forall id :: RemainingAt(mapNew, counts, [], [], id);
    for n := 0 to |vvNew|
      invariant Remaining(mapNew, counts, vvNew[..n], [])
    {
      var order := Ascending(vvNew[n]);
      assert order[..0] == [];
      for k := 0 to |order|
        invariant Remaining(mapNew, counts, vvNew[..n], order[..k])
      {
        var id := order[k];
        assert id !in order[..k] && order[..k + 1] == order[..k] + [id];
        if id !in mapNew {
          assert RemainingAt(mapNew, counts, vvNew[..n], order[..k], id);
          assert Front(vvNew[..n + 1]) == vvNew[..n];
          RefsGrow(vvNew, n + 1, id);
          return -12;
        }
        mapNew := CountDown(mapNew, counts, vvNew[..n], order[..k], id);
      }
      assert order[..|order|] == order;
      BucketDone(mapNew, counts, vvNew[..n], vvNew[n], order);
      assert vvNew[..n] + [vvNew[n]] == vvNew[..n + 1];
    }
    assert vvNew[..|vvNew|] == vvNew;
    if mapNew != map[] {
      assert mapNew.Keys != {};
      SomeElement(mapNew.Keys);
      var id :| id in mapNew.Keys;
      assert RemainingAt(mapNew, counts, vvNew, [], id) && CountOf(mapNew, id) > 0;
      return -15;
    }
    NothingRemains(counts, vvNew);
    code := 0;
  }

  method CountDown(m: map<int, int>, counts: map<int, int>, ghost vvNew: seq<set<int>>, ghost seen: seq<int>, id: int)
    returns (mapNew: map<int, int>)
    requires Remaining(m, counts, vvNew, seen) && id in m && id !in seen
    ensures Remaining(mapNew, counts, vvNew, seen + [id])
  {
    mapNew := m[id := m[id] - 1];
    if mapNew[id] == 0 { mapNew := mapNew - {id}; }
    forall x ensures RemainingAt(mapNew, counts, vvNew, seen + [id], x) {
      assert RemainingAt(m, counts, vvNew, seen, x);
    }
  }

  lemma BucketDone(mapNew: map<int, int>, counts: map<int, int>, vvNew: seq<set<int>>, bucket: set<int>,
                   order: seq<int>)
    requires forall x :: x in order <==> x in bucket
    requires Remaining(mapNew, counts, vvNew, order)
    ensures Remaining(mapNew, counts, vvNew + [bucket], [])
  {
    var grown := vvNew + [bucket];
    assert Front(grown) == vvNew;
    forall x ensures RemainingAt(mapNew, counts, grown, [], x) {
      assert RemainingAt(mapNew, counts, vvNew, order, x);
      assert x in order <==> x in bucket;
    }
  }

  lemma NothingRemains(counts: map<int, int>, vvNew: seq<set<int>>)
    requires Remaining(map[], counts, vvNew, [])
    ensures CountsAre(vvNew, counts)
  {
    forall id ensures Refs(vvNew, id) == CountOf(counts, id) { assert RemainingAt(map[], counts, vvNew, [], id); }
  }
}
