/** The address manager, updated in place as in the source.  Random numbers, the adjusted time and
    whether an address is routable are inputs. */
module AddrMan {
  import opened Basics
  import opened AddrTables
  import opened Ascend
  import opened AddrCheck

  const TRIED_ENTRIES_INSPECT_ON_EVICT := 4
  const HORIZON_DAYS := 30
  const RETRIES := 3
  const MAX_FAILURES := 10
  const MIN_FAIL_DAYS := 7
  const GETADDR_MAX_PCT := 23
  const GETADDR_MAX := 2500

  function IsTerrible(e: AddrInfo, now: int): bool {
    if e.lastTry != 0 && e.lastTry >= now - 60 then false
    else if e.time > now + 10 * 60 then true
    else if e.time == 0 || now - e.time > HORIZON_DAYS * 86400 then true
    else if e.lastSuccess == 0 && e.attempts >= RETRIES then true
    else now - e.lastSuccess > MIN_FAIL_DAYS * 86400 && e.attempts >= MAX_FAILURES
  }

  /** A random position among those from i on. */
  function Draw(r: nat, n: nat, i: nat): (p: nat)
    requires i < n
    ensures i <= p < n
  {
    r % (n - i) + i
  }

  /** The inspection loop of SelectTried from round i on: the shuffled bucket and the recorded position. */
  function Inspect(bucket: seq<int>, info: Infos, rnd: seq<nat>, i: nat, oldest: Option<int>, pos: int): (seq<int>, int)
    requires |rnd| == TRIED_ENTRIES_INSPECT_ON_EVICT
    requires (forall id :: id in bucket ==> id in info) && (oldest.Some? ==> oldest.value in info)
    decreases |bucket| - i
  {
    if i >= TRIED_ENTRIES_INSPECT_ON_EVICT || i >= |bucket| then (bucket, pos) else
      var nPos := Draw(rnd[i], |bucket|, i);
      var nTemp := bucket[nPos];
      var shuffled := SwapAt(bucket, i, nPos);
      if oldest.None? || info[nTemp].lastSuccess < info[oldest.value].lastSuccess
      then Inspect(shuffled, info, rnd, i + 1, Some(nTemp), nPos)
      else Inspect(shuffled, info, rnd, i + 1, oldest, pos)
  }

  lemma SwapAtPermutes(bucket: seq<int>, i: nat, j: nat)
    requires i < |bucket| && j < |bucket|
    ensures multiset(SwapAt(bucket, i, j)) == multiset(bucket)
    ensures forall id :: id in SwapAt(bucket, i, j) ==> id in bucket
  {
    forall id | id in SwapAt(bucket, i, j) ensures id in bucket {}
  }

  /** SelectTried permutes the bucket and returns a position inside it. */
  lemma {:induction false} InspectPermutes(bucket: seq<int>, info: Infos, rnd: seq<nat>, i: nat, oldest: Option<int>,
                                           pos: int)
    requires |rnd| == TRIED_ENTRIES_INSPECT_ON_EVICT && bucket != []
    requires (forall id :: id in bucket ==> id in info) && (oldest.Some? ==> oldest.value in info)
    requires oldest.None? ==> i == 0
    requires oldest.Some? ==> 0 <= pos < |bucket|
    ensures var (shuffled, p) := Inspect(bucket, info, rnd, i, oldest, pos);
      multiset(shuffled) == multiset(bucket) && 0 <= p < |shuffled|
    decreases |bucket| - i
  {
    if i < TRIED_ENTRIES_INSPECT_ON_EVICT && i < |bucket| {
      var nPos := Draw(rnd[i], |bucket|, i);
      var nTemp := bucket[nPos];
      SwapAtPermutes(bucket, i, nPos);
      if oldest.None? || info[nTemp].lastSuccess < info[oldest.value].lastSuccess {
        InspectPermutes(SwapAt(bucket, i, nPos), info, rnd, i + 1, Some(nTemp), nPos);
      } else {
        InspectPermutes(SwapAt(bucket, i, nPos), info, rnd, i + 1, oldest, pos);
      }
    }
  }

  /** Place w holds the first of the oldest among the first m entries. */
  predicate FirstOldest(info: Infos, s: seq<int>, m: int, w: nat) {
    && w < m <= |s| && (forall k :: 0 <= k < m ==> s[k] in info)
    && (forall k :: 0 <= k < w ==> info[s[w]].lastSuccess < info[s[k]].lastSuccess)
    && (forall k :: w <= k < m ==> info[s[w]].lastSuccess <= info[s[k]].lastSuccess)
  }

  function Inspected(bucket: seq<int>): int { Min(TRIED_ENTRIES_INSPECT_ON_EVICT, |bucket|) }

  lemma InspectedNext(bucket: seq<int>, info: Infos, i: nat, nPos: nat, w: nat)
    requires FirstOldest(info, bucket, i, w) && i <= nPos < |bucket| && forall id :: id in bucket ==> id in info
    ensures var next := SwapAt(bucket, i, nPos);
      && (forall id :: id in next ==> id in info) && next[w] == bucket[w] && next[i] == bucket[nPos] && next[i] in info
      && FirstOldest(info, next, i + 1, if info[next[i]].lastSuccess < info[bucket[w]].lastSuccess then i else w)
  {
    SwapAtPermutes(bucket, i, nPos);
    var next := SwapAt(bucket, i, nPos);
    assert forall k :: 0 <= k < i ==> next[k] == bucket[k];
    assert bucket[nPos] in bucket;
  }

  /** From round i on, when w is the place of the first oldest entry inspected so far. */
  lemma {:induction false} InspectFrom(bucket: seq<int>, info: Infos, rnd: seq<nat>, i: nat, w: nat) returns (w': nat)
    requires |rnd| == TRIED_ENTRIES_INSPECT_ON_EVICT && (forall id :: id in bucket ==> id in info)
    requires i <= TRIED_ENTRIES_INSPECT_ON_EVICT && FirstOldest(info, bucket, i, w)
    ensures var (shuffled, p) := Inspect(bucket, info, rnd, i, Some(bucket[w]), Draw(rnd[w], |bucket|, w));
      && |shuffled| == |bucket| && FirstOldest(info, shuffled, Inspected(bucket), w')
        && p == Draw(rnd[w'], |bucket|, w')
    decreases |bucket| - i
  {
    w' := w;
    if i < Inspected(bucket) {
      var nPos := Draw(rnd[i], |bucket|, i);
      var next := SwapAt(bucket, i, nPos);
      InspectedNext(bucket, info, i, nPos, w);
      assert bucket[nPos] in bucket;
      if info[bucket[nPos]].lastSuccess < info[bucket[w]].lastSuccess { w' := i; }
      w' := InspectFrom(next, info, rnd, i + 1, w');
    }
  }

  /** What SelectTried returns is where the oldest entry it inspected was drawn from, before it was moved to the
      front: so it is the place of that entry exactly if the draw left it where it was. */
  lemma InspectMissesOldest(bucket: seq<int>, info: Infos, rnd: seq<nat>) returns (w: nat)
    requires |rnd| == TRIED_ENTRIES_INSPECT_ON_EVICT && bucket != [] && forall id :: id in bucket ==> id in info
    ensures var (shuffled, p) := Inspect(bucket, info, rnd, 0, None, -1);
      && |shuffled| == |bucket| && FirstOldest(info, shuffled, Inspected(bucket), w) && p == Draw(rnd[w], |bucket|, w)
      && (p == w <==> rnd[w] % (|bucket| - w) == 0)
  {
    var nPos := Draw(rnd[0], |bucket|, 0);
    var next := SwapAt(bucket, 0, nPos);
    SwapAtPermutes(bucket, 0, nPos);
    assert bucket[nPos] in bucket && next[0] == bucket[nPos];
    assert FirstOldest(info, next, 1, 0);
    w := InspectFrom(next, info, rnd, 1, 0);
    var first: nat := 0;
    assert Inspect(bucket, info, rnd, first, None, -1) == Inspect(next, info, rnd, first + 1, Some(bucket[nPos]), nPos);
  }

  class AddrMan {
    var nKey: Key
    var nIdCount: int
    var mapInfo: Infos
    var mapAddr: map<NetAddr, int>
    var vRandom: seq<int>
    var nTried: int
    var vvTried: seq<seq<int>>
    var nNew: int
    var vvNew: seq<set<int>>

    ghost function Abs(): Tables
      reads this
    {
      Tables(nKey, nIdCount, mapInfo, mapAddr, vRandom, nTried, vvTried, nNew, vvNew)
    }

    ghost predicate Valid()
      reads this
    {
      Consistent(Abs())
    }

    constructor (key: Key)
      ensures Valid() && Abs() == EmptyTables(key)
    {
      nKey, nIdCount, mapInfo, mapAddr, vRandom := key, 0, map[], map[], [];
      nTried, vvTried := 0, seq(TRIED_BUCKET_COUNT, _ => []);
      nNew, vvNew := 0, seq(NEW_BUCKET_COUNT, _ => {});
      new;
      EmptyIsConsistent(key);
    }

    method Find(ip: NetAddr) returns (r: Option<int>)
      requires Valid()
      ensures r == if ip in mapAddr then Some(mapAddr[ip]) else None
      ensures r.Some? ==> r.value in mapInfo && mapInfo[r.value].ip == ip
      ensures r.None? <==> forall id :: id in mapInfo ==> mapInfo[id].ip != ip
    {
      if ip !in mapAddr { return None; }
      var nId := mapAddr[ip];
      assert nId in mapInfo && mapInfo[nId].ip == ip;
      return Some(nId);
    }

    /** The entry of an address, if it has this port. */
    method FindService(ip: NetAddr, port: nat) returns (r: Option<int>)
      requires Valid()
      ensures r == if KnowsService(Abs(), ip, port) then Some(mapAddr[ip]) else None
      ensures r.Some? ==> r.value in mapInfo && EntryTimes(mapInfo[r.value])
    {
      r := Find(ip);
      if r.None? || mapInfo[r.value].port != port { return None; }
      assert EntryOk(mapInfo[r.value], nIdCount, vvNew, None, r.value);
    }

    method Create(a: Address, source: NetAddr) returns (nId: int)
      modifies this
      ensures Abs() == Created(old(Abs()), a, source) && nId == old(nIdCount)
    {
      nId := nIdCount;
      nIdCount := nIdCount + 1;
      mapInfo := mapInfo[nId := AddrInfo(a.ip, a.port, a.services, a.time, source, 0, 0, 0, 0, false, -1)];
      mapAddr := mapAddr[a.ip := nId];
      mapInfo := mapInfo[nId := mapInfo[nId].(randomPos := |vRandom|)];
      vRandom := vRandom + [nId];
    }

    method SwapRandom(nRndPos1: int, nRndPos2: int)
      requires Positions(Abs(), nRndPos1, nRndPos2)
      modifies this
      ensures Abs() == Swapped(old(Abs()), nRndPos1, nRndPos2)
    {
      if nRndPos1 == nRndPos2 { return; }
      var nId1, nId2 := vRandom[nRndPos1], vRandom[nRndPos2];
      mapInfo := mapInfo[nId1 := mapInfo[nId1].(randomPos := nRndPos2)];
      mapInfo := mapInfo[nId2 := mapInfo[nId2].(randomPos := nRndPos1)];
      vRandom := vRandom[nRndPos1 := nId2];
      vRandom := vRandom[nRndPos2 := nId1];
    }

    /** Picks a position to evict from a tried bucket, shuffling the bucket on the way. */
    method SelectTried(nKBucket: nat, rnd: seq<nat>) returns (nOldestPos: int)
      requires nKBucket < |vvTried| && |rnd| == TRIED_ENTRIES_INSPECT_ON_EVICT
      requires forall id :: id in vvTried[nKBucket] ==> id in mapInfo
      modifies this`vvTried
      ensures nKBucket < |vvTried| && vvTried == old(vvTried)[nKBucket := vvTried[nKBucket]]
      ensures (vvTried[nKBucket], nOldestPos) == Inspect(old(vvTried[nKBucket]), mapInfo, rnd, 0, None, -1)
    {
      var vTried := vvTried[nKBucket];
      var nOldest := None;
      nOldestPos := -1;
      var i := 0;
      while i < TRIED_ENTRIES_INSPECT_ON_EVICT && i < |vTried|
        invariant 0 <= i && vvTried == old(vvTried)
        invariant forall id :: id in vTried ==> id in mapInfo
        invariant nOldest.Some? ==> nOldest.value in mapInfo
        invariant Inspect(vTried, mapInfo, rnd, i, nOldest, nOldestPos)
                  == Inspect(old(vvTried[nKBucket]), mapInfo, rnd, 0, None, -1)
        decreases |vTried| - i
      {
        var nPos := Draw(rnd[i], |vTried|, i);
        SwapAtPermutes(vTried, i, nPos);
        var nTemp := vTried[nPos];
        vTried := vTried[nPos := vTried[i]];
        vTried := vTried[i := nTemp];
        if nOldest.None? || mapInfo[nTemp].lastSuccess < mapInfo[nOldest.value].lastSuccess {
          nOldest, nOldestPos := Some(nTemp), nPos;
        }
        i := i + 1;
      }
      vvTried := vvTried[nKBucket := vTried];
    }

    /** Deletes an entry that is the last one of vRandom. */
    method DropLast(id: int)
      requires id in mapInfo && vRandom != []
      modifies this
      ensures Abs() == Dropped(old(Abs()), id)
    {
      vRandom := Front(vRandom);
      mapAddr := mapAddr - {mapInfo[id].ip};
      mapInfo := mapInfo - {id};
      nNew := nNew - 1;
    }

    /** Takes id out of a new bucket and deletes its entry with its last reference. */
    method RemoveFromNew(nUBucket: nat, id: int)
      requires nUBucket < |vvNew| && id in mapInfo && Positions(Abs(), mapInfo[id].randomPos, |vRandom| - 1)
      modifies this
      ensures Abs() == Removed(old(Abs()), nUBucket, id)
    {
      mapInfo := mapInfo[id := mapInfo[id].(refCount := mapInfo[id].refCount - 1)];
      if mapInfo[id].refCount == 0 {
        SwapRandom(mapInfo[id].randomPos, |vRandom| - 1);
        DropLast(id);
      }
      vvNew := vvNew[nUBucket := vvNew[nUBucket] - {id}];
    }

    /** The place of the first terrible entry in iteration order, if any. */
    method FindTerrible(order: seq<int>, now: int) returns (r: Option<nat>)
      requires forall id :: id in order ==> id in mapInfo
      ensures r.Some? ==> FirstTerrible(mapInfo, order, now, r.value)
      ensures r.None? ==> forall k :: 0 <= k < |order| ==> !TerribleAt(mapInfo, order, now, k)
    {
      for i := 0 to |order|
        invariant forall k :: 0 <= k < i ==> !TerribleAt(mapInfo, order, now, k)
      {
        var id := order[i];
        if IsTerrible(mapInfo[id], now) { return Some(i); }
      }
      return None;
    }

    /** The place of the entry with the least time among those at the four sampled positions. */
    method OldestSampled(order: seq<int>, n: seq<nat>) returns (nOldest: nat)
      requires |n| == 4 && forall j :: 0 <= j < 4 ==> n[j] < |order|
      requires forall id :: id in order ==> id in mapInfo
      ensures FirstOldestOf(mapInfo, order, n, nOldest)
    {
      var best: Option<nat> := None;
      for nI := 0 to |order|
        invariant best.Some? ==> FirstOldestBelow(mapInfo, order, n, nI, best.value) && order[best.value] in mapInfo
        invariant best.None? ==> forall k :: 0 <= k < nI ==> k !in n
      {
        var id := order[nI];
        if nI == n[0] || nI == n[1] || nI == n[2] || nI == n[3] {
          if best.None? || mapInfo[id].time < mapInfo[order[best.value]].time {
            best := Some(nI);
          }
        }
      }
      assert n[0] in n;
      nOldest := best.value;
    }

    /** The entry that has to leave a bucket. */
    method FindVictim(bucket: set<int>, now: int, rnd: seq<nat>) returns (r: int, nId: int)
      requires bucket != {} && |rnd| == 4 && NewBucketOk(mapInfo, bucket)
      ensures nId in bucket && IsVictim(mapInfo, bucket, now, rnd, nId)
      ensures r == 0 <==> nId in mapInfo && IsTerrible(mapInfo[nId], now)
    {
      var order := Ascending(bucket);
      var n := Modulo(rnd, |order|);
      var terrible := FindTerrible(order, now);
      if terrible.Some? {
        r, nId := 0, order[terrible.value];
      } else {
        var nOldest := OldestSampled(order, n);
        r, nId := 1, order[nOldest];
        assert !TerribleAt(mapInfo, order, now, nOldest);
      }
      AscendsUnique(order, Sorted(bucket), bucket);
      assert Picked(mapInfo, order, now, n, nId);
    }

    /** Takes an entry out of a bucket; pending is an id that has a reference but is in no bucket for it yet. */
    method TakeOut(nUBucket: nat, nId: int, ghost pending: int)
      requires nUBucket < |vvNew| && nId in vvNew[nUBucket] && pending !in vvNew[nUBucket]
      requires pending in mapInfo && Almost(Abs(), Some(pending))
      modifies this
      ensures Almost(Abs(), Some(pending)) && TakenOut(old(Abs()), Abs(), nUBucket, nId)
      ensures nUBucket < |vvNew| && vvNew[nUBucket] == old(vvNew)[nUBucket] - {nId}
      ensures pending in mapInfo && SameEntry(old(mapInfo)[pending], mapInfo[pending])
    {
      ghost var r := Abs();
      PositionOfNew(r, Some(pending), nUBucket, nId);
      RemoveFromNew(nUBucket, nId);
      assert TakenOut(r, Abs(), nUBucket, nId);
      RemoveKeeps(r, Some(pending), nUBucket, nId);
      RemovedSparesOthers(r, nUBucket, nId, pending);
    }

    /** Makes room in a new bucket: removes a terrible entry, or else the oldest of four sampled ones. */
    method ShrinkNew(nUBucket: nat, now: int, rnd: seq<nat>, ghost pending: int) returns (r: int, ghost victim: int)
      requires nUBucket < |vvNew| && vvNew[nUBucket] != {} && pending !in vvNew[nUBucket] && |rnd| == 4
      requires pending in mapInfo && Almost(Abs(), Some(pending))
      modifies this
      ensures Almost(Abs(), Some(pending)) && Evicted(old(Abs()), Abs(), nUBucket, now, rnd, victim)
      ensures r == 0 <==> victim in old(mapInfo) && IsTerrible(old(mapInfo)[victim], now)
      ensures nUBucket < |vvNew| && victim in old(vvNew)[nUBucket] && vvNew[nUBucket] == old(vvNew)[nUBucket] - {victim}
      ensures pending in mapInfo && SameEntry(old(mapInfo)[pending], mapInfo[pending])
    {
      assert NewBucketOk(mapInfo, vvNew[nUBucket]);
      ghost var s := Abs();
      var nId;
      r, nId := FindVictim(vvNew[nUBucket], now, rnd);
      assert IsVictim(s.info, s.vvNew[nUBucket], now, rnd, nId);
      victim := nId;
      TakeOut(nUBucket, nId, pending);
    }

    /** Takes id out of every new bucket. */
    method RemoveFromAllNew(id: int)
      requires id in mapInfo
      modifies this`vvNew, this`mapInfo
      ensures vvNew == Without(old(vvNew), id)
      ensures var e := old(mapInfo)[id];
        mapInfo == old(mapInfo)[id := e.(refCount := e.refCount - Refs(old(vvNew), id))]
    {
      var i := 0;
      while i < |vvNew|
        invariant 0 <= i <= |vvNew| == |old(vvNew)|
        invariant forall j :: 0 <= j < i ==> vvNew[j] == old(vvNew)[j] - {id}
        invariant forall j :: i <= j < |vvNew| ==> vvNew[j] == old(vvNew)[j]
        invariant id in mapInfo
        invariant var e := old(mapInfo)[id];
          mapInfo == old(mapInfo)[id := e.(refCount := e.refCount - Refs(old(vvNew)[..i], id))]
      {
        assert Front(old(vvNew)[..i + 1]) == old(vvNew)[..i];
        if id in vvNew[i] {
          vvNew := vvNew[i := vvNew[i] - {id}];
          mapInfo := mapInfo[id := mapInfo[id].(refCount := mapInfo[id].refCount - 1)];
        }
        i := i + 1;
      }
      assert old(vvNew)[..i] == old(vvNew);
      assert vvNew == Without(old(vvNew), id);
    }

    /** Adds id to its tried bucket. */
    method Promote(nId: int, nKBucket: nat)
      requires nKBucket < |vvTried| && nId in mapInfo
      modifies this
      ensures Abs() == Joined(old(Abs()), nId, nKBucket)
    {
      vvTried := vvTried[nKBucket := vvTried[nKBucket] + [nId]];
      nTried := nTried + 1;
      mapInfo := mapInfo[nId := mapInfo[nId].(inTried := true)];
    }

    /** Puts id in the place nPos of its tried bucket; the entry there goes back to a new bucket. */
    method Exchange(nId: int, nOrigin: nat, nKBucket: nat, nPos: nat)
      requires nOrigin < |vvNew| && |vvNew| == NEW_BUCKET_COUNT && nKBucket < |vvTried| && nPos < |vvTried[nKBucket]|
      requires nId in mapInfo && vvTried[nKBucket][nPos] in mapInfo
      modifies this
      ensures Abs() == Replaced(old(Abs()), nId, nOrigin, nKBucket, nPos)
    {
      var nOld := vvTried[nKBucket][nPos];
      var nUBucket := GetNewBucket(nKey, mapInfo[nOld], mapInfo[nOld].source);
      mapInfo := mapInfo[nOld := mapInfo[nOld].(inTried := false, refCount := 1)];
      if |vvNew[nUBucket]| < NEW_BUCKET_SIZE {
        vvNew := vvNew[nUBucket := vvNew[nUBucket] + {nOld}];
      } else {
        vvNew := vvNew[nOrigin := vvNew[nOrigin] + {nOld}];
      }
      nNew := nNew + 1;
      vvTried := vvTried[nKBucket := vvTried[nKBucket][nPos := nId]];
      mapInfo := mapInfo[nId := mapInfo[nId].(inTried := true)];
    }

    /** Evicts a selected entry from the full tried bucket of an entry that has left its new buckets. */
    method Evict(nId: int, nOrigin: nat, nKBucket: nat, rnd: seq<nat>, ghost s: Tables)
      requires Consistent(s) && nId in s.info && !s.info[nId].inTried && s.info[nId].lastSuccess > 0
      requires nOrigin < NEW_BUCKET_COUNT && nId in s.vvNew[nOrigin] && |rnd| == TRIED_ENTRIES_INSPECT_ON_EVICT
      requires nKBucket == GetTriedBucket(s.key, s.info[nId]) && |s.vvTried[nKBucket]| == TRIED_BUCKET_SIZE
      requires Abs() == Detached(s, nId)
      modifies this
      ensures Valid() && ExchangeDone(s, Abs(), nId, nOrigin, rnd)
    {
      TriedBucketMembers(s, nId);
      var nPos := SelectTried(nKBucket, rnd);
      EvictionKeeps(s, nId, nOrigin, nKBucket, rnd);
      assert Abs() == Detached(s.(vvTried := s.vvTried[nKBucket := vvTried[nKBucket]]), nId);
      Exchange(nId, nOrigin, nKBucket, nPos);
    }

    /** Moves an entry from the new buckets to its tried bucket; a full bucket gives up one entry in exchange. */
    method MakeTried(nId: int, nOrigin: nat, rnd: seq<nat>)
      requires Valid() && nId in mapInfo && !mapInfo[nId].inTried && mapInfo[nId].lastSuccess > 0
      requires nOrigin < NEW_BUCKET_COUNT && nId in vvNew[nOrigin] && |rnd| == TRIED_ENTRIES_INSPECT_ON_EVICT
      modifies this
      ensures Valid() && MadeTried(old(Abs()), Abs(), nId, nOrigin, rnd)
    {
      ghost var s := Abs();
      TriedBucketMembers(s, nId);
      RemoveFromAllNew(nId);
      nNew := nNew - 1;
      assert Abs() == Detached(s, nId);
      var nKBucket := GetTriedBucket(nKey, mapInfo[nId]);
      if |vvTried[nKBucket]| < TRIED_BUCKET_SIZE {
        Promote(nId, nKBucket);
        MoveKeeps(s, nId);
        JoinedIsMoved(s, nId);
      } else {
        Evict(nId, nOrigin, nKBucket, rnd, s);
      }
    }

    /** The first bucket holding nId, scanning cyclically from nRnd; -1 if there is none. */
    method FindBucket(nId: int, nRnd: nat) returns (nUBucket: int)
      requires nRnd < |vvNew| == NEW_BUCKET_COUNT
      ensures nUBucket == -1 ==> forall b :: 0 <= b < |vvNew| ==> nId !in vvNew[b]
      ensures nUBucket != -1 ==> FirstHolder(vvNew, nId, nRnd, nUBucket)
    {
      for n := 0 to |vvNew|
        invariant forall b :: 0 <= b < |vvNew| && Distance(b, nRnd, |vvNew|) < n ==> nId !in vvNew[b]
      {
        var nB := (n + nRnd) % |vvNew|;
        Wraps(n, nRnd);
        if nId in vvNew[nB] { return nB; }
      }
      return -1;
    }

    method Store(nId: int, info: AddrInfo)
      requires nId in mapInfo
      modifies this`mapInfo
      ensures Abs() == SetInfo(old(Abs()), nId, info)
    {
      mapInfo := mapInfo[nId := info];
    }

    method Refresh(nId: int, nTime: int)
      requires nId in mapInfo
      modifies this`mapInfo
      ensures Abs() == SetInfo(old(Abs()), nId, Refreshed(old(mapInfo)[nId], nTime))
    {
      mapInfo := mapInfo[nId := mapInfo[nId].(lastSuccess := nTime)];
      mapInfo := mapInfo[nId := mapInfo[nId].(lastTry := nTime)];
      mapInfo := mapInfo[nId := mapInfo[nId].(time := ToUint32(nTime))];
      mapInfo := mapInfo[nId := mapInfo[nId].(attempts := 0)];
    }

    method RefreshKnown(nId: int, nTime: int)
      requires Valid() && nId in mapInfo && nTime > 0
      modifies this`mapInfo
      ensures Valid() && Abs() == SetInfo(old(Abs()), nId, Refreshed(old(mapInfo)[nId], nTime))
    {
      TouchKeeps(Abs(), None, nId, Refreshed(mapInfo[nId], nTime));
      Refresh(nId, nTime);
    }

    /** Promotes an entry out of the first bucket found that holds it: there is always one. */
    method PromoteNew(nId: int, nRnd: nat, rnd: seq<nat>)
      requires Valid() && nId in mapInfo && !mapInfo[nId].inTried && mapInfo[nId].lastSuccess > 0
      requires nRnd < NEW_BUCKET_COUNT && |rnd| == TRIED_ENTRIES_INSPECT_ON_EVICT
      modifies this
      ensures Valid() && PromotedIn(old(Abs()), Abs(), nId, nRnd, rnd)
    {
      NewIsSomewhere(Abs(), nId);
      var nUBucket := FindBucket(nId, nRnd);
      assert nUBucket != -1;
      MakeTried(nId, nUBucket, rnd);
    }

    /** A successful connection: refreshes the entry of exactly this service, and promotes it if it is new.
        The exit for an entry in no bucket is never taken. */
    method Good(ip: NetAddr, port: nat, nTime: int, nRnd: nat, rnd: seq<nat>)
      requires Valid() && nTime > 0 && nRnd < NEW_BUCKET_COUNT && |rnd| == TRIED_ENTRIES_INSPECT_ON_EVICT
      modifies this
      ensures Valid()
      ensures !KnowsService(old(Abs()), ip, port) ==> Abs() == old(Abs())
      ensures KnowsService(old(Abs()), ip, port) ==>
                var id := old(mapAddr)[ip];
                var s := SetInfo(old(Abs()), id, Refreshed(old(mapInfo)[id], nTime));
                if old(mapInfo)[id].inTried then Abs() == s else PromotedIn(s, Abs(), id, nRnd, rnd)
    {
      var found := FindService(ip, port);
      if found.None? { return; }
      var nId := found.value;
      RefreshKnown(nId, nTime);
      if mapInfo[nId].inTried { return; }
      PromoteNew(nId, nRnd, rnd);
    }

    /** Makes room in a bucket if it is full; nId is the entry that is to enter it. */
    method MakeRoom(nId: int, nUBucket: nat, now: int, rnd: seq<nat>)
      requires nId in mapInfo && nUBucket < |vvNew| && nId !in vvNew[nUBucket] && |rnd| == 4
      requires !mapInfo[nId].inTried && Almost(Abs(), Some(nId))
      modifies this
      ensures Almost(Abs(), Some(nId)) && MadeRoom(old(Abs()), Abs(), nUBucket, now, rnd)
      ensures nId in mapInfo && SameEntry(old(mapInfo)[nId], mapInfo[nId])
      ensures nUBucket < |vvNew| && nId !in vvNew[nUBucket] && |vvNew[nUBucket]| < NEW_BUCKET_SIZE
    {
      assert NewBucketOk(mapInfo, vvNew[nUBucket]);
      if |vvNew[nUBucket]| == NEW_BUCKET_SIZE {
        var _, victim := ShrinkNew(nUBucket, now, rnd, nId);
      }
    }

    /** Puts an entry into a new bucket it is not in, making room there if the bucket is full. */
    method Place(nId: int, nUBucket: nat, now: int, rnd: seq<nat>)
      requires nId in mapInfo && nUBucket < |vvNew| && nId !in vvNew[nUBucket] && |rnd| == 4
      requires !mapInfo[nId].inTried && Almost(Reserved(Abs(), nId), Some(nId))
      modifies this
      ensures Valid() && PlacedIn(old(Abs()), Abs(), nUBucket, nId, now, rnd)
      ensures nId in mapInfo && mapInfo[nId].ip == old(mapInfo)[nId].ip && mapInfo[nId].ip in mapAddr
    {
      CountReference(nId);
      MakeRoom(nId, nUBucket, now, rnd);
      InsertKeeps(Abs(), nUBucket, nId);
      Insert(nUBucket, nId);
    }

    method CountReference(nId: int)
      requires nId in mapInfo
      modifies this`mapInfo
      ensures Abs() == Reserved(old(Abs()), nId)
    {
      mapInfo := mapInfo[nId := mapInfo[nId].(refCount := mapInfo[nId].refCount + 1)];
    }

    method Insert(nUBucket: nat, nId: int)
      requires nUBucket < |vvNew|
      modifies this`vvNew
      ensures Abs() == Inserted(old(Abs()), nUBucket, nId)
    {
      vvNew := vvNew[nUBucket := vvNew[nUBucket] + {nId}];
    }

    /** Hears again of a known address. */
    method Hear(nId: int, a: Address, nTimePenalty: int, now: int)
      requires nId in mapInfo
      modifies this`mapInfo
      ensures mapInfo == old(mapInfo)[nId := Heard(old(mapInfo)[nId], a, nTimePenalty, now)]
    {
      var info := mapInfo[nId];
      var fCurrentlyOnline := now - a.time < 24 * 60 * 60;
      var nUpdateInterval := if fCurrentlyOnline then 60 * 60 else 24 * 60 * 60;
      if a.time != 0 && (info.time == 0 || info.time < a.time - nUpdateInterval - nTimePenalty) {
        info := info.(time := ToUint32(Max(0, a.time - nTimePenalty)));
      }
      info := info.(services := info.services.With(a.services));
      mapInfo := mapInfo[nId := info];
    }

    /** Whether a known entry is due another reference. */
    method Wants(info: AddrInfo, a: Address, coin: nat) returns (r: bool)
      requires info.inTried || info.refCount >= 0
      ensures r <==> !Ignored(info, a, coin)
    {
      if a.time == 0 || (info.time != 0 && a.time <= info.time) { return false; }
      if info.inTried { return false; }
      if info.refCount == NEW_BUCKETS_PER_ADDRESS { return false; }
      var nFactor := 1;
      for n := 0 to info.refCount
        invariant nFactor == Power2(n) && (n > 0 ==> nFactor > 1)
      {
        nFactor := nFactor * 2;
      }
      if nFactor > 1 && coin % nFactor != 0 { return false; }
      return true;
    }

    method Enter(a: Address, source: NetAddr, nTimePenalty: int) returns (nId: int)
      modifies this
      ensures Abs() == Entered(old(Abs()), a, source, nTimePenalty) && nId == old(nIdCount)
    {
      nId := Create(a, source);
      mapInfo := mapInfo[nId := mapInfo[nId].(time := ToUint32(Max(0, mapInfo[nId].time - nTimePenalty)))];
      nNew := nNew + 1;
    }

    /** Hears of an address from a source.  A known one may only be refreshed, or gain a reference; an
        unknown one gets an entry. */
    method Add(a: Address, fRoutable: bool, source: NetAddr, nTimePenalty: int, now: int, coin: nat, rnd: seq<nat>)
      returns (fNew: bool)
      requires Valid() && |rnd| == 4
      modifies this
      ensures Valid()
      ensures fNew <==> fRoutable && a.ip !in old(mapAddr)
      ensures !fRoutable ==> Abs() == old(Abs())
      ensures fRoutable ==> a.ip in mapAddr
      ensures fRoutable && a.ip in old(mapAddr) ==>
                var id := old(mapAddr)[a.ip];
                id in old(mapInfo) && HeardIn(old(Abs()), Abs(), id, a, source, nTimePenalty, now, coin, rnd)
      ensures fRoutable && a.ip !in old(mapAddr) ==> EnteredIn(old(Abs()), Abs(), a, source, nTimePenalty, now, rnd)
    {
      fNew := false;
      if !fRoutable { return; }
      var found := Find(a.ip);
      if found.Some? {
        AddKnown(found.value, a, source, nTimePenalty, now, coin, rnd);
      } else {
        fNew := true;
        AddUnknown(a, source, nTimePenalty, now, rnd);
      }
    }

    method AddKnown(nId: int, a: Address, source: NetAddr, nTimePenalty: int, now: int, coin: nat, rnd: seq<nat>)
      requires Valid() && nId in mapInfo && mapInfo[nId].ip == a.ip && |rnd| == 4
      modifies this
      ensures Valid() && a.ip in mapAddr
      ensures HeardIn(old(Abs()), Abs(), nId, a, source, nTimePenalty, now, coin, rnd)
    {
      TouchKeeps(Abs(), None, nId, Heard(mapInfo[nId], a, nTimePenalty, now));
      ghost var s := SetInfo(Abs(), nId, Heard(mapInfo[nId], a, nTimePenalty, now));
      Hear(nId, a, nTimePenalty, now);
      assert Abs() == s;
      EntryBounds(s, nId);
      var fPlace := Wants(mapInfo[nId], a, coin);
      if fPlace { Reference(nId, source, now, rnd); }
    }

    /** Puts a known entry into the bucket for this source, unless it is there. */
    method Reference(nId: int, source: NetAddr, now: int, rnd: seq<nat>)
      requires Valid() && nId in mapInfo && |rnd| == 4
      requires !mapInfo[nId].inTried && mapInfo[nId].refCount < NEW_BUCKETS_PER_ADDRESS
      modifies this
      ensures Valid() && old(mapInfo)[nId].ip in mapAddr
      ensures ReferencedIn(old(Abs()), Abs(), nId, source, now, rnd)
    {
      EntryBounds(Abs(), nId);
      var nUBucket := GetNewBucket(nKey, mapInfo[nId], source);
      if nId !in vvNew[nUBucket] {
        ReserveKeeps(Abs(), nId);
        Place(nId, nUBucket, now, rnd);
      }
    }

    method AddUnknown(a: Address, source: NetAddr, nTimePenalty: int, now: int, rnd: seq<nat>)
      requires Valid() && a.ip !in mapAddr && |rnd| == 4
      modifies this
      ensures Valid() && a.ip in mapAddr
      ensures EnteredIn(old(Abs()), Abs(), a, source, nTimePenalty, now, rnd)
    {
      EnteredIsReservable(Abs(), a, source, nTimePenalty);
      var nId := Enter(a, source, nTimePenalty);
      var nUBucket := GetNewBucket(nKey, mapInfo[nId], source);
      Place(nId, nUBucket, now, rnd);
    }

    /** A connection attempt. */
    method Attempt(ip: NetAddr, port: nat, nTime: int)
      requires Valid() && nTime >= 0
      modifies this
      ensures Valid()
      ensures Abs() == if !KnowsService(old(Abs()), ip, port) then old(Abs()) else
                var id := old(mapAddr)[ip]; SetInfo(old(Abs()), id, Attempted(old(mapInfo)[id], nTime))
    {
      var found := FindService(ip, port);
      if found.None? { return; }
      var nId := found.value;
      var info := Attempted(mapInfo[nId], nTime);
      TouchKeeps(Abs(), None, nId, info);
      Store(nId, info);
    }

    /** A connection still open: refreshes the time at most every twenty minutes. */
    method Connected(ip: NetAddr, port: nat, nTime: int)
      requires Valid()
      modifies this
      ensures Valid()
      ensures Abs() ==
                if !KnowsService(old(Abs()), ip, port) || nTime - old(mapInfo)[old(mapAddr)[ip]].time <= 20 * 60
                then old(Abs())
                else var id := old(mapAddr)[ip]; SetInfo(old(Abs()), id, old(mapInfo)[id].(time := ToUint32(nTime)))
    {
      var found := FindService(ip, port);
      if found.None? { return; }
      var nId := found.value;
      var nUpdateInterval := 20 * 60;
      if nTime - mapInfo[nId].time > nUpdateInterval {
        var info := mapInfo[nId].(time := ToUint32(nTime));
        TouchKeeps(Abs(), None, nId, info);
        Store(nId, info);
      }
    }

    /** Draws the n-th address. */
    method SampleOne(n: nat, nRndPos: nat, ghost s0: Tables, vAddr: seq<Address>) returns (a: Address)
      requires Valid() && SameButOrder(s0, Abs()) && n <= nRndPos < |vRandom| && |vAddr| == n
      requires ListedUpTo(Abs(), vAddr)
      modifies this
      ensures Valid() && SameButOrder(s0, Abs()) && ListedUpTo(Abs(), vAddr + [a])
    {
      SampleStep(s0, Abs(), n, nRndPos, vAddr);
      SwapRandom(n, nRndPos);
      a := Advertised(mapInfo[vRandom[n]]);
      ListedNext(Abs(), vAddr, a);
    }

    /** The addresses of the first places of vRandom, each drawn from those that follow. */
    method SampleNodes(nNodes: nat, rnd: seq<nat>) returns (vAddr: seq<Address>)
      requires Valid() && nNodes <= |vRandom| && nNodes <= |rnd|
      modifies this
      ensures Valid() && SameButOrder(old(Abs()), Abs()) && |vAddr| == nNodes && ListedUpTo(Abs(), vAddr)
    {
      vAddr := [];
      ghost var s0 := Abs();
      for n := 0 to nNodes
        invariant Valid() && SameButOrder(s0, Abs()) && |vAddr| == n && ListedUpTo(Abs(), vAddr)
      {
        var nRndPos := Draw(rnd[n], |vRandom|, n);
        var a := SampleOne(n, nRndPos, s0, vAddr);
        vAddr := vAddr + [a];
      }
    }

    /** Up to 2500 addresses, at most 23 percent of all, by a partial shuffle of vRandom: no address comes
        twice, and each is what its entry says. */
    method GetAddr(rnd: seq<nat>) returns (vAddr: seq<Address>)
      requires Valid() && |rnd| == Sampled(|vRandom|)
      modifies this
      ensures Valid() && SameButOrder(old(Abs()), Abs())
      ensures |vAddr| == Sampled(|vRandom|)
      ensures forall i :: 0 <= i < |vAddr| ==> AsListed(Abs(), vAddr[i])
      ensures forall i, j :: 0 <= i < j < |vAddr| ==> vAddr[i].ip != vAddr[j].ip
    {
      var nNodes := GETADDR_MAX_PCT * |vRandom| / 100;
      if nNodes > GETADDR_MAX { nNodes := GETADDR_MAX; }
      vAddr := SampleNodes(nNodes, rnd);
      ListedOnce(Abs(), vAddr);
    }

    /** The self-check: 0 exactly if every condition it tests holds. */
    method Check() returns (code: int)
      modifies this`mapAddr
      ensures code == 0 <==> PassesCheck(old(Abs()))
      ensures AddressesIn(mapInfo, old(mapAddr)) ==> mapAddr == old(mapAddr)
    {
      if |vRandom| != nTried + nNew { return -7; }
      var err, addr, setTried, mapNew := CheckEntries(mapInfo, mapAddr, vRandom);
      mapAddr := addr;
      if err != 0 { return err; }
      assert mapNew.Keys == NewIds(mapInfo) && |mapNew| == |mapNew.Keys|;
      if |setTried| != nTried { return -9; }
      if |mapNew| != nNew { return -10; }
      code := CheckTriedBuckets(vvTried, setTried);
      if code != 0 { return code; }
      code := CheckNewBuckets(vvNew, mapNew);
    }

    /** It reports no error in a valid state, and changes nothing there. */
    method CheckValid() returns (code: int)
      requires Valid()
      modifies this`mapAddr
      ensures code == 0 && Abs() == old(Abs())
    {
      ConsistentPasses(Abs());
      AddressesKnown(Abs());
      code := Check();
    }
  }

  // ---------- the operations as values ----------

  const UINT32 := 0x1_0000_0000

  function ToUint32(x: int): nat { x % UINT32 }

  /** How many steps a cyclic scan from start takes to reach b. */
  function Distance(b: nat, start: nat, size: nat): int {
    if b >= start then b - start else b - start + size
  }

  lemma Wraps(n: nat, start: nat)
    requires n < NEW_BUCKET_COUNT && start < NEW_BUCKET_COUNT
    ensures Distance((n + start) % NEW_BUCKET_COUNT, start, NEW_BUCKET_COUNT) == n
  {
  }

  function Power2(n: nat): (p: nat)
    ensures p > 0
  {
    if n == 0 then 1 else Power2(n - 1) * 2
  }

  predicate EntryTimes(e: AddrInfo) { 0 <= e.lastTry && 0 <= e.lastSuccess && (e.inTried ==> e.lastSuccess > 0) }

  /** There is an entry for this address, with this port. */
  predicate KnowsService(s: Tables, ip: NetAddr, port: nat) {
    ip in s.addr && s.addr[ip] in s.info && s.info[s.addr[ip]].port == port
  }

  function Refreshed(e: AddrInfo, now: int): AddrInfo {
    e.(lastSuccess := now, lastTry := now, time := ToUint32(now), attempts := 0)
  }

  function Attempted(e: AddrInfo, now: int): AddrInfo { e.(lastTry := now, attempts := e.attempts + 1) }

  /** A known entry after hearing of its address again. */
  function Heard(e: AddrInfo, a: Address, penalty: int, now: int): AddrInfo {
    var interval := if now - a.time < 24 * 60 * 60 then 60 * 60 else 24 * 60 * 60;
    var time := if a.time != 0 && (e.time == 0 || e.time < a.time - interval - penalty)
      then ToUint32(Max(0, a.time - penalty)) else e.time;
    e.(time := time, services := e.services.With(a.services))
  }

  /** Hearing of an address adds its services and touches nothing else but the time.  That only rises, by more than
      an hour unless it was unknown, and never beyond the advertised time less the penalty; hearing the same again
      changes nothing. */
  lemma HearingAgain(e: AddrInfo, a: Address, penalty: nat, now: int)
    requires a.time < UINT32
    ensures var h := Heard(e, a, penalty, now);
      && h == e.(time := h.time, services := h.services)
      && (forall bit :: bit in h.services.bits <==> bit in e.services.bits || bit in a.services.bits)
      && (h.time != e.time ==> h.time == Max(0, a.time - penalty) && (e.time == 0 || e.time + 60 * 60 < h.time))
      && (a.time == 0 ==> h.time == e.time)
      && (e.time + 24 * 60 * 60 + penalty < a.time ==> h.time == a.time - penalty)
      && Heard(h, a, penalty, now) == h
  {
    var h := Heard(e, a, penalty, now);
    assert h.services.bits + a.services.bits == h.services.bits;
  }

  /** Nothing new, already tried, referenced often enough, or unlucky: with n references the odds are one in 2^n. */
  predicate Ignored(e: AddrInfo, a: Address, coin: nat) {
    || a.time == 0 || (e.time != 0 && a.time <= e.time)
    || e.inTried || e.refCount == NEW_BUCKETS_PER_ADDRESS
    || (e.refCount > 0 && coin % Power2(e.refCount) != 0)
  }

  function Penalised(a: Address, penalty: int): Address { a.(time := ToUint32(Max(0, a.time - penalty))) }

  /** A new entry, counted but not yet in a bucket. */
  function Entered(s: Tables, a: Address, source: NetAddr, penalty: int): Tables {
    Created(s, Penalised(a, penalty), source).(nNew := s.nNew + 1)
  }

  predicate TerribleAt(info: Infos, order: seq<int>, now: int, k: nat) {
    k < |order| && order[k] in info && IsTerrible(info[order[k]], now)
  }

  predicate FirstTerrible(info: Infos, order: seq<int>, now: int, k: nat) {
    TerribleAt(info, order, now, k) && forall j: nat :: j < k ==> !TerribleAt(info, order, now, j)
  }

  /** Of the entries at the positions n below m, k is the first with the least time. */
  predicate FirstOldestBelow(info: Infos, order: seq<int>, n: seq<nat>, m: nat, k: nat) {
    && k < m <= |order| && k in n && (forall id :: id in order ==> id in info)
    && (forall j :: 0 <= j < k && j in n ==> info[order[k]].time < info[order[j]].time)
    && (forall j :: k <= j < m && j in n ==> info[order[k]].time <= info[order[j]].time)
  }

  predicate FirstOldestOf(info: Infos, order: seq<int>, n: seq<nat>, k: nat) {
    FirstOldestBelow(info, order, n, |order|, k)
  }

  /** victim is the first terrible entry, or if there is none the first of the oldest ones at the positions n. */
  ghost predicate Picked(info: Infos, order: seq<int>, now: int, n: seq<nat>, victim: int) {
    if exists k: nat :: TerribleAt(info, order, now, k)
    then exists k: nat :: FirstTerrible(info, order, now, k) && victim == order[k]
    else exists k: nat :: FirstOldestOf(info, order, n, k) && victim == order[k]
  }

  function Modulo(rnd: seq<nat>, n: nat): (r: seq<nat>)
    requires n > 0
    ensures |r| == |rnd| && forall j :: 0 <= j < |rnd| ==> r[j] == rnd[j] % n < n
  {
    seq(|rnd|, j requires 0 <= j < |rnd| => rnd[j] % n)
  }

  /** The entry that leaves a bucket to make room. */
  ghost predicate IsVictim(info: Infos, bucket: set<int>, now: int, rnd: seq<nat>, victim: int) {
    |rnd| == 4 && bucket != {} && Picked(info, Sorted(bucket), now, Modulo(rnd, |bucket|), victim)
  }

  ghost predicate TakenOut(r: Tables, t: Tables, b: nat, victim: int) {
    && b < |r.vvNew| && victim in r.info && Positions(r, r.info[victim].randomPos, |r.random| - 1)
    && t == Removed(r, b, victim)
  }

  ghost predicate Evicted(r: Tables, t: Tables, b: nat, now: int, rnd: seq<nat>, victim: int) {
    b < |r.vvNew| && IsVictim(r.info, r.vvNew[b], now, rnd, victim) && TakenOut(r, t, b, victim)
  }

  ghost predicate MadeRoom(r: Tables, t: Tables, b: nat, now: int, rnd: seq<nat>) {
    if b < |r.vvNew| && |r.vvNew[b]| == NEW_BUCKET_SIZE
    then exists victim :: Evicted(r, t, b, now, rnd, victim)
    else t == r
  }

  /** id has entered the bucket b, which another entry had to leave if it was full. */
  ghost predicate PlacedIn(s: Tables, t: Tables, b: nat, id: int, now: int, rnd: seq<nat>) {
    id in s.info && exists m :: MadeRoom(Reserved(s, id), m, b, now, rnd) && b < |m.vvNew| && t == Inserted(m, b, id)
  }

  /** The first bucket holding id, scanning cyclically from start. */
  ghost predicate FirstHolder(vv: seq<set<int>>, id: int, start: nat, b: int) {
    && 0 <= b < |vv| && id in vv[b]
    && forall c :: 0 <= c < |vv| && Distance(c, start, |vv|) < Distance(b, start, |vv|) ==> id !in vv[c]
  }

  ghost predicate PromotedIn(s: Tables, t: Tables, id: int, nRnd: nat, rnd: seq<nat>) {
    exists origin :: FirstHolder(s.vvNew, id, nRnd, origin) && MadeTried(s, t, id, origin, rnd)
  }

  /** What Add does to a known address. */
  ghost predicate HeardIn(s0: Tables, t: Tables, id: int, a: Address, source: NetAddr, penalty: int, now: int,
                          coin: nat, rnd: seq<nat>)
    requires id in s0.info
  {
    var s := SetInfo(s0, id, Heard(s0.info[id], a, penalty, now));
    if Ignored(s.info[id], a, coin) then t == s else ReferencedIn(s, t, id, source, now, rnd)
  }

  ghost predicate ReferencedIn(s: Tables, t: Tables, id: int, source: NetAddr, now: int, rnd: seq<nat>)
    requires id in s.info
  {
    var b := GetNewBucket(s.key, s.info[id], source);
    if b < |s.vvNew| && id in s.vvNew[b] then t == s else PlacedIn(s, t, b, id, now, rnd)
  }

  lemma AddressesKnown(s: Tables)
    requires Consistent(s)
    ensures AddressesIn(s.info, s.addr)
  {
  }

  lemma EntryBounds(s: Tables, id: int)
    requires Consistent(s) && id in s.info
    ensures 0 <= s.info[id].refCount <= NEW_BUCKETS_PER_ADDRESS && s.info[id].ip in s.addr
  {
    assert EntryOk(s.info[id], s.idCount, s.vvNew, None, id);
  }

  /** What Add does to an unknown address. */
  ghost predicate EnteredIn(s0: Tables, t: Tables, a: Address, source: NetAddr, penalty: int, now: int, rnd: seq<nat>) {
    var id, s := s0.idCount, Entered(s0, a, source, penalty);
    PlacedIn(s, t, GetNewBucket(s.key, s.info[id], source), id, now, rnd)
  }

  lemma EnteredIsReservable(s: Tables, a: Address, source: NetAddr, penalty: int)
    requires Consistent(s) && a.ip !in s.addr
    ensures var id, t := s.idCount, Entered(s, a, source, penalty);
      id !in s.info && |t.vvNew| == NEW_BUCKET_COUNT && t.info[id].ip == a.ip && Almost(Reserved(t, id), Some(id))
        && forall b :: 0 <= b < |t.vvNew| ==> id !in t.vvNew[b]
  {
    var id, a' := s.idCount, Penalised(a, penalty);
    CreateKeeps(s, a', source);
    var t := Created(s, a', source);
    assert Reserved(Entered(s, a, source, penalty), id)
           == SetInfo(t, id, t.info[id].(refCount := 1)).(nNew := s.nNew + 1);
    CreateFresh(s.info, s.vvNew, id, t.info[id]);
    RefsZero(s.vvNew, id);
  }

  lemma NewIsSomewhere(s: Tables, id: int)
    requires Consistent(s) && id in s.info && !s.info[id].inTried
    ensures exists b :: 0 <= b < |s.vvNew| && id in s.vvNew[b]
  {
    assert EntryOk(s.info[id], s.idCount, s.vvNew, None, id);
    RefsZero(s.vvNew, id);
  }

  /** An entry of a new bucket is in the random list. */
  lemma PositionOfNew(s: Tables, pending: Option<int>, b: nat, id: int)
    requires Almost(s, pending) && b < |s.vvNew| && id in s.vvNew[b]
    ensures id in s.info && s.random != [] && Positions(s, s.info[id].randomPos, |s.random| - 1)
  {
    assert NewBucketOk(s.info, s.vvNew[b]);
    PositionsOk(s, id);
  }

  /** Removing one entry leaves the address and the tried flag of another one. */
  lemma RemovedSparesOthers(s: Tables, b: nat, victim: int, id: int)
    requires b < |s.vvNew| && victim in s.info && Positions(s, s.info[victim].randomPos, |s.random| - 1)
    requires id in s.info && id != victim
    ensures var t := Removed(s, b, victim);
      id in t.info && SameEntry(s.info[id], t.info[id]) && t.vvNew[b] == s.vvNew[b] - {victim}
  {
  }

  // ---------- sampling ----------

  function Sampled(n: nat): (k: nat)
    ensures k <= n && k <= GETADDR_MAX
  {
    if GETADDR_MAX_PCT * n / 100 > GETADDR_MAX then GETADDR_MAX else GETADDR_MAX_PCT * n / 100
  }

  function Advertised(e: AddrInfo): Address { Address(e.ip, e.port, e.services, e.time) }

  /** The same tables up to the order of vRandom. */
  ghost predicate SameButOrder(s: Tables, t: Tables) {
    && t == s.(info := t.info, random := t.random) && multiset(t.random) == multiset(s.random)
    && |t.random| == |s.random| && t.info.Keys == s.info.Keys
    && forall id :: id in s.info ==> t.info[id] == s.info[id].(randomPos := t.info[id].randomPos)
  }

  ghost predicate ListedAt(s: Tables, a: Address, i: nat) {
    i < |s.random| && s.random[i] in s.info && a == Advertised(s.info[s.random[i]])
  }

  /** vAddr is what the entries of the first places of vRandom advertise. */
  ghost predicate ListedUpTo(s: Tables, vAddr: seq<Address>) {
    forall i :: 0 <= i < |vAddr| ==> ListedAt(s, vAddr[i], i)
  }

  ghost predicate AsListed(s: Tables, a: Address) {
    a.ip in s.addr && s.addr[a.ip] in s.info && a == Advertised(s.info[s.addr[a.ip]])
  }

  lemma SampleStep(s0: Tables, s: Tables, n: nat, j: nat, vAddr: seq<Address>)
    requires Consistent(s) && SameButOrder(s0, s) && n <= j < |s.random| && |vAddr| == n
    requires ListedUpTo(s, vAddr)
    ensures Positions(s, n, j)
    ensures var t := Swapped(s, n, j);
      Consistent(t) && SameButOrder(s0, t) && t.random[n] in t.info && ListedUpTo(t, vAddr)
  {
    assert RandomSlot(s.info, s.random, n) && RandomSlot(s.info, s.random, j);
    SwapKeeps(s, None, n, j);
    SwapRandomOk(s, n, j);
    assert RandomSlot(Swapped(s, n, j).info, Swapped(s, n, j).random, n);
    forall i | 0 <= i < n ensures ListedAt(Swapped(s, n, j), vAddr[i], i) {
      assert ListedAt(s, vAddr[i], i);
      SwapKeepsListed(s, n, j, vAddr[i], i);
    }
  }

  lemma SwapKeepsListed(s: Tables, n: nat, j: nat, a: Address, i: nat)
    requires Positions(s, n, j) && i < n && i < j && ListedAt(s, a, i)
    ensures ListedAt(Swapped(s, n, j), a, i)
  {
  }

  lemma ListedNext(s: Tables, vAddr: seq<Address>, a: Address)
    requires ListedAt(s, a, |vAddr|) && ListedUpTo(s, vAddr)
    ensures ListedUpTo(s, vAddr + [a])
  {
  }

  /** Different positions of vRandom advertise different addresses. */
  lemma ListedOnce(s: Tables, vAddr: seq<Address>)
    requires Consistent(s) && ListedUpTo(s, vAddr)
    ensures forall i :: 0 <= i < |vAddr| ==> AsListed(s, vAddr[i])
    ensures forall i, j :: 0 <= i < j < |vAddr| ==> vAddr[i].ip != vAddr[j].ip
  {
    forall i | 0 <= i < |vAddr| ensures AsListed(s, vAddr[i]) && s.addr[vAddr[i].ip] == s.random[i] {
      assert ListedAt(s, vAddr[i], i);
      var id := s.random[i];
      assert id in s.info;
    }
    forall i, j | 0 <= i < j < |vAddr| ensures vAddr[i].ip != vAddr[j].ip {
      assert ListedAt(s, vAddr[i], i) && ListedAt(s, vAddr[j], j);
      assert RandomSlot(s.info, s.random, i) && RandomSlot(s.info, s.random, j);
    }
  }

  // ---------- the steps of MakeTried as values ----------

  /** The entry has left its new buckets and is not yet in a tried one. */
  function Detached(s: Tables, id: int): Tables
    requires id in s.info
  {
    s.(vvNew := Without(s.vvNew, id), nNew := s.nNew - 1, info := s.info[id := s.info[id].(refCount := 0)])
  }

  function Joined(s: Tables, id: int, b: nat): Tables
    requires b < |s.vvTried| && id in s.info
  {
    s.(vvTried := s.vvTried[b := s.vvTried[b] + [id]], nTried := s.nTried + 1,
       info := s.info[id := s.info[id].(inTried := true)])
  }

  function Replaced(s: Tables, id: int, origin: nat, b: nat, pos: nat): Tables
    requires origin < |s.vvNew| == NEW_BUCKET_COUNT && b < |s.vvTried| && pos < |s.vvTried[b]|
    requires id in s.info && s.vvTried[b][pos] in s.info
  {
    var old' := s.vvTried[b][pos];
    var u := GetNewBucket(s.key, s.info[old'], s.info[old'].source);
    var target := if |s.vvNew[u]| < NEW_BUCKET_SIZE then u else origin;
    var info1 := s.info[old' := Demoted(s.info[old'])];
    s.(vvNew := s.vvNew[target := s.vvNew[target] + {old'}], nNew := s.nNew + 1,
       vvTried := s.vvTried[b := s.vvTried[b][pos := id]], info := info1[id := info1[id].(inTried := true)])
  }

  lemma JoinedIsMoved(s: Tables, id: int)
    requires id in s.info && |s.vvTried| == TRIED_BUCKET_COUNT
    ensures Joined(Detached(s, id), id, GetTriedBucket(s.key, s.info[id])) == MovedToTried(s, id)
  {
    var t := Joined(Detached(s, id), id, GetTriedBucket(s.key, s.info[id]));
    assert t.info == s.info[id := Promoted(s.info[id])];
  }

  lemma ReplacedIsExchanged(s: Tables, id: int, origin: nat, pos: nat)
    requires id in s.info && |s.vvTried| == TRIED_BUCKET_COUNT && |s.vvNew| == NEW_BUCKET_COUNT
             && origin < NEW_BUCKET_COUNT
    requires pos < |s.vvTried[GetTriedBucket(s.key, s.info[id])]|
    requires s.vvTried[GetTriedBucket(s.key, s.info[id])][pos] in s.info
    requires s.vvTried[GetTriedBucket(s.key, s.info[id])][pos] != id
    ensures Replaced(Detached(s, id), id, origin, GetTriedBucket(s.key, s.info[id]), pos)
            == Exchanged(s, id, origin, pos)
  {
    var b := GetTriedBucket(s.key, s.info[id]);
    var old' := s.vvTried[b][pos];
    var d := Detached(s, id);
    assert d.info[old'] == s.info[old'];
    assert Replaced(d, id, origin, b, pos).info == s.info[old' := Demoted(s.info[old'])][id := Promoted(s.info[id])];
  }

  /** What MakeTried does: fills a free place, or exchanges with the selected entry of the full bucket. */
  ghost predicate MadeTried(s: Tables, t: Tables, id: int, origin: int, rnd: seq<nat>) {
    && |s.vvTried| == TRIED_BUCKET_COUNT && |s.vvNew| == NEW_BUCKET_COUNT && 0 <= origin < NEW_BUCKET_COUNT
      && id in s.info
    && var b := GetTriedBucket(s.key, s.info[id]);
      if |s.vvTried[b]| < TRIED_BUCKET_SIZE then t == MovedToTried(s, id)
      else ExchangeDone(s, t, id, origin, rnd)
  }

  /** The bucket is left in the order in which SelectTried shuffled it, with id at the position it returned. */
  ghost predicate ExchangeDone(s: Tables, t: Tables, id: int, origin: nat, rnd: seq<nat>) {
    && |s.vvTried| == TRIED_BUCKET_COUNT && |s.vvNew| == NEW_BUCKET_COUNT && origin < NEW_BUCKET_COUNT && id in s.info
    && |rnd| == TRIED_ENTRIES_INSPECT_ON_EVICT
    && var b := GetTriedBucket(s.key, s.info[id]);
      && (forall x :: x in s.vvTried[b] ==> x in s.info)
      && var (shuffled, pos) := Inspect(s.vvTried[b], Detached(s, id).info, rnd, 0, None, -1);
        && multiset(shuffled) == multiset(s.vvTried[b]) && 0 <= pos < |shuffled| && shuffled[pos] in s.info
        && t == Exchanged(s.(vvTried := s.vvTried[b := shuffled]), id, origin, pos)
  }

  /** Exchanging with the entry that SelectTried picks. */
  lemma EvictionKeeps(s: Tables, id: int, origin: nat, b: nat, rnd: seq<nat>)
    requires Consistent(s) && id in s.info && !s.info[id].inTried && s.info[id].lastSuccess > 0
    requires origin < NEW_BUCKET_COUNT && id in s.vvNew[origin] && |rnd| == TRIED_ENTRIES_INSPECT_ON_EVICT
    requires b == GetTriedBucket(s.key, s.info[id]) && |s.vvTried[b]| == TRIED_BUCKET_SIZE
    ensures forall x :: x in s.vvTried[b] ==> x in s.info
    ensures var (shuffled, pos) := Inspect(s.vvTried[b], Detached(s, id).info, rnd, 0, None, -1);
      var d := Detached(s.(vvTried := s.vvTried[b := shuffled]), id);
      && 0 <= pos < |shuffled| && shuffled[pos] in d.info
      && Consistent(Replaced(d, id, origin, b, pos))
        && ExchangeDone(s, Replaced(d, id, origin, b, pos), id, origin, rnd)
  {
    TriedBucketMembers(s, id);
    InspectPermutes(s.vvTried[b], Detached(s, id).info, rnd, 0, None, -1);
    var (shuffled, pos) := Inspect(s.vvTried[b], Detached(s, id).info, rnd, 0, None, -1);
    ShuffleKeeps(s, b, shuffled);
    var s1 := s.(vvTried := s.vvTried[b := shuffled]);
    ExchangeKeeps(s1, id, origin, pos);
    TriedNotNew(s1, id, b, pos);
    ReplacedIsExchanged(s1, id, origin, pos);
  }

  lemma TriedBucketMembers(s: Tables, id: int)
    requires Consistent(s) && id in s.info
    ensures forall x :: x in s.vvTried[GetTriedBucket(s.key, s.info[id])] ==> x in s.info
    ensures s.info[id].refCount == Refs(s.vvNew, id)
  {
    var b := GetTriedBucket(s.key, s.info[id]);
    assert EntryOk(s.info[id], s.idCount, s.vvNew, None, id);
    assert TriedBucketOk(s.key, s.info, s.vvTried[b], b);
    forall x | x in s.vvTried[b] ensures x in s.info { assert InTriedSlot(s.key, s.info, x, b); }
  }

  lemma TriedNotNew(s: Tables, id: int, b: nat, pos: nat)
    requires Consistent(s) && id in s.info && !s.info[id].inTried && b < |s.vvTried| && pos < |s.vvTried[b]|
    ensures s.vvTried[b][pos] != id
  {
    assert TriedBucketOk(s.key, s.info, s.vvTried[b], b);
    assert InTriedSlot(s.key, s.info, s.vvTried[b][pos], b);
  }

  function EmptyTables(key: Key): Tables {
    Tables(key, 0, map[], map[], [], 0, seq(TRIED_BUCKET_COUNT, _ => []), 0, seq(NEW_BUCKET_COUNT, _ => {}))
  }

  lemma EmptyIsConsistent(key: Key)
    ensures Consistent(EmptyTables(key))
  {
    var s := EmptyTables(key);
    assert TriedIds(s.info) == {} && NewIds(s.info) == {};
  }
}
