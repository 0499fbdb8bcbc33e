/** The stake modifier: 64 bits, each contributed by a block chosen from a group of recent ones. */
module StakeModifier {
  import opened Basics
  import opened BlockTree
  import opened ChainLaws
  import opened Rewards

  const MODIFIER_INTERVAL := 6 * 60 * 60
  const NEW_MODIFIER_INTERVAL := 100
  const MODIFIER_INTERVAL_RATIO := 3
  const ROUNDS := 64

  /** A 64-bit word, lowest bit first. */
  type Word = w: seq<bool> | |w| == 64 witness seq(64, _ => false)

  function Zero(): Word { seq(64, _ => false) }

  /** What the selection needs to know of a block besides its time. */
  datatype StakeInfo = StakeInfo(isProofOfStake: bool, proof: Hash, entropyBit: bool, generated: bool, modifier: Word)

  /** The hash of a block's proof together with the previous modifier. */
  type SelectionHash = (Hash, Word) -> Hash

  function GetModifierInterval(time: nat): (n: nat)
    ensures n > 0
  {
    if time >= HARDFORK_TIME then NEW_MODIFIER_INTERVAL else MODIFIER_INTERVAL
  }

  function Section(n: nat, time: nat): nat
    requires n < ROUNDS
  {
    GetModifierInterval(time) * 63 / (63 + (63 - n) * (MODIFIER_INTERVAL_RATIO - 1))
  }

  /** The sections of the first n rounds together. */
  function Sections(n: nat, time: nat): nat
    requires n <= ROUNDS
  {
    if n == 0 then 0 else Sections(n - 1, time) + Section(n - 1, time)
  }

  method GetStakeModifierSelectionInterval(time: nat) returns (n: nat)
    ensures n == Sections(ROUNDS, time)
  {
    n := 0;
    for section := 0 to ROUNDS
      invariant n == Sections(section, time)
    {
      n := n + Section(section, time);
    }
  }

  // ---------- candidates in order ----------

  datatype Item = Item(time: int, hash: Hash)

  predicate ItemLess(a: Item, b: Item) { a.time < b.time || (a.time == b.time && a.hash < b.hash) }

  function InsertItem(x: Item, s: seq<Item>): seq<Item> {
    if s == [] || ItemLess(x, s[0]) then [x] + s else [s[0]] + InsertItem(x, s[1..])
  }

  function SortItems(s: seq<Item>): seq<Item> { if s == [] then [] else InsertItem(s[0], SortItems(s[1..])) }

  ghost predicate Ascends(s: seq<Item>) { forall i, j :: 0 <= i < j < |s| ==> ItemLess(s[i], s[j]) }

  lemma {:induction false} InsertItemAscends(x: Item, s: seq<Item>)
    requires Ascends(s) && x !in s
    ensures Ascends(InsertItem(x, s)) && |InsertItem(x, s)| == |s| + 1
    ensures forall y :: y in InsertItem(x, s) <==> y == x || y in s
  {
    if s == [] || ItemLess(x, s[0]) {
      assert forall y :: y in [x] + s <==> y == x || y in s;
    } else {
      var r := InsertItem(x, s[1..]);
      assert s == [s[0]] + s[1..] && s[0] in s;
      InsertItemAscends(x, s[1..]);
      forall k | 0 <= k < |r| ensures ItemLess(s[0], r[k]) {
        var y := r[k];
        assert y in r;
        assert y in s[1..] ==> ItemLess(s[0], y);
      }
      assert forall y :: y in [s[0]] + r <==> y == s[0] || y in r;
      assert forall y :: y in s <==> y == s[0] || y in s[1..];
    }
  }

  lemma {:induction false} SortItemsAscends(s: seq<Item>)
    requires Distinct(s)
    ensures Ascends(SortItems(s)) && |SortItems(s)| == |s|
    ensures forall y :: y in SortItems(s) <==> y in s
  {
    if s != [] {
      assert s == [s[0]] + s[1..];
      assert s[0] !in s[1..] by { assert forall k :: 0 <= k < |s| - 1 ==> s[1..][k] == s[k + 1]; }
      SortItemsAscends(s[1..]);
      InsertItemAscends(s[0], SortItems(s[1..]));
      assert forall y :: y in s <==> y == s[0] || y in s[1..];
    }
  }

  // ---------- choosing one block ----------

  /** Proof-of-stake blocks are favoured: their hash is shortened by 32 bits. */
  function Rank(info: Hash -> StakeInfo, sel: SelectionHash, prev: Word, h: Hash): nat {
    var hash := sel(if info(h).isProofOfStake then info(h).proof else h, prev);
    if info(h).isProofOfStake then hash / 0x1_0000_0000 else hash
  }

  function RankBy(info: Hash -> StakeInfo, sel: SelectionHash, prev: Word): Hash -> nat {
    (h: Hash) => Rank(info, sel, prev, h)
  }

  function BitOf(info: Hash -> StakeInfo): Hash -> bool { (h: Hash) => info(h).entropyBit }

  /** c[k] is chosen: among the unselected up to the stop time it has the least rank, the first of equals; if
      there is none, it is the earliest unselected. */
  ghost predicate IsChoice(c: seq<Item>, selected: set<Hash>, stop: int, rank: Hash -> nat, k: nat) {
    && k < |c| && c[k].hash !in selected
    && (c[k].time > stop ==> forall i :: 0 <= i < k ==> c[i].hash in selected)
    && (c[k].time <= stop ==>
          forall i :: 0 <= i < |c| && c[i].hash !in selected && c[i].time <= stop ==>
            rank(c[k].hash) <= rank(c[i].hash) && (i < k ==> rank(c[k].hash) < rank(c[i].hash)))
  }

  /** The state of the scan after the first n items. */
  ghost predicate Scanned(c: seq<Item>, selected: set<Hash>, stop: int, rank: Hash -> nat, n: nat, best: Option<nat>) {
    match best
    case None => n <= |c| && forall i :: 0 <= i < n ==> c[i].hash in selected
    case Some(k) => k < n <= |c| && IsChoice(c[..n], selected, stop, rank, k)
  }

  method SelectBlockFromCandidates(c: seq<Item>, selected: set<Hash>, stop: int, info: Hash -> StakeInfo,
                                   sel: SelectionHash, prev: Word)
    returns (fSelected: bool, k: nat)
    requires Ascends(c)
    ensures fSelected <==> exists i :: 0 <= i < |c| && c[i].hash !in selected
    ensures fSelected ==> IsChoice(c, selected, stop, RankBy(info, sel, prev), k)
  {
    fSelected, k := false, 0;
    ghost var rank := RankBy(info, sel, prev);
    var hashBest := 0;
    var n := 0;
    while n < |c|
      invariant 0 <= n <= |c| && Scanned(c, selected, stop, rank, n, if fSelected then Some(k) else None)
      invariant fSelected ==> hashBest == rank(c[k].hash)
    {
      var item := c[n];
      if fSelected && item.time > stop {
        ChoiceIsFinal(c, selected, stop, rank, n, k);
        return;
      }
      if item.hash !in selected {
        var hashSelection := Rank(info, sel, prev, item.hash);
        if fSelected && hashSelection < hashBest {
          hashBest, k := hashSelection, n;
        } else if !fSelected {
          fSelected, hashBest, k := true, hashSelection, n;
        }
      }
      n := n + 1;
    }
    assert c[..n] == c;
  }

  lemma ChoiceIsFinal(c: seq<Item>, selected: set<Hash>, stop: int, rank: Hash -> nat, n: nat, k: nat)
    requires Ascends(c) && n < |c| && c[n].time > stop && Scanned(c, selected, stop, rank, n, Some(k))
    ensures IsChoice(c, selected, stop, rank, k)
  {
    assert c[..n][k] == c[k];
    assert forall i :: n < i < |c| ==> ItemLess(c[n], c[i]);
    forall i | 0 <= i < |c| && c[i].hash !in selected && c[i].time <= stop && c[k].time <= stop
      ensures rank(c[k].hash) <= rank(c[i].hash) && (i < k ==> rank(c[k].hash) < rank(c[i].hash))
    {
      assert i < n;
      assert c[..n][i] == c[i];
    }
    forall i | 0 <= i < k && c[k].time > stop ensures c[i].hash in selected { assert c[..n][i] == c[i]; }
  }

  // ---------- computing the modifier ----------

  /** The last n blocks of a chain, back to the first one that is too old: position of the earliest kept. */
  ghost function Stretch(t: Tree, p: seq<Hash>, n: nat, start: int): (k: nat)
    requires n <= |p| && IsChain(t, p)
    ensures k <= n
  {
    if n > 0 && TimeOf(t, p, n - 1) >= start then Stretch(t, p, n - 1, start) else n
  }

  ghost function TimeOf(t: Tree, p: seq<Hash>, i: nat): int
    requires i < |p| && IsChain(t, p)
  {
    assert ChainAt(t, p, i);
    t[p[i]].time
  }

  ghost predicate IsItem(t: Tree, p: seq<Hash>, i: nat, x: Item)
    requires i < |p| && IsChain(t, p)
  {
    x == Item(TimeOf(t, p, i), p[i])
  }

  /** The blocks from position k on as candidates. */
  ghost predicate ListsFrom(t: Tree, p: seq<Hash>, k: nat, c: seq<Item>)
    requires IsChain(t, p)
  {
    && k <= |p| && |c| == |p| - k && Ascends(c)
    && (forall i :: k <= i < |p| ==> Item(TimeOf(t, p, i), p[i]) in c)
    && (forall x :: x in c ==> exists i :: k <= i < |p| && IsItem(t, p, i, x))
  }

  function SelectedBy(c: seq<Item>, picks: seq<nat>): set<Hash>
    requires forall r :: 0 <= r < |picks| ==> picks[r] < |c|
  {
    set r | 0 <= r < |picks| :: c[picks[r]].hash
  }

  ghost predicate PickAt(c: seq<Item>, picks: seq<nat>, start: int, time: nat, rank: Hash -> nat, r: nat)
    requires r < |picks| && r < ROUNDS && forall j :: 0 <= j < |picks| ==> picks[j] < |c|
  {
    IsChoice(c, SelectedBy(c, picks[..r]), start + Sections(r + 1, time), rank, picks[r])
  }

  /** One pick a round, each by the rule for its stop time; bit r is the entropy bit of pick r, higher bits are zero. */
  ghost predicate Picked(c: seq<Item>, picks: seq<nat>, start: int, time: nat, rank: Hash -> nat, bit: Hash -> bool,
                         word: Word) {
    && |picks| <= ROUNDS && (forall r :: 0 <= r < |picks| ==> picks[r] < |c|)
    && (forall r :: 0 <= r < |picks| ==> PickAt(c, picks, start, time, rank, r))
    && (forall r :: 0 <= r < ROUNDS ==> word[r] == (r < |picks| && bit(c[picks[r]].hash)))
  }

  /** Picks are different blocks. */
  lemma PicksDiffer(c: seq<Item>, picks: seq<nat>, start: int, time: nat, rank: Hash -> nat, bit: Hash -> bool,
                    word: Word, i: nat, j: nat)
    requires Picked(c, picks, start, time, rank, bit, word) && i < j < |picks|
    ensures c[picks[i]].hash != c[picks[j]].hash
  {
    assert PickAt(c, picks, start, time, rank, j);
    assert picks[..j][i] == picks[i] && c[picks[i]].hash in SelectedBy(c, picks[..j]);
  }

  lemma {:induction false} AtMost(c: seq<Item>, selected: set<Hash>)
    requires forall i, j :: 0 <= i < j < |c| ==> c[i].hash != c[j].hash
    requires forall i :: 0 <= i < |c| ==> c[i].hash in selected
    ensures |c| <= |selected|
  {
    if c != [] {
      AtMost(Front(c), selected - {Last(c).hash});
    }
  }

  lemma {:induction false} SelectedCount(c: seq<Item>, picks: seq<nat>)
    requires forall r :: 0 <= r < |picks| ==> picks[r] < |c|
    ensures |SelectedBy(c, picks)| <= |picks|
  {
    if picks != [] {
      SelectedCount(c, Front(picks));
      assert SelectedBy(c, picks) == SelectedBy(c, Front(picks)) + {c[Last(picks)].hash} by {
        forall r | 0 <= r < |picks| ensures c[picks[r]].hash in SelectedBy(c, Front(picks)) + {c[Last(picks)].hash} {
          if r < |picks| - 1 { assert Front(picks)[r] == picks[r]; }
        }
        forall r | 0 <= r < |picks| - 1
          ensures c[Front(picks)[r]].hash in SelectedBy(c, picks)
        {
          assert picks[r] == Front(picks)[r];
        }
        assert picks[|picks| - 1] == Last(picks);
      }
    } else {
      assert SelectedBy(c, picks) == {};
    }
  }

  /** With fewer picks than candidates there is one left. */
  lemma SomeLeft(c: seq<Item>, picks: seq<nat>)
    requires |picks| < |c| && forall r :: 0 <= r < |picks| ==> picks[r] < |c|
    requires forall i, j :: 0 <= i < j < |c| ==> c[i].hash != c[j].hash
    ensures exists i :: 0 <= i < |c| && c[i].hash !in SelectedBy(c, picks)
  {
    SelectedCount(c, picks);
    if forall i :: 0 <= i < |c| ==> c[i].hash in SelectedBy(c, picks) {
      AtMost(c, SelectedBy(c, picks));
      assert false;
    }
  }

  /** The last block that generated a modifier; fails if not even genesis did. */
  method GetLastStakeModifier(t: Tree, h: Hash, info: Hash -> StakeInfo, ghost p: seq<Hash>)
    returns (ok: bool, modifier: Word, time: int, ghost g: nat)
    requires p != [] && IsChain(t, p) && Last(p) == h
    ensures ok <==> exists i :: 0 <= i < |p| && info(p[i]).generated
    ensures ok ==> g < |p| && info(p[g]).generated && modifier == info(p[g]).modifier && time == TimeOf(t, p, g)
    ensures ok ==> forall i :: g < i < |p| ==> !info(p[i]).generated
  {
    var pindex := h;
    g := |p| - 1;
    assert ChainAt(t, p, g);
    while t[pindex].height > 0 && !info(pindex).generated
      invariant g < |p| && pindex == p[g] && ChainAt(t, p, g)
      invariant forall i :: g < i < |p| ==> !info(p[i]).generated
      decreases g
    {
      pindex := t[pindex].prev;
      g := g - 1;
      assert ChainAt(t, p, g);
    }
    ok, modifier, time := info(pindex).generated, info(pindex).modifier, t[pindex].time;
  }

  /** Collects the candidates: back from h to the first block before the start. */
  method Candidates(t: Tree, h: Hash, start: int, ghost p: seq<Hash>) returns (c: seq<Item>)
    requires p != [] && IsChain(t, p) && Last(p) == h
    ensures ListsFrom(t, p, Stretch(t, p, |p|, start), c)
  {
    var found: seq<Item> := [];
    var pindex := Some(h);
    ghost var k: nat := |p|;
    assert ChainAt(t, p, |p| - 1);
    while pindex.Some? && t[pindex.value].time >= start
      invariant k <= |p| && |found| == |p| - k && Stretch(t, p, |p|, start) == Stretch(t, p, k, start)
      invariant pindex == if k > 0 then Some(p[k - 1]) else None
      invariant pindex.Some? ==> pindex.value in t
      invariant forall i :: k <= i < |p| ==> found[|p| - 1 - i] == Item(TimeOf(t, p, i), p[i])
      decreases k
    {
      assert ChainAt(t, p, k - 1);
      found := found + [Item(t[pindex.value].time, pindex.value)];
      pindex := if t[pindex.value].height == 0 then None else Some(t[pindex.value].prev);
      k := k - 1;
      assert k > 0 ==> ChainAt(t, p, k - 1);
    }
    assert k > 0 ==> ChainAt(t, p, k - 1);
    FoundDistinct(t, p, k, found);
    c := SortItems(Reverse(found));
    ReverseSame(found);
    SortItemsAscends(Reverse(found));
    forall i | k <= i < |p| ensures Item(TimeOf(t, p, i), p[i]) in c { assert found[|p| - 1 - i] in found; }
    forall x | x in c ensures exists i :: k <= i < |p| && IsItem(t, p, i, x) {
      assert x in found;
      var j :| 0 <= j < |found| && found[j] == x;
      var i := |p| - 1 - j;
      assert found[|p| - 1 - i] == Item(TimeOf(t, p, i), p[i]);
      assert IsItem(t, p, i, x);
    }
  }

  lemma ReverseSame(s: seq<Item>)
    requires Distinct(s)
    ensures Distinct(Reverse(s)) && forall x :: x in Reverse(s) <==> x in s
  {
    forall x | x in s ensures x in Reverse(s) {
      var i :| 0 <= i < |s| && s[i] == x;
      assert Reverse(s)[|s| - 1 - i] == x;
    }
  }

  lemma FoundDistinct(t: Tree, p: seq<Hash>, k: nat, found: seq<Item>)
    requires IsChain(t, p) && k <= |p| && |found| == |p| - k
    requires forall i :: k <= i < |p| ==> found[|p| - 1 - i] == Item(TimeOf(t, p, i), p[i])
    ensures Distinct(found)
  {
    ChainDistinct(t, p);
    forall i, j | 0 <= i < j < |found| ensures found[i] != found[j] {
      var a, b := |p| - 1 - i, |p| - 1 - j;
      assert found[|p| - 1 - a] == Item(TimeOf(t, p, a), p[a]) && found[|p| - 1 - b] == Item(TimeOf(t, p, b), p[b]);
    }
  }

  lemma DifferentHashes(t: Tree, p: seq<Hash>, k: nat, c: seq<Item>)
    requires IsChain(t, p) && ListsFrom(t, p, k, c)
    ensures forall i, j :: 0 <= i < j < |c| ==> c[i].hash != c[j].hash
  {
    ChainDistinct(t, p);
    forall i, j | 0 <= i < j < |c| ensures c[i].hash != c[j].hash {
      assert c[i] in c && c[j] in c && ItemLess(c[i], c[j]);
    }
  }

  /** The rounds of selection.  None of them fails. */
  method SelectBlocks(c: seq<Item>, start: int, time: nat, info: Hash -> StakeInfo, sel: SelectionHash, prev: Word)
    returns (ok: bool, word: Word, ghost picks: seq<nat>)
    requires Ascends(c) && forall i, j :: 0 <= i < j < |c| ==> c[i].hash != c[j].hash
    ensures ok && |picks| == Min(ROUNDS, |c|)
    ensures Picked(c, picks, start, time, RankBy(info, sel, prev), BitOf(info), word)
  {
    ghost var rank, bit := RankBy(info, sel, prev), BitOf(info);
    word, picks := Zero(), [];
    var stop := start;
    var selected: set<Hash> := {};
    assert SelectedBy(c, []) == {};
    for round := 0 to Min(ROUNDS, |c|)
      invariant |picks| == round && stop == start + Sections(round, time)
      invariant Picked(c, picks, start, time, rank, bit, word)
      invariant selected == SelectedBy(c, picks)
    {
      stop := stop + Section(round, time);
      SomeLeft(c, picks);
      var fSelected, k := SelectBlockFromCandidates(c, selected, stop, info, sel, prev);
      if !fSelected { return false, word, picks; }
      PickedNext(c, picks, start, time, rank, bit, word, k);
      word := word[round := word[round] || info(c[k].hash).entropyBit];
      selected := selected + {c[k].hash};
      picks := picks + [k];
    }
    ok := true;
  }

  lemma PickedNext(c: seq<Item>, picks: seq<nat>, start: int, time: nat, rank: Hash -> nat, bit: Hash -> bool,
                   word: Word, k: nat)
    requires Picked(c, picks, start, time, rank, bit, word) && |picks| < ROUNDS && k < |c|
    requires IsChoice(c, SelectedBy(c, picks), start + Sections(|picks| + 1, time), rank, k)
    ensures var r := |picks|; Picked(c, picks + [k], start, time, rank, bit, word[r := word[r] || bit(c[k].hash)])
    ensures SelectedBy(c, picks + [k]) == SelectedBy(c, picks) + {c[k].hash}
  {
    var all := picks + [k];
    forall r | 0 <= r < |all| ensures PickAt(c, all, start, time, rank, r) {
      if r < |picks| {
        assert PickAt(c, picks, start, time, rank, r);
        assert all[..r] == picks[..r];
      } else {
        assert all[..r] == picks;
      }
    }
    forall r | 0 <= r < |picks| ensures c[picks[r]].hash in SelectedBy(c, all) { assert all[r] == picks[r]; }
    assert all[|picks|] == k;
  }

  /** The modifier for the block after h: the last one until a new interval has begun, then 64 bits of entropy
      of blocks chosen from the stretch before the interval. */
  method ComputeNextStakeModifier(t: Tree, prevBlock: Option<Hash>, info: Hash -> StakeInfo, sel: SelectionHash,
                                  time: nat, ghost p: seq<Hash>)
    returns (ok: bool, modifier: Word, fGenerated: bool, ghost g: nat, ghost c: seq<Item>, ghost picks: seq<nat>)
    requires prevBlock.Some? ==> p != [] && IsChain(t, p) && Last(p) == prevBlock.value
    ensures prevBlock.None? ==> ok && fGenerated && modifier == Zero()
    ensures prevBlock.Some? ==> (ok <==> exists i :: 0 <= i < |p| && info(p[i]).generated)
    ensures prevBlock.Some? && ok ==>
              g < |p| && info(p[g]).generated && forall i :: g < i < |p| ==> !info(p[i]).generated
    ensures prevBlock.Some? && ok ==>
              var interval := GetModifierInterval(time);
              var start := TimeOf(t, p, |p| - 1) / interval * interval - Sections(ROUNDS, time);
              && (fGenerated <==> TimeOf(t, p, g) / interval < TimeOf(t, p, |p| - 1) / interval)
              && (!fGenerated ==> modifier == info(p[g]).modifier)
              && (fGenerated ==>
                    && ListsFrom(t, p, Stretch(t, p, |p|, start), c) && |picks| == Min(ROUNDS, |c|) && picks != []
                    && Picked(c, picks, start, time, RankBy(info, sel, info(p[g]).modifier), BitOf(info), modifier))
  {
    modifier, fGenerated, g, c, picks := Zero(), false, 0, [], [];
    if prevBlock.None? { return true, modifier, true, g, c, picks; }
    var h := prevBlock.value;
    assert ChainAt(t, p, |p| - 1);
    var nModifierTime;
    ok, modifier, nModifierTime, g := GetLastStakeModifier(t, h, info, p);
    if !ok { return; }
    var interval := GetModifierInterval(time);
    if nModifierTime / interval >= t[h].time / interval { return; }
    var nSelectionInterval := GetStakeModifierSelectionInterval(time);
    var start := t[h].time / interval * interval - nSelectionInterval;
    var vSorted := Candidates(t, h, start, p);
    c := vSorted;
    DifferentHashes(t, p, Stretch(t, p, |p|, start), vSorted);
    StretchNonEmpty(t, p, interval, nSelectionInterval);
    var word;
    ok, word, picks := SelectBlocks(vSorted, start, time, info, sel, modifier);
    modifier, fGenerated := word, true;
  }

  lemma StretchNonEmpty(t: Tree, p: seq<Hash>, interval: nat, length: nat)
    requires p != [] && IsChain(t, p) && interval > 0
    ensures Stretch(t, p, |p|, TimeOf(t, p, |p| - 1) / interval * interval - length) < |p|
  {
    var time := TimeOf(t, p, |p| - 1);
    assert time == time / interval * interval + time % interval;
  }
}
