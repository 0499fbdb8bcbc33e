/** The node's chain state, updated in place as in the source. */
module ChainState {
  import opened Basics
  import opened Ledger
  import opened BlockTree
  import opened TxDatabase
  import opened ChainSpec
  import opened ChainLaws
  import opened LinkLaws
  import opened ChainWalk

  lemma ConnectAllNext(t: Tree, w: Work, hs: seq<Hash>, vs: Verdicts, i: nat)
    requires i < |hs| && Known(t, hs)
    ensures hs[i] in t && Known(t, hs[..i]) && Known(t, hs[..i + 1])
    ensures var (ok, w1) := ConnectAll(t, w, hs[..i], vs);
      ConnectAll(t, w, hs[..i + 1], vs) == if ok then ConnectStep(t, w1, hs[i], vs) else (false, w1)
  {
    assert hs[i] in hs && Front(hs[..i + 1]) == hs[..i] && Last(hs[..i + 1]) == hs[i];
  }

  lemma BranchesAreChains(t: Tree, g: Hash, a: Hash, b: Hash)
    requires WfTree(t, g) && a in t && b in t
    ensures var p, q := Path(t, g, a), Path(t, g, b);
      var k := CommonPrefix(p, q);
      && IsChain(t, p) && IsChain(t, q) && Last(p) == a && Last(q) == b && PartAt(p, q, k) && p[k - 1] == q[k - 1]
      && Known(t, p[k..]) && Known(t, q[k..])
  {
    var p, q := Path(t, g, a), Path(t, g, b);
    var k := CommonPrefix(p, q);
    ForkIsCommonPrefix(t, g, a, b);
    PathIsChain(t, g, a); PathIsChain(t, g, b);
    PathEnds(t, g, a); PathEnds(t, g, b);
    assert p[..k][k - 1] == q[..k][k - 1];
  }

  /** Once a block is refused, the rest of the stretch does not matter. */
  lemma {:induction false} ConnectAllStops(t: Tree, w: Work, hs: seq<Hash>, vs: Verdicts, k: nat)
    requires k <= |hs| && Known(t, hs) && Known(t, hs[..k]) && !ConnectAll(t, w, hs[..k], vs).0
    ensures ConnectAll(t, w, hs, vs) == ConnectAll(t, w, hs[..k], vs)
    decreases |hs|
  {
    if k < |hs| {
      assert Front(hs)[..k] == hs[..k];
      ConnectAllStops(t, w, Front(hs), vs, k);
    } else {
      assert hs[..k] == hs;
    }
  }

  lemma PostponedNext(s: Chain, hs: seq<Hash>, vs: Verdicts, i: nat)
    requires i < |hs| && Known(s.tree, hs)
    ensures hs[i] in s.tree && Known(s.tree, hs[..i]) && Known(s.tree, hs[..i + 1])
    ensures var (ok, s1) := Postponed(s, hs[..i], vs);
      Postponed(s, hs[..i + 1], vs) == if ok then Inner(s1, hs[i], vs) else (false, s1)
  {
    assert hs[i] in hs && Front(hs[..i + 1]) == hs[..i] && Last(hs[..i + 1]) == hs[i];
  }

  lemma {:induction false} PostponedStops(s: Chain, hs: seq<Hash>, vs: Verdicts, k: nat)
    requires k <= |hs| && Known(s.tree, hs) && Known(s.tree, hs[..k]) && !Postponed(s, hs[..k], vs).0
    ensures Postponed(s, hs, vs) == Postponed(s, hs[..k], vs)
    decreases |hs|
  {
    if k < |hs| {
      assert Front(hs)[..k] == hs[..k];
      PostponedStops(s, Front(hs), vs, k);
    } else {
      assert hs[..k] == hs;
    }
  }

  class ChainState {
    var mapBlockIndex: Tree
    var pnext: map<Hash, Hash>
    var pindexBest: Hash
    var supply: map<Hash, int>
    var pblockindexFBBHLast: Option<Hash>
    const genesis: Hash
    const txdb: TxDb

    /** A node that knows only the genesis block. */
    constructor (genesis: Hash, trust: nat, time: int, txs: seq<Tx>)
      ensures Valid() && fresh(txdb) && IsStart(Abs(), genesis) && this.genesis == genesis
    {
      this.genesis := genesis;
      mapBlockIndex := map[genesis := BlockIndex(0, 0, trust, time, txs)];
      pnext, pindexBest, supply, pblockindexFBBHLast := map[], genesis, map[], None;
      txdb := new TxDb();
      new;
      StartIsGood(Abs(), genesis);
    }

    ghost function Abs(): Chain
      reads this, txdb
    {
      Chain(mapBlockIndex, pnext, pindexBest, txdb.db, supply)
    }

    /** The lookup cache, when set, names a block of the main chain. */
    ghost predicate CacheOk()
      reads this, txdb
    {
      pblockindexFBBHLast.Some? ==> IsInMainChain(Abs(), pblockindexFBBHLast.value)
    }

    ghost predicate Valid()
      reads this, txdb
    {
      Good(Abs(), genesis) && txdb.activeBatch.None? && CacheOk()
    }

    /** What holds even after a postponed block was refused. */
    ghost predicate Sound()
      reads this, txdb
    {
      Anchored(Abs(), genesis) && txdb.activeBatch.None?
    }

    predicate InMainChain(h: Hash)
      reads this
    {
      h in pnext || h == pindexBest
    }

    function Height(h: Hash): nat
      requires h in mapBlockIndex
      reads this
    {
      mapBlockIndex[h].height
    }

    /** Disconnects the listed blocks, given from the tip down, inside the open database transaction. */
    method DisconnectBranch(vDisconnect: seq<Hash>, ghost hs: seq<Hash>) returns (ok: bool)
      requires txdb.activeBatch.Some? && Known(mapBlockIndex, hs) && IsReverse(hs, vDisconnect)
      modifies txdb
      ensures txdb.activeBatch.Some? && txdb.db == old(txdb.db)
      ensures var r := DisconnectAll(mapBlockIndex, old(txdb.View()), hs);
        (ok <==> r.Some?) && (ok ==> txdb.View() == r.value)
    {
      ghost var t := mapBlockIndex;
      var i := 0;
      assert hs[..|hs|] == hs;
      while i < |vDisconnect|
        invariant 0 <= i <= |vDisconnect|
        invariant txdb.activeBatch.Some? && txdb.db == old(txdb.db)
        invariant Known(t, hs[..|hs| - i])
        invariant DisconnectAll(t, txdb.View(), hs[..|hs| - i]) == DisconnectAll(t, old(txdb.View()), hs)
      {
        assert vDisconnect[i] == Last(hs[..|hs| - i]) && vDisconnect[i] in hs;
        assert Front(hs[..|hs| - i]) == hs[..|hs| - i - 1];
        var done := DisconnectBlock(txdb, mapBlockIndex[vDisconnect[i]].txs);
        if !done { return false; }
        i := i + 1;
      }
      return true;
    }

    function BlockContext(h: Hash): Context
      requires h in mapBlockIndex
      reads this
    {
      ContextOf(mapBlockIndex, supply, h)
    }

    /** Connects one block inside the open database transaction and records its money supply. */
    method ConnectIndexed(h: Hash, vs: Verdicts) returns (ok: bool)
      requires txdb.activeBatch.Some? && h in mapBlockIndex
      modifies this`supply, txdb
      ensures txdb.activeBatch.Some? && txdb.db == old(txdb.db)
      ensures var (ok', w) := ConnectStep(mapBlockIndex, Work(old(txdb.View()), old(supply)), h, vs);
        ok == ok' && supply == w.supply && (ok ==> txdb.View() == w.index)
    {
      var moneySupply;
      ok, moneySupply := ConnectBlock(txdb, BlockContext(h), mapBlockIndex[h].txs, vs(h));
      if ok {
        supply := supply[h := moneySupply];
      }
    }

    /** Connects the listed blocks in order inside the open database transaction. */
    method ConnectBranch(vConnect: seq<Hash>, vs: Verdicts) returns (ok: bool)
      requires txdb.activeBatch.Some? && Known(mapBlockIndex, vConnect)
      modifies this`supply, txdb
      ensures txdb.activeBatch.Some? && txdb.db == old(txdb.db)
      ensures var (ok', w) := ConnectAll(mapBlockIndex, Work(old(txdb.View()), old(supply)), vConnect, vs);
        ok == ok' && supply == w.supply && (ok ==> txdb.View() == w.index)
    {
      ghost var t, w0 := mapBlockIndex, Work(txdb.View(), supply);
      var i := 0;
      while i < |vConnect|
        invariant 0 <= i <= |vConnect|
        invariant txdb.activeBatch.Some? && txdb.db == old(txdb.db)
        invariant Known(t, vConnect[..i])
        invariant ConnectAll(t, w0, vConnect[..i], vs) == (true, Work(txdb.View(), supply))
      {
        ConnectAllNext(t, w0, vConnect, vs, i);
        var done := ConnectIndexed(vConnect[i], vs);
        if !done {
          ConnectAllStops(t, w0, vConnect, vs, i + 1);
          return false;
        }
        i := i + 1;
      }
      assert vConnect[..i] == vConnect;
      return true;
    }

    /** Rewrites the forward pointers: first those into the old branch, then those into the new one. */
    method Relink(vDisconnect: seq<Hash>, vConnect: seq<Hash>, ghost hs: seq<Hash>)
      requires Known(mapBlockIndex, hs) && Known(mapBlockIndex, vConnect) && IsReverse(hs, vDisconnect)
      modifies this`pnext
      ensures pnext == Link(Unlink(old(pnext), mapBlockIndex, hs), mapBlockIndex, vConnect)
    {
      ghost var t := mapBlockIndex;
      assert hs[..|hs|] == hs;
      for i := 0 to |vDisconnect|
        invariant Known(t, hs[..|hs| - i])
        invariant Unlink(pnext, t, hs[..|hs| - i]) == Unlink(old(pnext), t, hs)
      {
        assert vDisconnect[i] == Last(hs[..|hs| - i]) && vDisconnect[i] in hs;
        assert Front(hs[..|hs| - i]) == hs[..|hs| - i - 1];
        pnext := pnext - {mapBlockIndex[vDisconnect[i]].prev};
      }
      ghost var unlinked := pnext;
      for i := 0 to |vConnect|
        invariant Known(t, vConnect[..i]) && pnext == Link(unlinked, t, vConnect[..i])
      {
        assert vConnect[i] in vConnect && Front(vConnect[..i + 1]) == vConnect[..i];
        pnext := pnext[mapBlockIndex[vConnect[i]].prev := vConnect[i]];
      }
      assert vConnect[..|vConnect|] == vConnect;
    }

    method Reorganize(pindexNew: Hash, vs: Verdicts) returns (ok: bool)
      requires Rooted(Abs(), genesis) && pindexNew in mapBlockIndex
      requires txdb.activeBatch.Some? && txdb.View() == txdb.db
      modifies this`pnext, this`supply, txdb
      ensures (ok, Abs()) == ChainSpec.Reorganize(old(Abs()), genesis, pindexNew, vs)
      ensures txdb.activeBatch.None? <==> ok
    {
      ghost var t := mapBlockIndex;
      ghost var p, q := Path(t, genesis, pindexBest), Path(t, genesis, pindexNew);
      ghost var k := CommonPrefix(p, q);
      var vDisconnect, vConnect := FindBranches(pindexNew);
      ok := DisconnectBranch(vDisconnect, p[k..]);
      if !ok { return; }
      ok := ConnectBranch(vConnect, vs);
      if !ok { return; }
      txdb.TxnCommit();
      Relink(vDisconnect, vConnect, p[k..]);
    }

    /** Finds the fork and lists the blocks to disconnect, tip first, and those to connect. */
    method FindBranches(pindexNew: Hash) returns (vDisconnect: seq<Hash>, vConnect: seq<Hash>)
      requires Rooted(Abs(), genesis) && pindexNew in mapBlockIndex
      ensures var p, q := Path(mapBlockIndex, genesis, pindexBest), Path(mapBlockIndex, genesis, pindexNew);
        var k := CommonPrefix(p, q);
        && vConnect == q[k..] && Known(mapBlockIndex, vConnect)
        && IsReverse(p[k..], vDisconnect) && Known(mapBlockIndex, p[k..])
    {
      ghost var p, q := Path(mapBlockIndex, genesis, pindexBest), Path(mapBlockIndex, genesis, pindexNew);
      ghost var k := CommonPrefix(p, q);
      BranchesAreChains(mapBlockIndex, genesis, pindexBest, pindexNew);
      var pfork := FindFork(mapBlockIndex, pindexBest, pindexNew, p, q, k);
      vDisconnect := ListDown(mapBlockIndex, pindexBest, pfork, p, k);
      var down := ListDown(mapBlockIndex, pindexNew, pfork, q, k);
      vConnect := Reversed(down);
    }

    method SetBestChainInner(pindexNew: Hash, vs: Verdicts) returns (ok: bool)
      requires pindexNew in mapBlockIndex
      requires txdb.activeBatch.Some? && txdb.View() == txdb.db
      modifies this`pnext, this`supply, txdb
      ensures (ok, Abs()) == Inner(old(Abs()), pindexNew, vs)
      ensures txdb.activeBatch.None?
    {
      ok := ConnectIndexed(pindexNew, vs);
      if !ok {
        txdb.TxnAbort();
        return;
      }
      txdb.TxnCommit();
      pnext := pnext[mapBlockIndex[pindexNew].prev := pindexNew];
    }

    /** Connects the postponed blocks, one database transaction each, until one is refused. */
    method ConnectPostponed(hs: seq<Hash>, vs: Verdicts) returns (complete: bool)
      requires Known(mapBlockIndex, hs) && txdb.activeBatch.None?
      modifies this`pnext, this`supply, txdb
      ensures (complete, Abs()) == Postponed(old(Abs()), hs, vs)
      ensures txdb.activeBatch.None?
    {
      ghost var s := Abs();
      var i := 0;
      while i < |hs|
        invariant 0 <= i <= |hs| && txdb.activeBatch.None? && Known(s.tree, hs[..i])
        invariant (true, Abs()) == Postponed(s, hs[..i], vs)
      {
        PostponedNext(s, hs, vs, i);
        txdb.TxnBegin();
        var ok := SetBestChainInner(hs[i], vs);
        if !ok {
          PostponedStops(s, hs, vs, i + 1);
          return false;
        }
        i := i + 1;
      }
      assert hs[..i] == hs;
      return true;
    }

    /** Reorganises to the lowest heavier block of the new chain, then connects the rest. */
    method SwitchBranch(pindexNew: Hash, vs: Verdicts) returns (ok: bool, complete: bool)
      requires Rooted(Abs(), genesis) && pindexNew in mapBlockIndex
      requires txdb.activeBatch.Some? && txdb.View() == txdb.db
      modifies this`pnext, this`supply, txdb
      ensures txdb.activeBatch.None?
      ensures Switch(ok, complete, Abs()) == ChainSpec.SwitchBranch(old(Abs()), genesis, pindexNew, vs)
    {
      complete := true;
      var pindexIntermediate, postponed := FindPivot(pindexNew);
      SwitchBranchIs(Abs(), genesis, pindexNew, vs, pindexIntermediate, postponed);
      ok := Reorganize(pindexIntermediate, vs);
      if !ok {
        txdb.TxnAbort();
        return;
      }
      complete := ConnectPostponed(postponed, vs);
    }

    /** The lowest block that makes the new chain the heavier one, and the blocks after it, in order. */
    method FindPivot(pindexNew: Hash) returns (pindexIntermediate: Hash, postponed: seq<Hash>)
      requires Rooted(Abs(), genesis) && pindexNew in mapBlockIndex
      ensures var q, i := Path(mapBlockIndex, genesis, pindexNew), Pivot(Abs(), genesis, pindexNew);
        && pindexIntermediate == q[i] && postponed == q[i + 1..]
        && pindexIntermediate in mapBlockIndex && Known(mapBlockIndex, postponed)
    {
      ghost var q := Path(mapBlockIndex, genesis, pindexNew);
      PathIsChain(mapBlockIndex, genesis, pindexNew);
      PathEnds(mapBlockIndex, genesis, pindexNew);
      var secondary;
      pindexIntermediate, secondary := FindIntermediate(mapBlockIndex, pindexNew, mapBlockIndex[pindexBest].trust, q);
      postponed := Reversed(secondary);
    }

    /** Makes pindexNew the best block.  From a valid state, the state is valid afterwards exactly if no postponed
        block was refused. */
    method SetBestChain(pindexNew: Hash, vs: Verdicts) returns (ok: bool, complete: bool)
      requires Sound() && pindexNew in mapBlockIndex && Height(pindexNew) > 0
      modifies this, txdb
      ensures Switch(ok, complete, Abs()) == ChainSpec.SetBestChain(old(Abs()), genesis, pindexNew, vs)
      ensures Sound() && (old(Valid()) ==> (Valid() <==> complete))
      ensures !ok ==> complete && Abs() == old(Abs()).(supply := supply)
    {
      SetBestChainAnchors(Abs(), genesis, pindexNew, vs);
      if Good(Abs(), genesis) { SetBestChainKeeps(Abs(), genesis, pindexNew, vs); }
      ok, complete := MoveTip(pindexNew, vs);
    }

    /** Extends or switches the chain in a database transaction, then moves the tip. */
    method MoveTip(pindexNew: Hash, vs: Verdicts) returns (ok: bool, complete: bool)
      requires Rooted(Abs(), genesis) && txdb.activeBatch.None? && pindexNew in mapBlockIndex
      modifies this, txdb
      ensures Switch(ok, complete, Abs()) == ChainSpec.SetBestChain(old(Abs()), genesis, pindexNew, vs)
      ensures txdb.activeBatch.None?
      ensures pblockindexFBBHLast == if ok then None else old(pblockindexFBBHLast)
    {
      txdb.TxnBegin();
      complete := true;
      if mapBlockIndex[pindexNew].prev == pindexBest {
        ok := SetBestChainInner(pindexNew, vs);
      } else {
        ok, complete := SwitchBranch(pindexNew, vs);
      }
      if ok {
        pindexBest := pindexNew;
        pblockindexFBBHLast := None;
      }
    }

    method AddToBlockIndex(b: NewBlock, vs: Verdicts) returns (ok: bool, complete: bool)
      requires Sound()
      modifies this, txdb
      ensures Switch(ok, complete, Abs()) == ChainSpec.AddToBlockIndex(old(Abs()), genesis, b, vs)
      ensures Sound() && (old(Valid()) && complete ==> Valid())
    {
      if b.hash in mapBlockIndex || b.prev !in mapBlockIndex { return false, true; }
      GrowAnchored(Abs(), genesis, b);
      if Good(Abs(), genesis) { GrowTree(Abs(), genesis, b); }
      InsertKeepsTree(mapBlockIndex, genesis, b);
      mapBlockIndex := Insert(mapBlockIndex, b);
      ok, complete := true, true;
      if mapBlockIndex[b.hash].trust > mapBlockIndex[pindexBest].trust {
        ok, complete := SetBestChain(b.hash, vs);
      }
    }

    /** Finds the main-chain block of a height, from genesis, the tip or the last block found, whichever is nearest. */
    method FindBlockByHeight(nHeight: nat) returns (pblockindex: Hash)
      requires Valid() && nHeight <= Height(pindexBest)
      modifies this`pblockindexFBBHLast
      ensures Valid()
      ensures pblockindex == Path(mapBlockIndex, genesis, pindexBest)[nHeight]
      ensures pblockindexFBBHLast == Some(pblockindex)
    {
      ghost var t, p := mapBlockIndex, Path(mapBlockIndex, genesis, pindexBest);
      PathIsChain(t, genesis, pindexBest);
      LinksAt(p);
      var start := NearestStart(nHeight);
      pblockindex := WalkToHeight(mapBlockIndex, pnext, start, nHeight, p);
      pblockindexFBBHLast := Some(pblockindex);
      InMainChainIffAncestor(Abs(), genesis, pblockindex);
    }

    /** Genesis, the tip or the last block found: each is in the main chain. */
    method NearestStart(nHeight: nat) returns (pblockindex: Hash)
      requires Valid() && nHeight <= Height(pindexBest)
      ensures pblockindex in mapBlockIndex && pblockindex in Path(mapBlockIndex, genesis, pindexBest)
    {
      PathEnds(mapBlockIndex, genesis, pindexBest);
      PathPositions(mapBlockIndex, genesis, pindexBest);
      if nHeight < Height(pindexBest) / 2 {
        pblockindex := genesis;
      } else {
        pblockindex := pindexBest;
      }
      if pblockindexFBBHLast.Some? {
        InMainChainIffAncestor(Abs(), genesis, pblockindexFBBHLast.value);
        if Distance(nHeight, Height(pblockindex)) > Distance(nHeight, Height(pblockindexFBBHLast.value)) {
          pblockindex := pblockindexFBBHLast.value;
        }
      }
    }
  }

  function Distance(a: nat, b: nat): nat { if a >= b then a - b else b - a }
}
