/** The checkpoint state of a node, updated in place as in the source. */
module CheckpointState {
  import opened Basics
  import opened BlockTree
  import opened ChainSpec
  import opened ChainLaws
  import opened ChainWalk
  import opened ChainState
  import opened Checkpoints

  class CheckpointState {
    const chain: ChainState
    var hashSyncCheckpoint: Hash
    var hashPendingCheckpoint: Hash
    var hashInvalidCheckpoint: Hash

    /** A node whose first checkpoint is the genesis block. */
    constructor (chain: ChainState)
      requires chain.Sound()
      ensures Valid() && this.chain == chain && Abs() == Node(chain.Abs(), chain.genesis, 0, 0)
    {
      this.chain := chain;
      hashSyncCheckpoint, hashPendingCheckpoint, hashInvalidCheckpoint := chain.genesis, 0, 0;
      new;
      PathEnds(chain.mapBlockIndex, chain.genesis, chain.pindexBest);
    }

    ghost function Abs(): Node
      reads this, chain, chain.txdb
    {
      Node(chain.Abs(), hashSyncCheckpoint, hashPendingCheckpoint, hashInvalidCheckpoint)
    }

    /** The checkpoint stays below the tip, whether or not postponed blocks are refused. */
    ghost predicate Valid()
      reads this, chain, chain.txdb
    {
      chain.Sound() && Standing(Abs(), chain.genesis)
    }

    /** from or the ancestor of from that stands at the height of h. */
    method AncestorAtHeightOf(from: Hash, h: Hash) returns (found: Hash)
      requires Rooted(chain.Abs(), chain.genesis) && from in chain.mapBlockIndex && h in chain.mapBlockIndex
      requires chain.Height(h) <= chain.Height(from)
      ensures found == h <==> IsAncestor(chain.mapBlockIndex, chain.genesis, h, from)
    {
      ghost var t, g := chain.mapBlockIndex, chain.genesis;
      PathIsChain(t, g, from);
      PathEnds(t, g, from);
      PathPositions(t, g, from);
      found := WalkBack(chain.mapBlockIndex, from, chain.Height(h), Path(t, g, from));
    }

    /** Accepts only a proper descendant of the current checkpoint; remembers a conflicting one. */
    method ValidateSyncCheckpoint(hashCheckpoint: Hash) returns (ok: bool)
      requires Valid()
      modifies this`hashInvalidCheckpoint
      ensures ok <==> Extends(chain.mapBlockIndex, chain.genesis, hashSyncCheckpoint, hashCheckpoint)
      ensures Abs() == if ok then old(Abs()) else Refused(old(Abs()), chain.genesis, hashCheckpoint)
      ensures Valid() && (old(chain.Valid()) ==> chain.Valid())
    {
      ghost var t, g := chain.mapBlockIndex, chain.genesis;
      if hashCheckpoint !in chain.mapBlockIndex { return false; }
      PathPositions(t, g, hashSyncCheckpoint);
      PathPositions(t, g, hashCheckpoint);
      if chain.Height(hashCheckpoint) <= chain.Height(hashSyncCheckpoint) {
        var pindex := AncestorAtHeightOf(hashSyncCheckpoint, hashCheckpoint);
        if pindex != hashCheckpoint {
          hashInvalidCheckpoint := hashCheckpoint;
        }
        return false;
      }
      var pindex := AncestorAtHeightOf(hashCheckpoint, hashSyncCheckpoint);
      if pindex != hashSyncCheckpoint {
        hashInvalidCheckpoint := hashCheckpoint;
        return false;
      }
      return true;
    }

    method CheckSync(hashBlock: Hash, pindexPrev: Hash) returns (ok: bool)
      requires Valid() && pindexPrev in chain.mapBlockIndex
      ensures ok <==> PassesCheckpoint(chain.mapBlockIndex, chain.genesis, hashSyncCheckpoint, hashBlock, pindexPrev)
    {
      var nHeight := chain.Height(pindexPrev) + 1;
      var nSync := chain.Height(hashSyncCheckpoint);
      if nHeight > nSync {
        var pindex := AncestorAtHeightOf(pindexPrev, hashSyncCheckpoint);
        if pindex != hashSyncCheckpoint { return false; }
      }
      if nHeight == nSync && hashBlock != hashSyncCheckpoint { return false; }
      if nHeight < nSync && hashBlock !in chain.mapBlockIndex { return false; }
      return true;
    }

    /** Makes h the checkpoint, and the best block first if it is not in the main chain. */
    method SwitchTo(h: Hash, vs: Verdicts) returns (ok: bool, complete: bool)
      requires Valid() && Extends(chain.mapBlockIndex, chain.genesis, hashSyncCheckpoint, h)
      modifies this, chain, chain.txdb
      ensures Outcome(ok, complete, Abs()) == MoveTo(old(Abs()), chain.genesis, h, vs)
      ensures Valid() && (old(chain.Valid()) && complete ==> chain.Valid())
    {
      ok, complete := true, true;
      ghost var n := Abs();
      MoveRespects(n, chain.genesis, h, vs);
      if !chain.InMainChain(h) {
        ok, complete := chain.SetBestChain(h, vs);
        if !ok {
          hashInvalidCheckpoint := h;
          return;
        }
      }
      hashSyncCheckpoint, hashPendingCheckpoint := h, 0;
    }

    method ProcessSyncCheckpoint(hashCheckpoint: Hash, vs: Verdicts) returns (ok: bool, complete: bool)
      requires Valid()
      modifies this, chain, chain.txdb
      ensures Outcome(ok, complete, Abs())
              == Checkpoints.ProcessSyncCheckpoint(old(Abs()), chain.genesis, hashCheckpoint, vs)
      ensures Valid() && (old(chain.Valid()) && complete ==> chain.Valid())
    {
      if hashCheckpoint !in chain.mapBlockIndex {
        hashPendingCheckpoint := hashCheckpoint;
        return false, true;
      }
      ok := ValidateSyncCheckpoint(hashCheckpoint);
      if !ok { return false, true; }
      ok, complete := SwitchTo(hashCheckpoint, vs);
    }

    method AcceptPendingSyncCheckpoint(vs: Verdicts) returns (ok: bool, complete: bool)
      requires Valid()
      modifies this, chain, chain.txdb
      ensures Outcome(ok, complete, Abs()) == AcceptPending(old(Abs()), chain.genesis, vs)
      ensures Valid() && (old(chain.Valid()) && complete ==> chain.Valid())
    {
      if hashPendingCheckpoint == 0 || hashPendingCheckpoint !in chain.mapBlockIndex { return false, true; }
      ok := ValidateSyncCheckpoint(hashPendingCheckpoint);
      if !ok {
        hashPendingCheckpoint := 0;
        return false, true;
      }
      ok, complete := SwitchTo(hashPendingCheckpoint, vs);
    }

    method AcceptBlock(b: NewBlock, otherChecks: bool, vs: Verdicts, vs2: Verdicts) returns (ok: bool, complete: bool)
      requires Valid()
      modifies this, chain, chain.txdb
      ensures Outcome(ok, complete, Abs())
              == Checkpoints.AcceptBlock(old(Abs()), chain.genesis, b, otherChecks, vs, vs2)
      ensures Valid() && (old(chain.Valid()) && complete ==> chain.Valid())
    {
      if b.hash in chain.mapBlockIndex || b.prev !in chain.mapBlockIndex || !otherChecks { return false, true; }
      var passed := CheckSync(b.hash, b.prev);
      if !passed { return false, true; }
      ghost var n := Abs();
      PassingDescends(n, chain.genesis, b);
      InsertRespects(n, chain.genesis, b, vs);
      ok, complete := chain.AddToBlockIndex(b, vs);
      if !ok { return; }
      var _, done := AcceptPendingSyncCheckpoint(vs2);
      complete := complete && done;
    }
  }
}
