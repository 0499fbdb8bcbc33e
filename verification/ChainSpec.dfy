/** What reorganising the chain and choosing a new best block do to the node's state. */
module ChainSpec {
  import opened Basics
  import opened Ledger
  import opened BlockTree
  import opened TxDatabase

  /** next holds the non-null forward pointers, supply the money supply recorded per block. */
  datatype Chain = Chain(tree: Tree, next: map<Hash, Hash>, best: Hash, index: TxMap, supply: map<Hash, int>)

  /** The open database transaction and the supplies recorded so far. */
  datatype Work = Work(index: TxMap, supply: map<Hash, int>)

  type Verdicts = Hash -> Verdict

  predicate Known(t: Tree, hs: seq<Hash>) { forall h :: h in hs ==> h in t }

  lemma PathKnown(t: Tree, g: Hash, h: Hash)
    requires WfTree(t, g) && h in t
    ensures Known(t, Path(t, g, h))
  {
    PathPositions(t, g, h);
  }

  function SupplyOf(supply: map<Hash, int>, h: Hash): int {
    if h in supply then supply[h] else 0
  }

  function ContextOf(t: Tree, supply: map<Hash, int>, h: Hash): Context
    requires h in t
  {
    if t[h].height == 0 then Context(h, t[h].time, 1, 0)
    else Context(h, t[h].time, t[h].height - 1, SupplyOf(supply, t[h].prev))
  }

  function ConnectStep(t: Tree, w: Work, h: Hash, vs: Verdicts): (bool, Work)
    requires h in t
  {
    var c := ContextOf(t, w.supply, h);
    if Accepts(w.index, c, t[h].txs, vs(h)) then
      var r := Connect(w.index, h, t[h].txs).value;
      (true, Work(r.view, w.supply[h := c.parentSupply + r.valueOut - r.valueIn]))
    else (false, w)
  }

  /** Connects blocks in order until one is refused. */
  function ConnectAll(t: Tree, w: Work, hs: seq<Hash>, vs: Verdicts): (bool, Work)
    requires Known(t, hs)
  {
    if hs == [] then (true, w) else
      var (ok, w1) := ConnectAll(t, w, Front(hs), vs);
      if ok then ConnectStep(t, w1, Last(hs), vs) else (false, w1)
  }

  /** Disconnects a stretch of the chain, its last block first. */
  function DisconnectAll(t: Tree, v: TxMap, hs: seq<Hash>): Option<TxMap>
    requires Known(t, hs)
    decreases |hs|
  {
    if hs == [] then Some(v) else
      match Disconnect(v, t[Last(hs)].txs)
      case None => None
      case Some(w) => DisconnectAll(t, w, Front(hs))
  }

  /** Clears the forward pointers to the blocks of hs, the last block first. */
  function Unlink(next: map<Hash, Hash>, t: Tree, hs: seq<Hash>): map<Hash, Hash>
    requires Known(t, hs)
    decreases |hs|
  {
    if hs == [] then next else Unlink(next - {t[Last(hs)].prev}, t, Front(hs))
  }

  function Link(next: map<Hash, Hash>, t: Tree, hs: seq<Hash>): map<Hash, Hash>
    requires Known(t, hs)
  {
    if hs == [] then next else Link(next, t, Front(hs))[t[Last(hs)].prev := Last(hs)]
  }

  /** Switches the index and the links from the current chain to the one ending at new. */
  ghost function Reorganize(s: Chain, g: Hash, new': Hash, vs: Verdicts): (r: (bool, Chain))
    requires WfTree(s.tree, g) && s.best in s.tree && new' in s.tree
    ensures r.1.tree == s.tree && r.1.best == s.best
  {
    PathKnown(s.tree, g, s.best); PathKnown(s.tree, g, new');
    var p, q := Path(s.tree, g, s.best), Path(s.tree, g, new');
    var k := CommonPrefix(p, q);
    match DisconnectAll(s.tree, s.index, p[k..])
    case None => (false, s)
    case Some(v) =>
      var (ok, w) := ConnectAll(s.tree, Work(v, s.supply), q[k..], vs);
      if ok then
        (true, s.(index := w.index, supply := w.supply,
                  next := Link(Unlink(s.next, s.tree, p[k..]), s.tree, q[k..])))
      else (false, s.(supply := w.supply))
  }

  /** Connects one block on top of the chain the index describes, in a transaction of its own. */
  function Inner(s: Chain, h: Hash, vs: Verdicts): (bool, Chain)
    requires h in s.tree
  {
    var (ok, w) := ConnectStep(s.tree, Work(s.index, s.supply), h, vs);
    if ok then (true, s.(index := w.index, supply := w.supply, next := s.next[s.tree[h].prev := h]))
    else (false, s)
  }

  /** Connects the postponed blocks in order until one is refused. */
  function Postponed(s: Chain, hs: seq<Hash>, vs: Verdicts): (r: (bool, Chain))
    requires Known(s.tree, hs)
    ensures r.1.tree == s.tree && r.1.best == s.best
  {
    if hs == [] then (true, s) else
      var (ok, s1) := Postponed(s, Front(hs), vs);
      if ok then Inner(s1, Last(hs), vs) else (false, s1)
  }

  /** The lowest block of q, from position i down, whose parent does not outweigh the current chain. */
  function FirstHeavier(t: Tree, q: seq<Hash>, i: nat, trust: nat): (j: nat)
    requires i < |q| && Known(t, q)
    ensures j <= i
  {
    if i > 0 && t[q[i - 1]].trust > trust then FirstHeavier(t, q, i - 1, trust) else i
  }

  /** ok: the call reports success.  complete: no postponed block was refused. */
  datatype Switch = Switch(ok: bool, complete: bool, chain: Chain)

  /** Position, on the path to new, of the lowest block that makes that path the heavier one. */
  ghost function Pivot(s: Chain, g: Hash, new': Hash): (i: nat)
    requires WfTree(s.tree, g) && s.best in s.tree && new' in s.tree
    ensures i < |Path(s.tree, g, new')|
  {
    PathKnown(s.tree, g, new');
    FirstHeavier(s.tree, Path(s.tree, g, new'), s.tree[new'].height, s.tree[s.best].trust)
  }

  /** What follows the reorganisation r: the blocks hs, whose connection was postponed. */
  function Finish(r: (bool, Chain), hs: seq<Hash>, vs: Verdicts): Switch
    requires Known(r.1.tree, hs)
  {
    if r.0 then
      var (complete, s) := Postponed(r.1, hs, vs); Switch(true, complete, s)
    else Switch(false, true, r.1)
  }

  /** Reorganises to the pivot, then connects the blocks after it. */
  ghost function SwitchVia(s: Chain, g: Hash, pivot: Hash, hs: seq<Hash>, vs: Verdicts): Switch
    requires WfTree(s.tree, g) && s.best in s.tree && pivot in s.tree && Known(s.tree, hs)
  {
    Finish(Reorganize(s, g, pivot, vs), hs, vs)
  }

  ghost function SwitchBranch(s: Chain, g: Hash, new': Hash, vs: Verdicts): Switch
    requires WfTree(s.tree, g) && s.best in s.tree && new' in s.tree
  {
    PathKnown(s.tree, g, new');
    var q := Path(s.tree, g, new');
    var i := Pivot(s, g, new');
    SwitchVia(s, g, q[i], q[i + 1..], vs)
  }

  lemma SwitchBranchIs(s: Chain, g: Hash, new': Hash, vs: Verdicts, pivot: Hash, hs: seq<Hash>)
    requires WfTree(s.tree, g) && s.best in s.tree && new' in s.tree
    requires pivot == Path(s.tree, g, new')[Pivot(s, g, new')] && hs == Path(s.tree, g, new')[Pivot(s, g, new') + 1..]
    requires pivot in s.tree && Known(s.tree, hs)
    ensures SwitchBranch(s, g, new', vs) == SwitchVia(s, g, pivot, hs, vs)
  {
  }

  ghost function SetBestChain(s: Chain, g: Hash, new': Hash, vs: Verdicts): Switch
    requires WfTree(s.tree, g) && s.best in s.tree && new' in s.tree
  {
    var r := if s.tree[new'].prev == s.best then
               var (ok, s1) := Inner(s, new', vs); Switch(ok, true, s1)
             else SwitchBranch(s, g, new', vs);
    if r.ok then r.(chain := r.chain.(best := new')) else r
  }

  /** A new block, as AcceptBlock hands it over. */
  datatype NewBlock = NewBlock(hash: Hash, prev: Hash, time: int, blockTrust: nat, txs: seq<Tx>)

  function Insert(t: Tree, b: NewBlock): Tree
    requires b.prev in t
  {
    t[b.hash := BlockIndex(b.prev, t[b.prev].height + 1, t[b.prev].trust + b.blockTrust, b.time, b.txs)]
  }

  /** Adds a block to the tree and makes it the best block if its chain has more trust. */
  ghost function AddToBlockIndex(s: Chain, g: Hash, b: NewBlock, vs: Verdicts): Switch
    requires WfTree(s.tree, g) && s.best in s.tree
  {
    if b.hash in s.tree || b.prev !in s.tree then Switch(false, true, s) else
      InsertKeepsTree(s.tree, g, b);
      var s1 := s.(tree := Insert(s.tree, b));
      if s1.tree[b.hash].trust > s1.tree[s.best].trust then SetBestChain(s1, g, b.hash, vs)
      else Switch(true, true, s1)
  }

  lemma InsertKeepsTree(t: Tree, g: Hash, b: NewBlock)
    requires WfTree(t, g) && b.prev in t && b.hash !in t
    ensures WfTree(Insert(t, b), g)
    ensures forall h :: h in t ==> h in Insert(t, b) && Insert(t, b)[h] == t[h]
  {
    var t' := Insert(t, b);
    forall h | h in t' && t'[h].height > 0 ensures LinksToParent(t', h) { assert h != b.hash ==> LinksToParent(t, h); }
  }

  /** Connecting the blocks of a chain in order, from an empty index; genesis itself is never connected. */
  function Replay(t: Tree, p: seq<Hash>): Option<TxMap>
    requires Known(t, p)
  {
    if |p| <= 1 then Some(map[]) else
      match Replay(t, Front(p))
      case None => None
      case Some(v) =>
        match Connect(v, Last(p), t[Last(p)].txs)
        case None => None
        case Some(r) => Some(r.view)
  }

  predicate IsInMainChain(s: Chain, h: Hash) { h in s.next || h == s.best }
}
