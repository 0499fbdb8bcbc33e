/** A run after which the tip is a block that was refused: SetBestChain goes on when a postponed block fails. */
module RefusedExample {
  import opened Basics
  import opened Ledger
  import opened BlockTree
  import opened TxDatabase
  import opened ChainSpec
  import opened ChainLaws
  import opened FreshIds
  import opened SwitchConditions
  import opened LinkLaws
  import opened Checkpoints

  /** The only transaction of h is a coinbase. */
  ghost predicate LoneCoinBase(t: Tree, h: Hash) {
    h in t && |t[h].txs| == 1 && t[h].txs[0].IsCoinBase() && OutputsInRange(t[h].txs[0])
  }

  lemma PathOfChild(t: Tree, g: Hash, h: Hash)
    requires WfTree(t, g) && h in t && t[h].height > 0
    ensures LinksToParent(t, h) && Path(t, g, h) == Path(t, g, t[h].prev) + [h]
  {
    assert LinksToParent(t, h);
  }

  lemma GenesisPath(t: Tree, g: Hash)
    requires WfTree(t, g)
    ensures Path(t, g, g) == [g] && Known(t, [g]) && Replay(t, [g]) == Some(map[])
  {
  }

  /** On top of genesis alone, a block with just a coinbase is accepted unless its verdict says otherwise. */
  lemma FirstBlockAcceptable(t: Tree, g: Hash, h: Hash, vs: Verdicts)
    requires WfTree(t, g) && LoneCoinBase(t, h)
    ensures Known(t, [g]) && (Acceptable(t, [g], h, vs) <==> vs(h).ok)
  {
    GenesisPath(t, g);
    assert t[h].txs == [t[h].txs[0]];
    ConnectLoneCoinBase(map[], h, t[h].txs[0]);
  }

  lemma SiblingPaths(t: Tree, g: Hash, a: Hash, b: Hash)
    requires WfTree(t, g) && a in t && b in t && a != b && t[a].height == 1 && t[b].height == 1
    ensures Path(t, g, a) == [g, a] && Path(t, g, b) == [g, b] && CommonPrefix([g, a], [g, b]) == 1
    ensures Known(t, [g, a]) && Known(t, [g, b])
  {
    PathOfChild(t, g, a); PathOfChild(t, g, b);
    GenesisPath(t, g);
    ForkIsCommonPrefix(t, g, a, b);
  }

  /** A block with just a coinbase can always be disconnected from the tip. */
  lemma CoinBaseDisconnects(t: Tree, v: TxMap, g: Hash, h: Hash)
    requires LoneCoinBase(t, h) && Known(t, [g, h]) && Replay(t, [g, h]).Some?
    ensures CanDisconnect(t, v, [g, h], 1)
  {
    forall ids: set<TxId> ensures Spares(t[h].txs, ids) {}
  }

  /** The best block, at height 1, can be exchanged for another block at height 1. */
  lemma SiblingSwitch(s: Chain, g: Hash, h: Hash, vs: Verdicts)
    requires Good(s, g) && LoneCoinBase(s.tree, s.best) && LoneCoinBase(s.tree, h) && h != s.best && vs(h).ok
    requires s.tree[h].height == 1 && s.tree[s.best].height == 1
    ensures CanReorganize(s, g, h, vs)
  {
    var q := [g, h];
    SiblingPaths(s.tree, g, s.best, h);
    CoinBaseDisconnects(s.tree, s.index, g, s.best);
    FirstBlockAcceptable(s.tree, g, h, vs);
    assert q[..1] == [g] && AcceptableAt(s.tree, q, 1, vs);
  }

  /** On top of one such block, another one with a different id is accepted unless its verdict says otherwise. */
  lemma SecondBlockAcceptable(t: Tree, g: Hash, a: Hash, h: Hash, vs: Verdicts)
    requires WfTree(t, g) && LoneCoinBase(t, a) && LoneCoinBase(t, h) && t[a].txs[0].hash != t[h].txs[0].hash
    ensures Known(t, [g, a]) && (Acceptable(t, [g, a], h, vs) <==> vs(h).ok)
  {
    GenesisPath(t, g);
    assert Front([g, a]) == [g] && t[a].txs == [t[a].txs[0]] && t[h].txs == [t[h].txs[0]];
    ConnectLoneCoinBase(map[], a, t[a].txs[0]);
    ConnectLoneCoinBase(Replay(t, [g, a]).value, h, t[h].txs[0]);
  }

  /** The best block, at height 1, can be extended by its child h. */
  lemma ChildSwitch(s: Chain, g: Hash, h: Hash, vs: Verdicts)
    requires Good(s, g) && LoneCoinBase(s.tree, s.best) && LoneCoinBase(s.tree, h) && vs(h).ok
    requires s.tree[s.best].txs[0].hash != s.tree[h].txs[0].hash
    requires Path(s.tree, g, s.best) == [g, s.best] && Path(s.tree, g, h) == [g, s.best, h]
    ensures CanReorganize(s, g, h, vs)
  {
    var p, q := [g, s.best], [g, s.best, h];
    ForkIsCommonPrefix(s.tree, g, s.best, h);
    PathKnown(s.tree, g, h);
    CommonPrefixMaximal(p, q, 2);
    SecondBlockAcceptable(s.tree, g, s.best, h, vs);
    assert q[..2] == p && AcceptableAt(s.tree, q, 2, vs);
  }

  // ---------- the run ----------

  function Plain(hash: Hash, prev: Hash, trust: nat, id: TxId): NewBlock {
    NewBlock(hash, prev, 0, trust, [CoinBase(id, 5)])
  }

  /** Blocks 2 and 3 stand on genesis, 5 on 3 and 4 on 5. */
  function ExampleTree(n: nat): Tree {
    var t0 := map[1 := BlockIndex(0, 0, 0, 0, [])];
    var t1 := if n < 1 then t0 else t0[2 := BlockIndex(1, 1, 3, 0, [CoinBase(12, 5)])];
    var t2 := if n < 2 then t1 else t1[3 := BlockIndex(1, 1, 1, 0, [CoinBase(13, 5)])];
    var t3 := if n < 3 then t2 else t2[5 := BlockIndex(3, 2, 2, 0, [CoinBase(15, 5)])];
    if n < 4 then t3 else t3[4 := BlockIndex(5, 3, 3, 0, [CoinBase(14, 5)])]
  }

  lemma ExampleCoinBases(n: nat)
    ensures forall h :: h in ExampleTree(n) && h != 1 ==> LoneCoinBase(ExampleTree(n), h)
  {
    OneOutputInRange(CoinBase(12, 5)); OneOutputInRange(CoinBase(13, 5));
    OneOutputInRange(CoinBase(14, 5)); OneOutputInRange(CoinBase(15, 5));
  }

  /** Block 4 is never accepted. */
  const EXAMPLE_VERDICTS: Verdicts := h => Verdict(h != 4, 0)

  function Arrival(b: NewBlock): Message { BlockArrives(b, true, EXAMPLE_VERDICTS, EXAMPLE_VERDICTS) }

  const FIRST := Arrival(Plain(2, 1, 3, 12))
  const SECOND := Arrival(Plain(3, 1, 1, 13))
  const THIRD := Arrival(Plain(5, 3, 1, 15))
  const FOURTH := CheckpointArrives(3, EXAMPLE_VERDICTS)
  const FIFTH := Arrival(Plain(4, 5, 1, 14))
  const EXAMPLE_MESSAGES := [FIRST] + [SECOND] + [THIRD] + [FOURTH]

  ghost predicate ExampleChain(s: Chain, n: nat, best: Hash) {
    s.tree == ExampleTree(n) && s.best == best && Good(s, 1)
  }

  /** The node after k blocks arrived, with nothing pending. */
  ghost predicate ExampleNode(n: Node, k: nat, best: Hash, sync: Hash) {
    ExampleChain(n.chain, k, best) && n.sync == sync && n.pending == 0 && Standing(n, 1)
  }

  /** A new block on a descendant of the checkpoint is added; nothing else happens while nothing is pending. */
  lemma ArrivalAdds(n: Node, b: NewBlock)
    requires Standing(n, 1) && n.pending == 0 && b.hash !in n.chain.tree && b.prev in n.chain.tree
    requires IsAncestor(n.chain.tree, 1, n.sync, b.prev)
    ensures var r, o := AddToBlockIndex(n.chain, 1, b, EXAMPLE_VERDICTS), Handle(n, 1, Arrival(b));
      && o.node == n.(chain := r.chain) && o.ok == r.ok && o.complete == r.complete && Standing(o.node, 1)
  {
    PassingDescends(n, 1, b);
    AddAnchors(n.chain, 1, b, EXAMPLE_VERDICTS);
    HandleRespects(n, 1, Arrival(b));
  }

  /** One message takes n to n'. */
  ghost predicate HandlesTo(n: Node, m: Message, n': Node) {
    Standing(n, 1) && n' == Handle(n, 1, m).node
  }

  lemma FirstArrives(n: Node) returns (n': Node)
    requires ExampleNode(n, 0, 1, 1)
    ensures HandlesTo(n, FIRST, n') && ExampleNode(n', 1, 2, 1)
  {
    var b := Plain(2, 1, 3, 12);
    GenesisPath(n.chain.tree, 1);
    ArrivalAdds(n, b);
    GrowTree(n.chain, 1, b);
    var s1 := n.chain.(tree := Insert(n.chain.tree, b));
    assert s1.tree == ExampleTree(1);
    ExampleCoinBases(1);
    GenesisPath(s1.tree, 1);
    FirstBlockAcceptable(s1.tree, 1, 2, EXAMPLE_VERDICTS);
    SetBestChainExactly(s1, 1, 2, EXAMPLE_VERDICTS);
    SetBestChainKeeps(s1, 1, 2, EXAMPLE_VERDICTS);
    n' := Handle(n, 1, FIRST).node;
  }

  /** A block of less trust than the best one only enters the tree. */
  lemma LighterArrives(n: Node, k: nat, b: NewBlock) returns (n': Node)
    requires ExampleNode(n, k, 2, 1) && b.hash !in n.chain.tree && b.prev in n.chain.tree
    requires Insert(n.chain.tree, b) == ExampleTree(k + 1)
    requires n.chain.tree[b.prev].trust + b.blockTrust <= n.chain.tree[2].trust
    ensures HandlesTo(n, Arrival(b), n') && ExampleNode(n', k + 1, 2, 1)
  {
    PathEnds(n.chain.tree, 1, b.prev);
    ArrivalAdds(n, b);
    GrowTree(n.chain, 1, b);
    n' := Handle(n, 1, Arrival(b)).node;
  }

  lemma SecondArrives(n: Node) returns (n': Node)
    requires ExampleNode(n, 1, 2, 1)
    ensures HandlesTo(n, SECOND, n') && ExampleNode(n', 2, 2, 1)
  {
    var b := Plain(3, 1, 1, 13);
    assert Insert(ExampleTree(1), b) == ExampleTree(2);
    n' := LighterArrives(n, 1, b);
  }

  lemma ThirdArrives(n: Node) returns (n': Node)
    requires ExampleNode(n, 2, 2, 1)
    ensures HandlesTo(n, THIRD, n') && ExampleNode(n', 3, 2, 1)
  {
    var b := Plain(5, 3, 1, 15);
    assert Insert(ExampleTree(2), b) == ExampleTree(3);
    n' := LighterArrives(n, 2, b);
  }

  /** The switch that the checkpoint forces. */
  lemma SwitchToThree(s: Chain)
    requires ExampleChain(s, 3, 2)
    ensures !IsInMainChain(s, 3) && IsAncestor(s.tree, 1, 1, 3)
    ensures var r := SetBestChain(s, 1, 3, EXAMPLE_VERDICTS); r.ok && ExampleChain(r.chain, 3, 3)
  {
    ExampleCoinBases(3);
    GenesisPath(s.tree, 1);
    PathOfChild(s.tree, 1, 2); PathOfChild(s.tree, 1, 3);
    InMainChainIffAncestor(s, 1, 3);
    PathKnown(s.tree, 1, 3);
    assert Pivot(s, 1, 3) == 1;
    SiblingSwitch(s, 1, 3, EXAMPLE_VERDICTS);
    SetBestChainExactly(s, 1, 3, EXAMPLE_VERDICTS);
    SetBestChainKeeps(s, 1, 3, EXAMPLE_VERDICTS);
  }

  /** A sync-checkpoint makes block 3 the best one, although its chain has less trust. */
  lemma CheckpointComes(n: Node) returns (n': Node)
    requires ExampleNode(n, 3, 2, 1)
    ensures HandlesTo(n, FOURTH, n') && ExampleNode(n', 3, 3, 3)
  {
    SwitchToThree(n.chain);
    HandleRespects(n, 1, FOURTH);
    n' := Handle(n, 1, FOURTH).node;
  }

  lemma SwitchesAndRefuses(s: Chain)
    requires ExampleChain(s, 4, 3)
    ensures var r := SetBestChain(s, 1, 4, EXAMPLE_VERDICTS); r.ok && !r.complete
  {
    ExampleCoinBases(4);
    GenesisPath(s.tree, 1);
    PathOfChild(s.tree, 1, 3); PathOfChild(s.tree, 1, 5); PathOfChild(s.tree, 1, 4);
    PathKnown(s.tree, 1, 4);
    var q := [1, 3, 5, 4];
    assert Path(s.tree, 1, 4) == q;
    assert FirstHeavier(s.tree, q, 2, 1) == 2;
    ChildSwitch(s, 1, 5, EXAMPLE_VERDICTS);
    SetBestChainExactly(s, 1, 4, EXAMPLE_VERDICTS);
    assert !AcceptableAt(s.tree, q, 3, EXAMPLE_VERDICTS);
  }

  /** Handling the message reports success, and takes a refused block for the best one. */
  ghost predicate EndsRefused(n: Node, m: Message, h: Hash) {
    Standing(n, 1) && var o := Handle(n, 1, m);
    o.ok && !o.complete && o.node.sync == n.sync && o.node.chain.best == h && !Good(o.node.chain, 1)
  }

  /** Block 4 arrives on block 5, which outweighs the checkpoint below it but was never connected.  The node connects
      block 5, refuses block 4, and yet takes it for the best block. */
  lemma FifthRefused(n: Node)
    requires ExampleNode(n, 3, 3, 3)
    ensures EndsRefused(n, FIFTH, 4)
  {
    var b, t := Plain(4, 5, 1, 14), n.chain.tree;
    ExampleCoinBases(3);
    PathOfChild(t, 1, 5); PathOfChild(t, 1, 3);
    ArrivalAdds(n, b);
    GrowTree(n.chain, 1, b);
    var s1 := n.chain.(tree := Insert(t, b));
    assert s1.tree == ExampleTree(4);
    SwitchesAndRefuses(s1);
    SetBestChainKeeps(s1, 1, 4, EXAMPLE_VERDICTS);
  }

  /** A run goes on with one more message. */
  lemma LeadsOn(n: Node, ms: seq<Message>, mid: Node, m: Message, n': Node)
    requires LeadsTo(n, 1, ms, mid) && HandlesTo(mid, m, n')
    ensures LeadsTo(n, 1, ms + [m], n')
  {
    assert Front(ms + [m]) == ms && Last(ms + [m]) == m;
  }

  ghost predicate IsNewNode(n: Node) {
    IsStart(n.chain, 1) && n.chain.tree == ExampleTree(0) && n.sync == 1 && n.pending == 0
  }

  lemma NewNodeStands(n: Node)
    requires IsNewNode(n)
    ensures ExampleNode(n, 0, 1, 1)
  {
    StartIsGood(n.chain, 1);
    GoodIsAnchored(n.chain, 1);
    GenesisPath(n.chain.tree, 1);
  }

  /** The state before the last message. */
  lemma ExampleRun(n: Node) returns (mid: Node)
    requires IsNewNode(n)
    ensures LeadsTo(n, 1, EXAMPLE_MESSAGES, mid) && ExampleNode(mid, 3, 3, 3)
  {
    NewNodeStands(n);
    var n1 := FirstArrives(n);
    var n2 := SecondArrives(n1);
    var n3 := ThirdArrives(n2);
    mid := CheckpointComes(n3);
    LeadsOn(n, [], n, FIRST, n1);
    LeadsOn(n, [FIRST], n1, SECOND, n2);
    LeadsOn(n, [FIRST] + [SECOND], n2, THIRD, n3);
    LeadsOn(n, [FIRST] + [SECOND] + [THIRD], n3, FOURTH, mid);
  }

  /** Such a call happens in a run of a node that honours its checkpoint: with the same verdict on each block
      throughout, the tip ends on block 4, which is refused wherever it is tried. */
  lemma PostponedRefusedExample(n: Node)
    requires IsNewNode(n)
    ensures exists mid :: LeadsTo(n, 1, EXAMPLE_MESSAGES, mid) && mid.sync == 3 && EndsRefused(mid, FIFTH, 4)
  {
    var mid := ExampleRun(n);
    FifthRefused(mid);
  }
}
