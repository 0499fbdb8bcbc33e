/** Synchronized checkpoints: which blocks and checkpoints a node accepts, and why a checkpoint is final. */
module Checkpoints {
  import opened Basics
  import opened BlockTree
  import opened ChainSpec
  import opened ChainLaws
  import opened LinkLaws

  /** A node's chain, its sync-checkpoint, and the pending and the last refused checkpoint (0 for none). */
  datatype Node = Node(chain: Chain, sync: Hash, pending: Hash, invalid: Hash)

  /** The checkpoint is the tip or an ancestor of it.  This needs no consistent index: a refused postponed block
      does not matter here. */
  ghost predicate Standing(n: Node, g: Hash) {
    Anchored(n.chain, g) && n.sync in n.chain.tree && IsAncestor(n.chain.tree, g, n.sync, n.chain.best)
  }

  /** The received checkpoint extends the current one. */
  ghost predicate Extends(t: Tree, g: Hash, sync: Hash, h: Hash)
    requires WfTree(t, g)
  {
    sync in t && h in t && t[h].height > t[sync].height && IsAncestor(t, g, sync, h)
  }

  /** The received checkpoint and the current one lie on different branches. */
  ghost predicate Conflicts(t: Tree, g: Hash, sync: Hash, h: Hash)
    requires WfTree(t, g)
  {
    sync in t && h in t && !IsAncestor(t, g, sync, h) && !IsAncestor(t, g, h, sync)
  }

  /** Only blocks on top of the current checkpoint pass; known blocks below it may. */
  ghost predicate PassesCheckpoint(t: Tree, g: Hash, sync: Hash, hashBlock: Hash, prev: Hash)
    requires WfTree(t, g) && sync in t && prev in t
  {
    var nHeight := t[prev].height + 1;
    if nHeight > t[sync].height then IsAncestor(t, g, sync, prev)
    else if nHeight == t[sync].height then hashBlock == sync
    else hashBlock in t
  }

  datatype Outcome = Outcome(ok: bool, complete: bool, node: Node)

  /** Moves the checkpoint to h, first making h the best block if it is not in the main chain. */
  ghost function MoveTo(n: Node, g: Hash, h: Hash, vs: Verdicts): Outcome
    requires Rooted(n.chain, g) && h in n.chain.tree
  {
    if IsInMainChain(n.chain, h) then Outcome(true, true, n.(sync := h, pending := 0)) else
      var r := SetBestChain(n.chain, g, h, vs);
      if r.ok then Outcome(true, r.complete, n.(chain := r.chain, sync := h, pending := 0))
      else Outcome(false, r.complete, n.(chain := r.chain, invalid := h))
  }

  ghost function Refused(n: Node, g: Hash, h: Hash): Node
    requires WfTree(n.chain.tree, g)
  {
    if Conflicts(n.chain.tree, g, n.sync, h) then n.(invalid := h) else n
  }

  /** A checkpoint message with a valid signature arrives. */
  ghost function ProcessSyncCheckpoint(n: Node, g: Hash, h: Hash, vs: Verdicts): Outcome
    requires Rooted(n.chain, g)
  {
    if h !in n.chain.tree then Outcome(false, true, n.(pending := h))
    else if !Extends(n.chain.tree, g, n.sync, h) then Outcome(false, true, Refused(n, g, h))
    else MoveTo(n, g, h, vs)
  }

  ghost function AcceptPending(n: Node, g: Hash, vs: Verdicts): Outcome
    requires Rooted(n.chain, g)
  {
    if n.pending == 0 || n.pending !in n.chain.tree then Outcome(false, true, n)
    else if !Extends(n.chain.tree, g, n.sync, n.pending) then
      Outcome(false, true, Refused(n, g, n.pending).(pending := 0))
    else MoveTo(n, g, n.pending, vs)
  }

  /** otherChecks: the checks of AcceptBlock that concern neither the tree nor the checkpoint.
      complete: no postponed block was refused on the way. */
  ghost function AcceptBlock(n: Node, g: Hash, b: NewBlock, otherChecks: bool, vs: Verdicts, vs2: Verdicts): Outcome
    requires Standing(n, g)
  {
    if b.hash in n.chain.tree || b.prev !in n.chain.tree || !otherChecks
       || !PassesCheckpoint(n.chain.tree, g, n.sync, b.hash, b.prev) then Outcome(false, true, n)
    else
      var r := AddToBlockIndex(n.chain, g, b, vs);
      if !r.ok then Outcome(false, r.complete, n.(chain := r.chain)) else
        AddAnchors(n.chain, g, b, vs);
        var p := AcceptPending(n.(chain := r.chain), g, vs2);
        Outcome(true, r.complete && p.complete, p.node)
  }

  // ---------- ancestors ----------

  lemma AncestorTrans(t: Tree, g: Hash, a: Hash, b: Hash, c: Hash)
    requires WfTree(t, g) && b in t && c in t && IsAncestor(t, g, a, b) && IsAncestor(t, g, b, c)
    ensures IsAncestor(t, g, a, c)
  {
    PathPositions(t, g, c);
    PathAt(t, g, c, t[b].height);
    assert Path(t, g, b) == Path(t, g, c)[..t[b].height + 1];
  }

  lemma AncestorSelf(t: Tree, g: Hash, a: Hash)
    requires WfTree(t, g) && a in t
    ensures IsAncestor(t, g, a, a)
  {
    PathEnds(t, g, a);
  }

  /** A block is its child's ancestor, and every other ancestor of the child is an ancestor of it. */
  lemma AncestorOfChild(t: Tree, g: Hash, a: Hash, h: Hash)
    requires WfTree(t, g) && h in t && t[h].height > 0
    ensures LinksToParent(t, h) && (IsAncestor(t, g, a, h) <==> a == h || IsAncestor(t, g, a, t[h].prev))
  {
    assert LinksToParent(t, h);
  }

  /** Two ancestors of one block lie on one branch. */
  lemma AncestorsOrdered(t: Tree, g: Hash, a: Hash, b: Hash, c: Hash)
    requires WfTree(t, g) && a in t && b in t && c in t && IsAncestor(t, g, a, c) && IsAncestor(t, g, b, c)
    requires t[a].height <= t[b].height
    ensures IsAncestor(t, g, a, b)
  {
    PathPositions(t, g, c);
    PathAt(t, g, c, t[b].height);
    assert Path(t, g, b)[t[a].height] == a;
  }

  // ---------- finality ----------

  /** What a step may change while checkpoint c stands: the tree grows by descendants of c only,
      and the main chain still runs through c. */
  ghost predicate Respects(n: Node, n': Node, g: Hash)
    requires Standing(n, g) && Standing(n', g)
  {
    var t, t' := n.chain.tree, n'.chain.tree;
    && (forall h :: h in t ==> h in t' && t'[h] == t[h])
    && IsAncestor(t', g, n.sync, n'.sync)
    && (n'.sync != n.sync ==> t'[n'.sync].height > t[n.sync].height)
    && (forall h :: h in t' && h !in t ==> IsAncestor(t', g, n.sync, h))
    && IsAncestor(t', g, n.sync, n'.chain.best)
  }

  lemma MoveRespects(n: Node, g: Hash, h: Hash, vs: Verdicts)
    requires Standing(n, g) && Extends(n.chain.tree, g, n.sync, h)
    ensures var n' := MoveTo(n, g, h, vs).node; Standing(n', g) && Respects(n, n', g)
  {
    AncestorSelf(n.chain.tree, g, h);
    AncestorSelf(n.chain.tree, g, n.sync);
    if IsInMainChain(n.chain, h) {
      InMainChainIsAncestor(n.chain, g, h);
    } else {
      SetBestChainAnchors(n.chain, g, h, vs);
    }
  }

  lemma PendingRespects(n: Node, g: Hash, vs: Verdicts)
    requires Standing(n, g)
    ensures var n' := AcceptPending(n, g, vs).node; Standing(n', g) && Respects(n, n', g)
  {
    AncestorSelf(n.chain.tree, g, n.sync);
    if n.pending != 0 && n.pending in n.chain.tree && Extends(n.chain.tree, g, n.sync, n.pending) {
      MoveRespects(n, g, n.pending, vs);
    }
  }

  lemma ProcessRespects(n: Node, g: Hash, h: Hash, vs: Verdicts)
    requires Standing(n, g)
    ensures var n' := ProcessSyncCheckpoint(n, g, h, vs).node; Standing(n', g) && Respects(n, n', g)
  {
    AncestorSelf(n.chain.tree, g, n.sync);
    if Extends(n.chain.tree, g, n.sync, h) { MoveRespects(n, g, h, vs); }
  }

  /** A new block that passes the checkpoint test descends from the checkpoint. */
  lemma PassingDescends(n: Node, g: Hash, b: NewBlock)
    requires Standing(n, g) && b.hash !in n.chain.tree && b.prev in n.chain.tree
    ensures PassesCheckpoint(n.chain.tree, g, n.sync, b.hash, b.prev) <==> IsAncestor(n.chain.tree, g, n.sync, b.prev)
  {
    PathPositions(n.chain.tree, g, b.prev);
  }

  lemma InsertRespects(n: Node, g: Hash, b: NewBlock, vs: Verdicts)
    requires Standing(n, g) && b.hash !in n.chain.tree && b.prev in n.chain.tree
    requires IsAncestor(n.chain.tree, g, n.sync, b.prev)
    ensures var n' := n.(chain := AddToBlockIndex(n.chain, g, b, vs).chain); Standing(n', g) && Respects(n, n', g)
  {
    var t, t' := n.chain.tree, Insert(n.chain.tree, b);
    AddAnchors(n.chain, g, b, vs);
    InsertKeepsTree(t, g, b);
    PathStable(t, t', g, b.prev);
    PathStable(t, t', g, n.chain.best);
    AncestorSelf(t', g, n.sync);
    AncestorOfChild(t', g, n.sync, b.hash);
  }

  lemma RespectsTrans(a: Node, b: Node, c: Node, g: Hash)
    requires Standing(a, g) && Standing(b, g) && Standing(c, g) && Respects(a, b, g) && Respects(b, c, g)
    ensures Respects(a, c, g)
  {
    var t' := c.chain.tree;
    PathStable(b.chain.tree, t', g, b.sync);
    AncestorTrans(t', g, a.sync, b.sync, c.sync);
    AncestorTrans(t', g, a.sync, b.sync, c.chain.best);
    forall h | h in t' && h !in a.chain.tree
      ensures IsAncestor(t', g, a.sync, h)
    {
      if h in b.chain.tree {
        PathStable(b.chain.tree, t', g, h);
      } else {
        AncestorTrans(t', g, a.sync, b.sync, h);
      }
    }
  }

  lemma AcceptRespects(n: Node, g: Hash, b: NewBlock, otherChecks: bool, vs: Verdicts, vs2: Verdicts)
    requires Standing(n, g)
    ensures var n' := AcceptBlock(n, g, b, otherChecks, vs, vs2).node; Standing(n', g) && Respects(n, n', g)
  {
    AncestorSelf(n.chain.tree, g, n.sync);
    if b.hash !in n.chain.tree && b.prev in n.chain.tree && otherChecks
       && PassesCheckpoint(n.chain.tree, g, n.sync, b.hash, b.prev)
    {
      PassingDescends(n, g, b);
      var r := AddToBlockIndex(n.chain, g, b, vs);
      InsertRespects(n, g, b, vs);
      if r.ok {
        var m := n.(chain := r.chain);
        PendingRespects(m, g, vs2);
        RespectsTrans(n, m, AcceptPending(m, g, vs2).node, g);
      }
    }
  }

  // ---------- runs ----------

  datatype Message =
    | BlockArrives(b: NewBlock, otherChecks: bool, vs: Verdicts, vs2: Verdicts)
    | CheckpointArrives(h: Hash, vs: Verdicts)

  ghost function Handle(n: Node, g: Hash, m: Message): Outcome
    requires Standing(n, g)
  {
    match m
    case BlockArrives(b, otherChecks, vs, vs2) => AcceptBlock(n, g, b, otherChecks, vs, vs2)
    case CheckpointArrives(h, vs) => ProcessSyncCheckpoint(n, g, h, vs)
  }

  lemma HandleRespects(n: Node, g: Hash, m: Message)
    requires Standing(n, g)
    ensures var n' := Handle(n, g, m).node; Standing(n', g) && Respects(n, n', g)
  {
    match m
    case BlockArrives(b, otherChecks, vs, vs2) => AcceptRespects(n, g, b, otherChecks, vs, vs2);
    case CheckpointArrives(h, vs) => ProcessRespects(n, g, h, vs);
  }

  /** Every sequence of messages leads on: nothing is assumed about how the calls of SetBestChain end. */
  lemma {:induction false} MessagesLead(n: Node, g: Hash, ms: seq<Message>) returns (n': Node)
    requires Standing(n, g)
    ensures Standing(n', g) && LeadsTo(n, g, ms, n')
  {
    n' := n;
    if ms != [] {
      var mid := MessagesLead(n, g, Front(ms));
      HandleRespects(mid, g, Last(ms));
      n' := Handle(mid, g, Last(ms)).node;
    }
  }

  ghost predicate LeadsTo(n: Node, g: Hash, ms: seq<Message>, n': Node) {
    if ms == [] then n' == n else
      exists mid :: LeadsTo(n, g, Front(ms), mid) && Standing(mid, g) && n' == Handle(mid, g, Last(ms)).node
  }

  /** Finality: over any run, the checkpoint only moves to proper descendants, every block accepted
      in between descends from the checkpoint the run began with, and the main chain keeps running through it. */
  lemma {:induction false} CheckpointsAreFinal(n: Node, g: Hash, ms: seq<Message>, n': Node)
    requires Standing(n, g) && LeadsTo(n, g, ms, n')
    ensures Standing(n', g) && Respects(n, n', g)
    decreases |ms|
  {
    if ms == [] {
      AncestorSelf(n.chain.tree, g, n.sync);
    } else {
      var mid :| LeadsTo(n, g, Front(ms), mid) && Standing(mid, g) && n' == Handle(mid, g, Last(ms)).node;
      CheckpointsAreFinal(n, g, Front(ms), mid);
      HandleRespects(mid, g, Last(ms));
      RespectsTrans(n, mid, n', g);
    }
  }

  /** The chain below a checkpoint is the same before and after any run. */
  lemma ChainBelowCheckpointFixed(n: Node, g: Hash, ms: seq<Message>, n': Node)
    requires Standing(n, g) && LeadsTo(n, g, ms, n')
    ensures Rooted(n'.chain, g)
    ensures var k := n.chain.tree[n.sync].height + 1;
      var p, p' := Path(n.chain.tree, g, n.chain.best), Path(n'.chain.tree, g, n'.chain.best);
      k <= |p| && k <= |p'| && p[..k] == p'[..k]
  {
    CheckpointsAreFinal(n, g, ms, n');
    var t, t', c := n.chain.tree, n'.chain.tree, n.sync;
    PathPositions(t, g, n.chain.best); PathPositions(t', g, n'.chain.best);
    PathAt(t, g, n.chain.best, t[c].height); PathAt(t', g, n'.chain.best, t[c].height);
    PathStable(t, t', g, c);
  }

  /** No reorganisation towards a descendant of c disconnects c, a block of the main chain. */
  lemma ReorganizeSparesCheckpoint(s: Chain, g: Hash, c: Hash, new': Hash)
    requires Rooted(s, g) && new' in s.tree && IsAncestor(s.tree, g, c, s.best) && IsAncestor(s.tree, g, c, new')
    ensures var p, q := Path(s.tree, g, s.best), Path(s.tree, g, new');
      var target := q[Pivot(s, g, new')];
      target in s.tree && c !in p[CommonPrefix(p, Path(s.tree, g, target))..]
  {
    var t, i := s.tree, Pivot(s, g, new');
    var q := Path(t, g, new');
    PathKnown(t, g, new');
    PathPositions(t, g, new'); PathPositions(t, g, s.best);
    PathAt(t, g, new', i);
    PathAt(t, g, s.best, t[c].height);
    PathEnds(t, g, new');
    PivotOutweighs(s, g, new');
    assert t[c].height <= i by {
      if i < t[c].height {
        PathAt(t, g, c, i);
        PathAt(t, g, new', t[c].height);
      }
    }
    AncestorsOrdered(t, g, c, q[i], new');
    AncestorStaysConnected(t, g, s.best, q[i], c);
  }

  lemma AncestorStaysConnected(t: Tree, g: Hash, a: Hash, b: Hash, x: Hash)
    requires WfTree(t, g) && a in t && b in t && x in Path(t, g, a) && x in Path(t, g, b)
    ensures x !in Path(t, g, a)[CommonPrefix(Path(t, g, a), Path(t, g, b))..]
  {
    PathPositions(t, g, a);
    CommonAncestorInPrefix(t, g, a, b, x);
  }

  // ---------- no call of a run disconnects the checkpoint ----------

  /** A call of SetBestChain: the chain it starts from and the block it is to make the best one. */
  datatype Call = Call(chain: Chain, target: Hash)

  ghost function CallsOfMove(n: Node, h: Hash): seq<Call> {
    if IsInMainChain(n.chain, h) then [] else [Call(n.chain, h)]
  }

  ghost function CallsOfPending(n: Node, g: Hash): seq<Call>
    requires Rooted(n.chain, g)
  {
    if n.pending != 0 && Extends(n.chain.tree, g, n.sync, n.pending) then CallsOfMove(n, n.pending) else []
  }

  ghost function CallsOfAdd(s: Chain, b: NewBlock): seq<Call>
    requires s.best in s.tree && b.prev in s.tree
  {
    var s1 := s.(tree := Insert(s.tree, b));
    if s1.tree[b.hash].trust > s1.tree[s.best].trust then [Call(s1, b.hash)] else []
  }

  /** The calls made while a message is handled. */
  ghost function CallsOf(n: Node, g: Hash, m: Message): seq<Call>
    requires Standing(n, g)
  {
    match m
    case BlockArrives(b, otherChecks, vs, vs2) =>
      if b.hash in n.chain.tree || b.prev !in n.chain.tree || !otherChecks
         || !PassesCheckpoint(n.chain.tree, g, n.sync, b.hash, b.prev) then []
      else
        var r := AddToBlockIndex(n.chain, g, b, vs);
        AddAnchors(n.chain, g, b, vs);
        CallsOfAdd(n.chain, b) + if r.ok then CallsOfPending(n.(chain := r.chain), g) else []
    case CheckpointArrives(h, vs) => if Extends(n.chain.tree, g, n.sync, h) then CallsOfMove(n, h) else []
  }

  /** Without a call, only the tree changes. */
  lemma OnlyCallsSwitch(n: Node, g: Hash, m: Message)
    requires Standing(n, g) && CallsOf(n, g, m) == []
    ensures var n' := Handle(n, g, m).node; n'.chain == n.chain.(tree := n'.chain.tree)
  {
  }

  ghost predicate Between(c: Call, g: Hash, x: Hash) {
    && Anchored(c.chain, g) && c.target in c.chain.tree
    && IsAncestor(c.chain.tree, g, x, c.chain.best) && IsAncestor(c.chain.tree, g, x, c.target)
  }

  lemma AddCallBetween(n: Node, g: Hash, b: NewBlock, x: Hash)
    requires Standing(n, g) && b.hash !in n.chain.tree && b.prev in n.chain.tree
    requires IsAncestor(n.chain.tree, g, x, n.chain.best) && IsAncestor(n.chain.tree, g, x, b.prev)
    ensures forall c :: c in CallsOfAdd(n.chain, b) ==> Between(c, g, x)
  {
    var t, t' := n.chain.tree, Insert(n.chain.tree, b);
    GrowAnchored(n.chain, g, b);
    InsertKeepsTree(t, g, b);
    PathStable(t, t', g, b.prev);
    PathStable(t, t', g, n.chain.best);
    AncestorOfChild(t', g, x, b.hash);
  }

  /** Every call made while a message is handled starts and ends on chains through the checkpoint. */
  lemma CallsBetween(n: Node, g: Hash, m: Message)
    requires Standing(n, g)
    ensures forall c :: c in CallsOf(n, g, m) ==> Between(c, g, n.sync)
  {
    match m
    case CheckpointArrives(h, vs) =>
    case BlockArrives(b, otherChecks, vs, vs2) =>
      if b.hash !in n.chain.tree && b.prev in n.chain.tree && otherChecks
         && PassesCheckpoint(n.chain.tree, g, n.sync, b.hash, b.prev)
      {
        PassingDescends(n, g, b);
        AddCallBetween(n, g, b, n.sync);
        InsertRespects(n, g, b, vs);
      }
  }

  /** The blocks that a call takes off the main chain. */
  ghost function Disconnected(c: Call, g: Hash): seq<Hash>
    requires Rooted(c.chain, g) && c.target in c.chain.tree
  {
    var p, q := Path(c.chain.tree, g, c.chain.best), Path(c.chain.tree, g, c.target);
    PathKnown(c.chain.tree, g, c.target);
    p[CommonPrefix(p, Path(c.chain.tree, g, q[Pivot(c.chain, g, c.target)]))..]
  }

  /** In every run, no call of SetBestChain disconnects the checkpoint the run began with, or any later one. */
  lemma NoCallDisconnectsCheckpoint(n: Node, g: Hash, ms: seq<Message>, mid: Node, m: Message, c: Call)
    requires Standing(n, g) && LeadsTo(n, g, ms, mid) && Standing(mid, g) && c in CallsOf(mid, g, m)
    ensures Rooted(c.chain, g) && c.target in c.chain.tree
    ensures n.sync !in Disconnected(c, g) && mid.sync !in Disconnected(c, g)
  {
    CheckpointsAreFinal(n, g, ms, mid);
    CallsBetween(mid, g, m);
    assert Between(c, g, mid.sync);
    SyncOfCall(mid, g, m, c);
    PathStable(mid.chain.tree, c.chain.tree, g, mid.sync);
    AncestorTrans(c.chain.tree, g, n.sync, mid.sync, c.chain.best);
    AncestorTrans(c.chain.tree, g, n.sync, mid.sync, c.target);
    ReorganizeSparesCheckpoint(c.chain, g, mid.sync, c.target);
    ReorganizeSparesCheckpoint(c.chain, g, n.sync, c.target);
  }

  /** The tree of a call holds all blocks known before. */
  lemma SyncOfCall(n: Node, g: Hash, m: Message, c: Call)
    requires Standing(n, g) && c in CallsOf(n, g, m)
    ensures forall h :: h in n.chain.tree ==> h in c.chain.tree && c.chain.tree[h] == n.chain.tree[h]
  {
    match m
    case CheckpointArrives(h, vs) =>
    case BlockArrives(b, otherChecks, vs, vs2) => AddAnchors(n.chain, g, b, vs);
  }
}
