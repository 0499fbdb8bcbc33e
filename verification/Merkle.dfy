/** The Merkle tree of a block in its flat array, branches, and what a verified branch proves. */
module Merkle {
  import opened Basics

  /** The hash of two concatenated hashes. */
  type PairHash = (Hash, Hash) -> Hash

  // ---------- the tree ----------

  /** An arithmetic shift to the right. */
  function Half(n: int): (h: int)
    ensures (n == 2 * h || n == 2 * h + 1) && (n >= 0 ==> h >= 0)
  {
    n / 2
  }

  function HalfUp(n: nat): (h: nat)
    ensures 2 * h == n || 2 * h == n + 1
  {
    (n + 1) / 2
  }

  /** The right child of parent i in a level of n nodes; an odd last node is paired with itself. */
  function Right(i: nat, n: nat): (k: nat)
    requires i < HalfUp(n)
    ensures k < n
  {
    Min(2 * i + 1, n - 1)
  }

  function Parent(pair: PairHash, level: seq<Hash>, i: nat): Hash
    requires i < HalfUp(|level|)
  {
    pair(level[2 * i], level[Right(i, |level|)])
  }

  function NextLevel(pair: PairHash, level: seq<Hash>): (next: seq<Hash>)
    ensures |next| == HalfUp(|level|)
  {
    seq(HalfUp(|level|), i requires 0 <= i < HalfUp(|level|) => Parent(pair, level, i))
  }

  /** All levels one after the other, the root last. */
  function Flat(pair: PairHash, level: seq<Hash>): seq<Hash>
    decreases |level|
  {
    if |level| <= 1 then level else level + Flat(pair, NextLevel(pair, level))
  }

  /** How many levels are above the leaves. */
  function Depth(n: nat): nat { if n <= 1 then 0 else 1 + Depth(HalfUp(n)) }

  /** The number of nodes at height d. */
  function Width(n: nat, d: nat): (w: nat)
    ensures n > 0 ==> w > 0
  {
    if d == 0 then n else HalfUp(Width(n, d - 1))
  }

  /** The node at height d and position i, from the leaves up. */
  function Node(pair: PairHash, leaves: seq<Hash>, d: nat, i: nat): Hash
    requires i < Width(|leaves|, d)
  {
    if d == 0 then leaves[i]
    else pair(Node(pair, leaves, d - 1, 2 * i), Node(pair, leaves, d - 1, Right(i, Width(|leaves|, d - 1))))
  }

  function Root(pair: PairHash, leaves: seq<Hash>): Hash
    requires leaves != []
  {
    WidthAtDepth(|leaves|);
    Node(pair, leaves, Depth(|leaves|), 0)
  }

  lemma {:induction false} WidthShift(n: nat, d: nat)
    requires n > 1
    ensures Width(n, d + 1) == Width(HalfUp(n), d)
  {
    if d > 0 { WidthShift(n, d - 1); }
  }

  lemma {:induction false} WidthAtDepth(n: nat)
    requires n > 0
    ensures Width(n, Depth(n)) == 1
  {
    if n > 1 {
      WidthAtDepth(HalfUp(n));
      WidthShift(n, Depth(HalfUp(n)));
    }
  }

  /** The tree over the parents is the tree without its leaves. */
  lemma {:induction false} NodeShift(pair: PairHash, leaves: seq<Hash>, d: nat, i: nat)
    requires |leaves| > 1 && i < Width(|leaves|, d + 1)
    ensures i < Width(HalfUp(|leaves|), d) && Node(pair, leaves, d + 1, i) == Node(pair, NextLevel(pair, leaves), d, i)
  {
    WidthShift(|leaves|, d);
    var n := |leaves|;
    if d == 0 {
      assert Node(pair, leaves, 1, i) == pair(Node(pair, leaves, 0, 2 * i), Node(pair, leaves, 0, Right(i, n)));
    } else {
      WidthShift(n, d - 1);
      NodeShift(pair, leaves, d - 1, 2 * i);
      NodeShift(pair, leaves, d - 1, Right(i, Width(n, d)));
    }
  }

  lemma RootShift(pair: PairHash, leaves: seq<Hash>)
    requires |leaves| > 1
    ensures Root(pair, leaves) == Root(pair, NextLevel(pair, leaves))
  {
    WidthAtDepth(|leaves|);
    NodeShift(pair, leaves, Depth(HalfUp(|leaves|)), 0);
  }

  /** Where a level starts in the flat array. */
  function Offset(n: nat, d: nat): nat { if d == 0 then 0 else Offset(n, d - 1) + Width(n, d - 1) }

  lemma {:induction false} OffsetShift(n: nat, d: nat)
    requires n > 1
    ensures Offset(n, d + 1) == n + Offset(HalfUp(n), d)
  {
    if d > 0 {
      OffsetShift(n, d - 1);
      WidthShift(n, d - 1);
    }
  }

  lemma {:induction false} FlatSize(pair: PairHash, leaves: seq<Hash>)
    requires leaves != []
    ensures |Flat(pair, leaves)| == Offset(|leaves|, Depth(|leaves|)) + 1
    decreases |leaves|
  {
    if |leaves| > 1 {
      var next := NextLevel(pair, leaves);
      OffsetShift(|leaves|, Depth(|next|));
      FlatSize(pair, next);
    }
  }

  /** The flat array holds a node of the tree where its level starts. */
  ghost predicate HoldsNode(pair: PairHash, leaves: seq<Hash>, d: nat, i: nat) {
    && i < Width(|leaves|, d) && Offset(|leaves|, d) + i < |Flat(pair, leaves)|
    && Flat(pair, leaves)[Offset(|leaves|, d) + i] == Node(pair, leaves, d, i)
  }

  lemma HoldsShift(pair: PairHash, leaves: seq<Hash>, d: nat, i: nat)
    requires |leaves| > 1 && i < Width(|leaves|, d + 1) && HoldsNode(pair, NextLevel(pair, leaves), d, i)
    ensures HoldsNode(pair, leaves, d + 1, i)
  {
    var k := Offset(HalfUp(|leaves|), d) + i;
    OffsetShift(|leaves|, d);
    NodeShift(pair, leaves, d, i);
    AfterLeaves(pair, leaves, k);
    assert Offset(|leaves|, d + 1) + i == |leaves| + k;
  }

  /** The flat array holds every node of the tree, level by level. */
  lemma {:induction false} FlatHoldsNodes(pair: PairHash, leaves: seq<Hash>, d: nat, i: nat)
    requires leaves != [] && d <= Depth(|leaves|) && i < Width(|leaves|, d)
    ensures HoldsNode(pair, leaves, d, i)
    decreases d
  {
    if d > 0 {
      var e := d - 1;
      WidthShift(|leaves|, e);
      FlatHoldsNodes(pair, NextLevel(pair, leaves), e, i);
      HoldsShift(pair, leaves, e, i);
    } else {
      LeavesFirst(pair, leaves, i);
    }
  }

  lemma AfterLeaves(pair: PairHash, leaves: seq<Hash>, k: nat)
    requires |leaves| > 1 && k < |Flat(pair, NextLevel(pair, leaves))|
    ensures |leaves| + k < |Flat(pair, leaves)|
    ensures Flat(pair, leaves)[|leaves| + k] == Flat(pair, NextLevel(pair, leaves))[k]
  {
  }

  lemma LeavesFirst(pair: PairHash, leaves: seq<Hash>, i: nat)
    requires i < |leaves|
    ensures i < |Flat(pair, leaves)| && Flat(pair, leaves)[i] == leaves[i]
  {
  }

  lemma {:induction false} FlatEndsInRoot(pair: PairHash, leaves: seq<Hash>)
    requires leaves != []
    ensures Flat(pair, leaves) != [] && Last(Flat(pair, leaves)) == Root(pair, leaves)
    decreases |leaves|
  {
    if |leaves| > 1 {
      FlatEndsInRoot(pair, NextLevel(pair, leaves));
      RootShift(pair, leaves);
    }
  }

  // ---------- branches ----------

  /** The index with its last bit flipped. */
  function Sibling(i: nat): nat { if i == 2 * Half(i) then i + 1 else i - 1 }

  /** The siblings on the way from leaf i to the root. */
  function Branch(pair: PairHash, level: seq<Hash>, i: nat): seq<Hash>
    decreases |level|
  {
    if |level| <= 1 then [] else [level[Min(Sibling(i), |level| - 1)]] + Branch(pair, NextLevel(pair, level), Half(i))
  }

  /** One step upwards: the other side is on the left if the index is odd. */
  function Combine(pair: PairHash, hash: Hash, otherside: Hash, i: int): Hash {
    if i == 2 * Half(i) + 1 then pair(otherside, hash) else pair(hash, otherside)
  }

  /** Hashing upwards along a branch. */
  function Climb(pair: PairHash, hash: Hash, branch: seq<Hash>, i: int): Hash
    decreases |branch|
  {
    if branch == [] then hash else Climb(pair, Combine(pair, hash, branch[0], i), branch[1..], Half(i))
  }

  ghost predicate Injective(pair: PairHash) {
    forall a, b, c, d :: pair(a, b) == pair(c, d) ==> a == c && b == d
  }

  /** A node combined with its sibling is its parent. */
  lemma CombineIsParent(pair: PairHash, level: seq<Hash>, i: nat)
    requires |level| > 1 && i < |level|
    ensures Half(i) < HalfUp(|level|)
    ensures Combine(pair, level[i], level[Min(Sibling(i), |level| - 1)], i) == NextLevel(pair, level)[Half(i)]
  {
    assert NextLevel(pair, level)[Half(i)] == Parent(pair, level, Half(i));
  }

  lemma BranchFirst(pair: PairHash, leaves: seq<Hash>, i: nat)
    requires |leaves| > 1
    ensures var b := Branch(pair, leaves, i);
      b != [] && b[0] == leaves[Min(Sibling(i), |leaves| - 1)]
        && b[1..] == Branch(pair, NextLevel(pair, leaves), Half(i))
  {
  }

  /** A leaf with its branch verifies to the root. */
  lemma {:induction false} BranchVerifies(pair: PairHash, leaves: seq<Hash>, i: nat)
    requires i < |leaves|
    ensures Climb(pair, leaves[i], Branch(pair, leaves, i), i) == Root(pair, leaves)
    ensures |Branch(pair, leaves, i)| == Depth(|leaves|)
    decreases |leaves|
  {
    if |leaves| > 1 {
      CombineIsParent(pair, leaves, i);
      BranchVerifies(pair, NextLevel(pair, leaves), Half(i));
      RootShift(pair, leaves);
      BranchFirst(pair, leaves, i);
    }
  }

  lemma CombineInjective(pair: PairHash, i: nat, x: Hash, o: Hash, y: Hash, p: Hash)
    requires Injective(pair)
    ensures Combine(pair, x, o, i) == Combine(pair, y, p, i) <==> x == y && o == p
  {
  }

  lemma SameHeadAndTail(a: seq<Hash>, b: seq<Hash>)
    requires a != [] && b != []
    ensures a == b <==> a[0] == b[0] && a[1..] == b[1..]
  {
    assert a == [a[0]] + a[1..] && b == [b[0]] + b[1..];
  }

  /** If pairs hash injectively, only leaf i with its own branch verifies at index i. */
  lemma {:induction false} OnlyBranchVerifies(pair: PairHash, leaves: seq<Hash>, i: nat, x: Hash, branch: seq<Hash>)
    requires Injective(pair) && i < |leaves| && |branch| == Depth(|leaves|)
    ensures Climb(pair, x, branch, i) == Root(pair, leaves) <==> x == leaves[i] && branch == Branch(pair, leaves, i)
    decreases |leaves|
  {
    if |leaves| > 1 {
      var sibling := leaves[Min(Sibling(i), |leaves| - 1)];
      RootShift(pair, leaves);
      CombineIsParent(pair, leaves, i);
      BranchFirst(pair, leaves, i);
      OnlyBranchVerifies(pair, NextLevel(pair, leaves), Half(i), Combine(pair, x, branch[0], i), branch[1..]);
      CombineInjective(pair, i, x, branch[0], leaves[i], sibling);
      SameHeadAndTail(branch, Branch(pair, leaves, i));
    }
  }

  // ---------- the code ----------

  /** A level at position j of an array, and the rest of the tree behind it. */
  lemma FlatParts(pair: PairHash, level: seq<Hash>, a: seq<Hash>, j: nat, i: nat)
    requires |level| > 1 && i < |level| && j <= |a| && a[j..] == Flat(pair, level)
    ensures j + |level| <= |a| && a[j + i] == level[i] && a[j + |level|..] == Flat(pair, NextLevel(pair, level))
  {
    assert a[j..][i] == a[j + i];
    assert a[j..][|level|..] == a[j + |level|..];
    assert Flat(pair, level)[|level|..] == Flat(pair, NextLevel(pair, level));
  }

  lemma FlatMoves(pair: PairHash, done: seq<Hash>, level: seq<Hash>)
    requires |level| > 1
    ensures done + Flat(pair, level) == (done + level) + Flat(pair, NextLevel(pair, level))
  {
    AppendAssociative(done, level, Flat(pair, NextLevel(pair, level)));
  }

  class Block {
    const pair: PairHash
    const txids: seq<Hash>
    var vMerkleTree: seq<Hash>

    ghost predicate Valid()
      reads this
    {
      vMerkleTree == [] || vMerkleTree == Flat(pair, txids)
    }

    constructor (pair: PairHash, txids: seq<Hash>)
      ensures this.pair == pair && this.txids == txids && Valid()
    {
      this.pair, this.txids, vMerkleTree := pair, txids, [];
    }

    /** Appends the level above the one that starts at j. */
    method BuildLevel(j: nat, nSize: nat)
      requires |vMerkleTree| == j + nSize
      modifies this
      ensures vMerkleTree == old(vMerkleTree) + NextLevel(pair, old(vMerkleTree)[j..])
    {
      ghost var level := vMerkleTree[j..];
      ghost var next := NextLevel(pair, level);
      for k := 0 to HalfUp(nSize)
        invariant vMerkleTree == old(vMerkleTree) + next[..k]
      {
        var i := 2 * k;
        var i2 := Min(i + 1, nSize - 1);
        assert vMerkleTree[j + i] == level[i] && vMerkleTree[j + i2] == level[i2] && next[k] == Parent(pair, level, k);
        vMerkleTree := vMerkleTree + [pair(vMerkleTree[j + i], vMerkleTree[j + i2])];
        assert next[..k + 1] == next[..k] + [next[k]];
      }
      assert next[..|next|] == next;
    }

    /** Fills the flat array and returns the root, which is 0 for no transactions. */
    method BuildMerkleTree() returns (root: Hash)
      modifies this
      ensures Valid() && vMerkleTree == Flat(pair, txids)
      ensures root == if txids == [] then 0 else Root(pair, txids)
    {
      vMerkleTree := txids;
      var j, nSize := 0, |txids|;
      ghost var done, level := [], txids;
      while nSize > 1
        invariant nSize == |level| && j == |done| && vMerkleTree == done + level
        invariant done + Flat(pair, level) == Flat(pair, txids) && (txids != [] ==> level != [])
        decreases nSize
      {
        ghost var next := NextLevel(pair, level);
        assert vMerkleTree[j..] == level;
        FlatMoves(pair, done, level);
        BuildLevel(j, nSize);
        j := j + nSize;
        nSize := (nSize + 1) / 2;
        done, level := done + level, next;
      }
      if txids != [] { FlatEndsInRoot(pair, txids); }
      root := if vMerkleTree == [] then 0 else vMerkleTree[|vMerkleTree| - 1];
    }

    method GetMerkleBranch(nIndex: nat) returns (vMerkleBranch: seq<Hash>)
      requires Valid()
      modifies this
      ensures Valid() && vMerkleBranch == Branch(pair, txids, nIndex)
    {
      if vMerkleTree == [] { var _ := BuildMerkleTree(); }
      vMerkleBranch := [];
      var j, nSize := 0, |txids|;
      var index: nat := nIndex;
      ghost var level := txids;
      while nSize > 1
        invariant vMerkleTree == Flat(pair, txids)
        invariant nSize == |level| && j <= |vMerkleTree| && vMerkleTree[j..] == Flat(pair, level)
        invariant vMerkleBranch + Branch(pair, level, index) == Branch(pair, txids, nIndex)
        decreases nSize
      {
        var i := Min(Sibling(index), nSize - 1);
        ghost var next := NextLevel(pair, level);
        FlatParts(pair, level, vMerkleTree, j, i);
        AppendAssociative(vMerkleBranch, [level[i]], Branch(pair, next, Half(index)));
        vMerkleBranch := vMerkleBranch + [vMerkleTree[j + i]];
        index := Half(index);
        j := j + nSize;
        nSize := (nSize + 1) / 2;
        level := next;
      }
    }
  }

  method CheckMerkleBranch(pair: PairHash, leaf: Hash, vMerkleBranch: seq<Hash>, nIndex: int) returns (hash: Hash)
    ensures hash == if nIndex == -1 then 0 else Climb(pair, leaf, vMerkleBranch, nIndex)
  {
    if nIndex == -1 { return 0; }
    hash := leaf;
    var index := nIndex;
    for k := 0 to |vMerkleBranch|
      invariant Climb(pair, hash, vMerkleBranch[k..], index) == Climb(pair, leaf, vMerkleBranch, nIndex)
    {
      var otherside := vMerkleBranch[k];
      assert vMerkleBranch[k..][0] == otherside && vMerkleBranch[k..][1..] == vMerkleBranch[k + 1..];
      hash := Combine(pair, hash, otherside, index);
      index := Half(index);
    }
  }

  /** Taking the branch of a transaction out of a block and checking it gives the root of the block. */
  method ProveTransaction(block: Block, nIndex: nat) returns (root: Hash, hash: Hash)
    requires block.Valid() && nIndex < |block.txids|
    modifies block
    ensures hash == root == Root(block.pair, block.txids)
  {
    root := block.BuildMerkleTree();
    var branch := block.GetMerkleBranch(nIndex);
    hash := CheckMerkleBranch(block.pair, block.txids[nIndex], branch, nIndex);
    BranchVerifies(block.pair, block.txids, nIndex);
  }
}
