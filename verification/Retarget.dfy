/** The next proof-of-stake target: an exponential moving average of the spacing, in compact form. */
module Retarget {
  import opened Basics
  import opened BlockTree
  import opened ChainLaws
  import opened Rewards
  import opened BigNum
  import opened Compact

  const MAX_SPACING := 16 * 60
  const NEW_TARGET_SPACING := 65
  const OLD_TARGET_SPACING := 60

  /** The easiest target, 2^230 - 1. */
  function LimitV2(): (l: nat)
    ensures l > 1000
  {
    LimitIsLarge();
    64 * Pow256(28) - 1
  }

  lemma LimitIsLarge()
    ensures Pow256(28) >= 65536
  {
    PowMonotone(2, 28);
    assert Pow256(2) == 256 * Pow256(1) && Pow256(1) == 256 * Pow256(0);
  }

  lemma LimitInRange()
    ensures InRange(LimitV2())
  {
    assert Pow256(29) == 256 * Pow256(28);
    PowMonotone(29, 32);
  }

  function GetStakeTargetSpacing(time: int): (s: nat)
    ensures s == 60 || s == 65
  {
    if time >= HARDFORK_TIME then NEW_TARGET_SPACING else OLD_TARGET_SPACING
  }

  predicate IsSpacing(s: nat) { s == 60 || s == 65 }

  /** A negative spacing counts as one second, a long one as sixteen minutes. */
  function Clamped(actual: int): (a: nat)
    ensures a <= MAX_SPACING
  {
    if actual < 0 then 1 else if actual > MAX_SPACING then MAX_SPACING else actual
  }

  function Weight(spacing: nat, a: nat): (w: nat)
    requires IsSpacing(spacing)
    ensures w == if spacing == 65 then 845 + 2 * a else 900 + 2 * a
  {
    (MAX_SPACING / spacing - 1) * spacing + a + a
  }

  function TotalWeight(spacing: nat): (w: nat)
    requires IsSpacing(spacing)
    ensures w == if spacing == 65 then 975 else 1020
  {
    (MAX_SPACING / spacing + 1) * spacing
  }

  /** Division of big numbers truncates. */
  function Quot(x: int, d: nat): int
    requires d > 0
  {
    if x < 0 then -(-x / d) else x / d
  }

  function Moved(target: int, spacing: nat, actual: int): int
    requires IsSpacing(spacing)
  {
    Quot(target * Weight(spacing, Clamped(actual)), TotalWeight(spacing))
  }

  function NextBits(bits: nat, spacing: nat, actual: int): nat
    requires IsSpacing(spacing)
  {
    var target := Moved(SetCompact(bits), spacing, actual);
    Limited(target)
  }

  // ---------- results stay within the limit ----------

  /** Every result decodes to a positive target within the limit. */
  lemma NextTargetInRange(bits: nat, spacing: nat, actual: int)
    requires IsSpacing(spacing)
    ensures 0 < SetCompact(NextBits(bits, spacing, actual)) <= LimitV2()
  {
    LimitInRange();
    var target := Moved(SetCompact(bits), spacing, actual);
    CompactRoundsDown(if target > LimitV2() || target <= 0 then LimitV2() else target);
  }

  /** Encoding the decoded result gives the result: it is canonical. */
  lemma NextBitsCanonical(bits: nat, spacing: nat, actual: int)
    requires IsSpacing(spacing)
    ensures GetCompact(SetCompact(NextBits(bits, spacing, actual))) == NextBits(bits, spacing, actual)
  {
    LimitInRange();
    var target := Moved(SetCompact(bits), spacing, actual);
    CompactIdempotent(if target > LimitV2() || target <= 0 then LimitV2() else target);
  }

  /** At exactly the nominal spacing a canonical target within the limit does not change. */
  lemma NominalSpacingKeepsBits(bits: nat, spacing: nat)
    requires IsSpacing(spacing) && 0 < SetCompact(bits) <= LimitV2() && GetCompact(SetCompact(bits)) == bits
    ensures NextBits(bits, spacing, spacing) == bits
  {
    var target := SetCompact(bits);
    Quotient(target * TotalWeight(spacing), target, 0, TotalWeight(spacing));
  }

  // ---------- how the result depends on the spacing ----------

  lemma QuotMonotone(x: nat, y: nat, d: nat)
    requires x <= y && d > 0
    ensures x / d <= y / d
  {
    Quotients(x / d, y / d, x, y, d);
  }

  lemma MovedMonotone(target: nat, spacing: nat, a: int, b: int)
    requires IsSpacing(spacing) && 0 <= a <= b
    ensures 0 <= Moved(target, spacing, a) <= Moved(target, spacing, b)
  {
    var v, w := Weight(spacing, Clamped(a)), Weight(spacing, Clamped(b));
    Scaled(v, w, target);
    assert target * v == v * target && target * w == w * target;
    QuotMonotone(target * v, target * w, TotalWeight(spacing));
  }

  /** The average is positive unless the target is 1 and the spacing short. */
  lemma MovedPositive(target: nat, spacing: nat, a: int)
    requires IsSpacing(spacing) && a >= 0 && target > 0
    ensures Moved(target, spacing, a) > 0 <==> target > 1 || a >= spacing
    ensures target == 1 ==> Moved(target, spacing, a) <= 2
  {
    if target > 1 {
      MovedMonotone(target, spacing, 0, a);
      Scaled(2, target, Weight(spacing, 0));
      QuotMonotone(2 * Weight(spacing, 0), target * Weight(spacing, 0), TotalWeight(spacing));
    }
  }

  lemma SmallBits(n: nat)
    requires 0 < n < 128
    ensures GetCompact(n) < 2 * SIZE_UNIT <= GetCompact(LimitV2())
  {
    LimitInRange();
    Shape(n);
    Shape(LimitV2());
    SmallSize(LimitV2());
    SizeAtMost(n, 1);
    SizeAtMost(LimitV2(), 1);
    CompactKeepsThree(n);
    CompactKeepsThree(LimitV2());
  }

  /** For spacings that are not negative the result grows with the spacing, except that target 1 jumps to the
      limit when the spacing is shorter than nominal. */
  lemma GrowsWithSpacing(bits: nat, spacing: nat, a: int, b: int)
    requires IsSpacing(spacing) && SetCompact(bits) > 0 && 0 <= a <= b
    ensures NextBits(bits, spacing, a) <= NextBits(bits, spacing, b)
            <==> SetCompact(bits) > 1 || a >= spacing || b < spacing
  {
    var target := SetCompact(bits);
    MovedMonotone(target, spacing, a, b);
    MovedPositive(target, spacing, a);
    MovedPositive(target, spacing, b);
    LimitedOrder(Moved(target, spacing, a), Moved(target, spacing, b));
  }

  function Limited(target: int): nat { GetCompact(if target > LimitV2() || target <= 0 then LimitV2() else target) }

  lemma LimitedOrder(x: nat, y: nat)
    requires x <= y && (x == 0 ==> y <= 2)
    ensures Limited(x) <= Limited(y) <==> x > 0 || y == 0
  {
    LimitInRange();
    if x > 0 {
      CompactMonotone(Min(x, LimitV2()), Min(y, LimitV2()));
    } else if y > 0 {
      SmallBits(y);
    }
  }

  /** A negative spacing counts as one second. */
  lemma NegativeSpacing(bits: nat, spacing: nat, actual: int)
    requires IsSpacing(spacing) && actual < 0
    ensures NextBits(bits, spacing, actual) == NextBits(bits, spacing, 1)
  {
  }

  /** Whether a shorter spacing a gives no easier target than b, from the target before. */
  predicate OrderKept(target: int, spacing: nat, a: int, b: int)
    requires IsSpacing(spacing)
  {
    if target <= 1 then target <= 0 || b < spacing || a >= spacing
    else a >= 0 || b != 0 || SecondIsLost(target, spacing)
  }

  /** The compact form does not tell the targets for spacings of no time and of one second apart. */
  predicate SecondIsLost(target: int, spacing: nat)
    requires IsSpacing(spacing) && target > 1
  {
    var x, y := Capped(Moved(target, spacing, 0)), Capped(Moved(target, spacing, 1));
    x >= 0 && y >= 0 && x / Unit(y) == y / Unit(y)
  }

  function Capped(target: int): int { Min(target, LimitV2()) }

  lemma TwoSpacings(target: nat, spacing: nat)
    requires IsSpacing(spacing) && target > 1
    ensures Limited(Moved(target, spacing, 1)) == Limited(Moved(target, spacing, 0)) <==> SecondIsLost(target, spacing)
  {
    MovedPositive(target, spacing, 0);
    MovedMonotone(target, spacing, 0, 1);
    LimitInRange();
    CompactSame(Capped(Moved(target, spacing, 0)), Capped(Moved(target, spacing, 1)));
  }

  lemma NoTarget(bits: nat, spacing: nat, a: int)
    requires IsSpacing(spacing) && SetCompact(bits) <= 0
    ensures NextBits(bits, spacing, a) == Limited(0)
  {
    NotPositive(SetCompact(bits), Weight(spacing, Clamped(a)));
  }

  lemma NotPositive(x: int, w: nat)
    requires x <= 0
    ensures x * w <= 0
  {
    Scaled(0, -x, w);
    assert x * w == -(-x * w);
  }

  /** For all spacings: when the result does not fall as the spacing grows from a to b. */
  lemma SpacingOrder(bits: nat, spacing: nat, a: int, b: int)
    requires IsSpacing(spacing) && a <= b
    ensures NextBits(bits, spacing, a) <= NextBits(bits, spacing, b) <==> OrderKept(SetCompact(bits), spacing, a, b)
    ensures a < 0 && b == 0 ==> NextBits(bits, spacing, a) >= NextBits(bits, spacing, b)
  {
    var target := SetCompact(bits);
    if a < 0 { NegativeSpacing(bits, spacing, a); }
    if target <= 0 {
      NoTarget(bits, spacing, a);
      NoTarget(bits, spacing, b);
    } else if a >= 0 {
      GrowsWithSpacing(bits, spacing, a, b);
    } else if b < 0 {
      NegativeSpacing(bits, spacing, b);
    } else if b > 0 {
      GrowsWithSpacing(bits, spacing, 1, b);
    } else {
      GrowsWithSpacing(bits, spacing, 0, 1);
      if target > 1 { TwoSpacings(target, spacing); } else { OneSecond(spacing); }
    }
  }

  lemma OneSecond(spacing: nat)
    requires IsSpacing(spacing)
    ensures Moved(1, spacing, 0) == Moved(1, spacing, 1) == 0
  {
    Quotient(Weight(spacing, 0), 0, Weight(spacing, 0), TotalWeight(spacing));
    Quotient(Weight(spacing, 1), 0, Weight(spacing, 1), TotalWeight(spacing));
  }

  lemma ThreeByteCompact(n: nat)
    requires 0x8000 <= n < 0x80_0000
    ensures GetCompact(n) == 3 * SIZE_UNIT + n && SetCompact(GetCompact(n)) == n
  {
    assert Pow256(2) == 256 * Pow256(1) && Pow256(1) == 256 * Pow256(0);
    SizeAtMost(n, 3);
    SizeAtMost(n, 2);
    Split(n);
    CompactKeepsThree(n);
    assert Pow256(0) == 1;
    CompactBytesThree(n);
  }

  lemma CompactBytesThree(n: nat)
    requires n > 0 && |ToMpi(n)| == 3
    ensures SetCompact(GetCompact(n)) == n
  {
    CompactKeepsThree(n);
    MpiRoundTrip(n);
    assert Truncated(ToMpi(n)) == ToMpi(n);
  }

  lemma ExactMove(target: nat, spacing: nat, a: nat, q: nat)
    requires IsSpacing(spacing) && a <= MAX_SPACING && target * Weight(spacing, a) == q * TotalWeight(spacing)
    ensures Moved(target, spacing, a) == q
  {
    Quotient(target * Weight(spacing, a), q, 0, TotalWeight(spacing));
  }

  lemma ThreeByteLimited(n: nat)
    requires 0x8000 <= n < 0x10_0000
    ensures Limited(n) == 3 * SIZE_UNIT + n
  {
    LimitIsLarge();
    ThreeByteCompact(n);
  }

  /** So a block dated before its predecessor gives an easier target than one dated the same second. */
  lemma NegativeSpacingIsNotMonotone()
    ensures var bits := GetCompact(975_000); NextBits(bits, 65, -1) > NextBits(bits, 65, 0)
  {
    ThreeByteCompact(975_000);
    ExactMove(975_000, 65, 0, 845_000);
    ExactMove(975_000, 65, 1, 847_000);
    ThreeByteLimited(845_000);
    ThreeByteLimited(847_000);
    NegativeSpacing(GetCompact(975_000), 65, -1);
  }

  // ---------- the code ----------

  /** The last block of a kind at or before position n of a chain, or genesis. */
  ghost function LastOfKind(p: seq<Hash>, isStake: Hash -> bool, n: nat): (k: nat)
    requires n < |p|
    ensures k <= n && (k > 0 ==> isStake(p[k])) && forall i :: k < i <= n ==> !isStake(p[i])
  {
    if n == 0 || isStake(p[n]) then n else LastOfKind(p, isStake, n - 1)
  }

  method GetLastBlockIndex(t: Tree, h: Hash, isStake: Hash -> bool, ghost p: seq<Hash>, ghost n: nat) returns (r: Hash)
    requires IsChain(t, p) && n < |p| && p[n] == h
    ensures r == p[LastOfKind(p, isStake, n)]
  {
    r := h;
    ghost var k := n;
    assert ChainAt(t, p, n);
    while t[r].height > 0 && !isStake(r)
      invariant 0 <= k <= n && r == p[k] && ChainAt(t, p, k)
      invariant LastOfKind(p, isStake, k) == LastOfKind(p, isStake, n)
      decreases k
    {
      r := t[r].prev;
      k := k - 1;
      assert ChainAt(t, p, k);
    }
  }

  ghost function TimeAt(t: Tree, p: seq<Hash>, i: nat): int
    requires IsChain(t, p) && i < |p|
  {
    assert ChainAt(t, p, i);
    t[p[i]].time
  }

  /** What the next target is moved from: nothing near genesis, else the last target and two spacings. */
  datatype Basis = AtLimit | From(bits: nat, spacing: nat, actual: int)

  /** The last proof-of-stake block of a chain, and the time since the one before. */
  ghost function BasisOf(t: Tree, p: seq<Hash>, isStake: Hash -> bool, bitsOf: Hash -> nat): (b: Basis)
    requires IsChain(t, p)
    ensures b.From? ==> IsSpacing(b.spacing)
  {
    if p == [] then AtLimit else
      var n := |p| - 1;
      var i := LastOfKind(p, isStake, n);
      if i == 0 then AtLimit else
        var j := LastOfKind(p, isStake, i - 1);
        if j == 0 then AtLimit
        else From(bitsOf(p[i]), GetStakeTargetSpacing(TimeAt(t, p, n)), TimeAt(t, p, i) - TimeAt(t, p, j))
  }

  function BitsFrom(b: Basis): nat
    requires b.From? ==> IsSpacing(b.spacing)
  {
    match b
    case AtLimit => GetCompact(LimitV2())
    case From(bits, spacing, actual) => NextBits(bits, spacing, actual)
  }

  /** Every required target decodes into the permitted range. */
  lemma RequiredInRange(b: Basis)
    requires b.From? ==> IsSpacing(b.spacing)
    ensures 0 < SetCompact(BitsFrom(b)) <= LimitV2()
  {
    match b
    case AtLimit =>
      LimitInRange();
      CompactRoundsDown(LimitV2());
    case From(bits, spacing, actual) =>
      NextTargetInRange(bits, spacing, actual);
  }

  method FindBasis(t: Tree, last: Option<Hash>, isStake: Hash -> bool, bitsOf: Hash -> nat, ghost p: seq<Hash>)
    returns (b: Basis)
    requires IsChain(t, p) && last == if p == [] then None else Some(Last(p))
    ensures b == BasisOf(t, p, isStake, bitsOf)
  {
    if last.None? { return AtLimit; }
    ghost var n := |p| - 1;
    assert ChainAt(t, p, n);
    var pindexPrev := GetLastBlockIndex(t, last.value, isStake, p, n);
    ghost var i := LastOfKind(p, isStake, n);
    assert ChainAt(t, p, i);
    if t[pindexPrev].height == 0 { return AtLimit; }
    var pindexPrevPrev := GetLastBlockIndex(t, t[pindexPrev].prev, isStake, p, i - 1);
    ghost var j := LastOfKind(p, isStake, i - 1);
    assert ChainAt(t, p, j);
    if t[pindexPrevPrev].height == 0 { return AtLimit; }
    b := From(bitsOf(pindexPrev), GetStakeTargetSpacing(t[last.value].time),
              t[pindexPrev].time - t[pindexPrevPrev].time);
  }

  /** Moves a target towards the nominal spacing, and keeps it within the limit. */
  method MoveTarget(nBits: nat, nTargetSpacing: nat, spacing: int) returns (bits: nat)
    requires IsSpacing(nTargetSpacing)
    ensures bits == NextBits(nBits, nTargetSpacing, spacing)
  {
    var nActualSpacing := spacing;
    if nActualSpacing < 0 {
      nActualSpacing := 1;
    } else if nActualSpacing > MAX_SPACING {
      nActualSpacing := MAX_SPACING;
    }
    assert nActualSpacing == Clamped(spacing);
    var bnNew := SetCompact(nBits);
    bnNew := bnNew * Weight(nTargetSpacing, nActualSpacing);
    bnNew := Quot(bnNew, TotalWeight(nTargetSpacing));
    if bnNew > LimitV2() || bnNew <= 0 { return GetCompact(LimitV2()); }
    bits := GetCompact(bnNew);
  }

  method GetNextTargetRequiredPoSPV2(t: Tree, last: Option<Hash>, isStake: Hash -> bool, bitsOf: Hash -> nat,
                                     ghost p: seq<Hash>)
    returns (bits: nat)
    requires IsChain(t, p) && last == if p == [] then None else Some(Last(p))
    ensures bits == BitsFrom(BasisOf(t, p, isStake, bitsOf)) && 0 < SetCompact(bits) <= LimitV2()
  {
    var b := FindBasis(t, last, isStake, bitsOf, p);
    RequiredInRange(b);
    match b {
      case AtLimit => bits := GetCompact(LimitV2());
      case From(nBits, nTargetSpacing, spacing) => bits := MoveTarget(nBits, nTargetSpacing, spacing);
    }
  }
}
