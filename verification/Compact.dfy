/** The compact form of targets: a size byte and the three highest bytes of the number. */
module Compact {
  import opened Basics
  import opened BigNum

  const UINT32 := 0x1_0000_0000
  const SIZE_UNIT := 0x100_0000

  function ByteAt(b: Bytes, i: nat): byte { if i < |b| then b[i] else 0 }

  /** The first three bytes, with zeros for missing ones. */
  function Mantissa(b: Bytes): (m: nat)
    ensures m < SIZE_UNIT
  {
    (ByteAt(b, 0) as nat) * 65536 + (ByteAt(b, 1) as nat) * 256 + (ByteAt(b, 2) as nat)
  }

  function GetCompact(n: int): nat { (|ToMpi(n)| * SIZE_UNIT + Mantissa(ToMpi(n))) % UINT32 }

  /** The bytes a compact number stands for. */
  function CompactBytes(c: nat): (b: Bytes)
    ensures |b| == c / SIZE_UNIT
  {
    seq(c / SIZE_UNIT, i => if i == 0 then (c / 65536 % 256) as byte else if i == 1 then (c / 256 % 256) as byte
                            else if i == 2 then (c % 256) as byte else 0)
  }

  function SetCompact(c: nat): int { FromMpi(CompactBytes(c)) }

  /** The first three bytes, followed by zeros. */
  function Truncated(b: Bytes): (r: Bytes)
    ensures |r| == |b|
  {
    seq(|b|, i requires 0 <= i < |b| => if i < 3 then b[i] else 0)
  }

  // ---------- what survives the compact form ----------

  lemma Quotient(c: nat, q: nat, r: nat, d: nat)
    requires d > 0 && c == q * d + r && r < d
    ensures c / d == q && c % d == r
  {
    SameQuotient(c / d, c % d, q, r, d);
  }

  lemma StepUp(a: nat, b: nat, d: nat)
    ensures a < b ==> a * d + d <= b * d
  {
    if a < b {
      Scaled(a + 1, b, d);
      assert (a + 1) * d == a * d + d;
    }
  }

  lemma SameQuotient(x: nat, s: nat, q: nat, r: nat, d: nat)
    requires s < d && r < d && x * d + s == q * d + r
    ensures x == q && s == r
  {
    StepUp(x, q, d);
    StepUp(q, x, d);
  }

  lemma CompactParts(s: nat, x: byte, y: byte, z: byte)
    requires s < 256
    ensures var c := s * SIZE_UNIT + ((x as nat) * 65536 + (y as nat) * 256 + (z as nat));
      && c < UINT32 && c / SIZE_UNIT == s && c / 65536 % 256 == x as nat && c / 256 % 256 == y as nat
        && c % 256 == z as nat
  {
    var i, j, k := x as nat, y as nat, z as nat;
    var c := s * SIZE_UNIT + (i * 65536 + j * 256 + k);
    Quotient(c, s, i * 65536 + j * 256 + k, SIZE_UNIT);
    Quotient(c, s * 256 + i, j * 256 + k, 65536);
    Quotient(s * 256 + i, s, i, 256);
    Quotient(c, s * 65536 + i * 256 + j, k, 256);
    Quotient(s * 65536 + i * 256 + j, s * 256 + i, j, 256);
  }

  /** Decoding gives back the first three bytes. */
  lemma CompactKeepsThree(n: int)
    requires |ToMpi(n)| < 256
    ensures CompactBytes(GetCompact(n)) == Truncated(ToMpi(n))
    ensures GetCompact(n) == |ToMpi(n)| * SIZE_UNIT + Mantissa(ToMpi(n))
  {
    var b := ToMpi(n);
    CompactParts(|b|, ByteAt(b, 0), ByteAt(b, 1), ByteAt(b, 2));
  }

  /** A positive number as a canonical string: its size bounds it on both sides. */
  lemma Shape(n: nat)
    requires n > 0
    ensures var b := ToMpi(n);
      && b != [] && b[0] < 0x80 && Canonical(b) && FromBytes(b) == n
      && n < 128 * Pow256(|b| - 1) && (|b| >= 2 ==> n >= 128 * Pow256(|b| - 2))
  {
    PositiveMpi(n);
    ShapeFromAbove(ToMpi(n));
    if |ToMpi(n)| >= 2 { ShapeFromBelow(ToMpi(n)); }
  }

  lemma PositiveMpi(n: nat)
    requires n > 0
    ensures var b := ToMpi(n); b != [] && b[0] < 0x80 && Canonical(b) && FromBytes(b) == n
  {
    MpiRoundTrip(n);
  }

  lemma ShapeFromAbove(b: Bytes)
    requires b != [] && b[0] < 0x80
    ensures FromBytes(b) < 128 * Pow256(|b| - 1)
  {
    FirstByteBounds(b);
    Scaled(b[0] as nat + 1, 128, Pow256(|b| - 1));
  }

  /** The first byte bounds a number on both sides. */
  lemma FirstByteBounds(b: Bytes)
    requires b != []
    ensures (b[0] as nat) * Pow256(|b| - 1) <= FromBytes(b) < (b[0] as nat + 1) * Pow256(|b| - 1)
    ensures b[0] == 0 ==> FromBytes(b) == FromBytes(b[1..])
  {
    var x, rest := b[0], b[1..];
    assert b == [x] + rest;
    OneByteMore(x, rest);
    FromBound(rest);
    NextMultiple(x as nat, Pow256(|rest|));
  }

  lemma NextMultiple(a: nat, p: nat)
    ensures (a + 1) * p == a * p + p && (a == 0 ==> a * p == 0)
  {
  }

  lemma OneByteMore(x: byte, b: Bytes)
    ensures FromBytes([x] + b) == (x as nat) * Pow256(|b|) + FromBytes(b)
  {
    OneByte(x);
    FromConcat([x], b);
  }

  lemma OneByte(x: byte)
    ensures FromBytes([x]) == x as nat
  {
  }

  lemma ShapeFromBelow(b: Bytes)
    requires |b| >= 2 && b[0] < 0x80 && Canonical(b)
    ensures FromBytes(b) >= 128 * Pow256(|b| - 2)
  {
    FirstByteBounds(b);
    if b[0] == 0 {
      FirstByteBounds(b[1..]);
      Scaled(128, b[1] as nat, Pow256(|b| - 2));
    } else {
      Scaled(1, b[0] as nat, Pow256(|b| - 1));
    }
  }

  lemma Scaled(a: nat, b: nat, p: nat)
    requires a <= b
    ensures a * p <= b * p
  {
  }

  /** n is its three highest bytes times a power of 256, plus less than that power. */
  lemma Split(n: nat)
    requires n > 0 && |ToMpi(n)| >= 3
    ensures var p := Pow256(|ToMpi(n)| - 3);
      var m := Mantissa(ToMpi(n));
      && m * p <= n < m * p + p && m >= 0x8000 && FromBytes(Truncated(ToMpi(n))) == m * p
  {
    Shape(n);
    var b := ToMpi(n);
    var head, tail := b[..3], b[3..];
    assert b == head + tail;
    FromConcat(head, tail);
    FromBound(tail);
    ThreeBytes(head);
    var zeros: Bytes := seq(|tail|, _ => 0);
    assert Truncated(b) == head + zeros;
    FromConcat(head, zeros);
    ZerosAreZero(zeros);
  }

  lemma ThreeBytes(b: Bytes)
    requires |b| == 3
    ensures FromBytes(b) == Mantissa(b)
  {
    assert Front(b) == b[..2] && Front(b[..2]) == b[..1] && Front(b[..1]) == [];
    assert FromBytes(b[..1]) == b[0] as nat;
    assert FromBytes(b[..2]) == 256 * (b[0] as nat) + (b[1] as nat);
  }

  lemma {:induction false} ZerosAreZero(b: Bytes)
    requires forall i :: 0 <= i < |b| ==> b[i] == 0
    ensures FromBytes(b) == 0
  {
    if b != [] { ZerosAreZero(Front(b)); }
  }

  predicate InRange(n: int) { 0 < n < Pow256(32) }

  lemma {:induction false} PowMonotone(j: nat, k: nat)
    requires j <= k
    ensures Pow256(j) <= Pow256(k)
  {
    if j < k { PowMonotone(j, k - 1); }
  }

  lemma SizeAtMost(n: nat, k: nat)
    requires n > 0 && k > 0
    ensures |ToMpi(n)| <= k <==> n < 128 * Pow256(k - 1)
  {
    Shape(n);
    var s := |ToMpi(n)|;
    if s <= k { PowMonotone(s - 1, k - 1); } else { PowMonotone(k - 1, s - 2); }
  }

  lemma SmallSize(n: nat)
    requires InRange(n)
    ensures 1 <= |ToMpi(n)| <= 33
  {
    SizeAtMost(n, 33);
    Shape(n);
  }

  function Decoded(n: int): int { SetCompact(GetCompact(n)) }

  lemma RoundingError(n: nat, d: nat, p: nat)
    requires d <= n < d + p && 0x8000 * p <= d
    ensures 0 < d && (n - d) * 0x8000 < n
  {
  }

  lemma DecodedLong(n: nat)
    requires InRange(n) && |ToMpi(n)| >= 3
    ensures Decoded(n) == Mantissa(ToMpi(n)) * Pow256(|ToMpi(n)| - 3)
  {
    SmallSize(n);
    Shape(n);
    CompactKeepsThree(n);
    Split(n);
    assert Truncated(ToMpi(n))[0] == ToMpi(n)[0];
  }

  lemma DecodedShort(n: nat)
    requires InRange(n) && |ToMpi(n)| < 3
    ensures Decoded(n) == n
  {
    SmallSize(n);
    CompactKeepsThree(n);
    MpiRoundTrip(n);
    assert Truncated(ToMpi(n)) == ToMpi(n);
  }

  /** The compact form rounds down, with a relative error below 2^-15. */
  lemma CompactRoundsDown(n: nat)
    requires InRange(n)
    ensures 0 < Decoded(n) <= n && (n - Decoded(n)) * 0x8000 < n
  {
    if |ToMpi(n)| >= 3 {
      var m, p := Mantissa(ToMpi(n)), Pow256(|ToMpi(n)| - 3);
      DecodedLong(n);
      Split(n);
      Scaled(0x8000, m, p);
      RoundingError(n, Decoded(n), p);
    } else {
      DecodedShort(n);
    }
  }

  /** What was rounded once is encoded the same again. */
  lemma CompactIdempotent(n: nat)
    requires InRange(n)
    ensures GetCompact(Decoded(n)) == GetCompact(n)
  {
    SmallSize(n);
    Shape(n);
    CompactKeepsThree(n);
    var b := ToMpi(n);
    assert Canonical(Truncated(b));
    MpiUnique(Truncated(b));
    assert Mantissa(Truncated(b)) == Mantissa(b);
  }

  lemma SizeMonotone(m: nat, n: nat)
    requires 0 < m <= n
    ensures |ToMpi(m)| <= |ToMpi(n)|
  {
    Shape(n);
    SizeAtMost(m, |ToMpi(n)|);
  }

  lemma ShortMantissa(n: nat)
    requires n > 0 && |ToMpi(n)| < 3
    ensures Mantissa(ToMpi(n)) == if |ToMpi(n)| == 1 then 65536 * n else 256 * n
  {
    Shape(n);
    var b := ToMpi(n);
    if |b| == 1 {
      assert Front(b) == [];
    } else {
      assert Front(b) == [b[0]] && Front([b[0]]) == [];
      assert FromBytes([b[0]]) == b[0] as nat;
    }
  }

  /** Larger targets have larger compact forms. */
  lemma CompactMonotone(m: nat, n: nat)
    requires 0 < m <= n && InRange(n)
    ensures GetCompact(m) <= GetCompact(n)
  {
    SizeMonotone(m, n);
    SmallSize(m);
    SmallSize(n);
    CompactKeepsThree(m);
    CompactKeepsThree(n);
    var s := |ToMpi(n)|;
    if |ToMpi(m)| == s {
      if s >= 3 {
        Split(m);
        Split(n);
        Quotients(Mantissa(ToMpi(m)), Mantissa(ToMpi(n)), m, n, Pow256(s - 3));
      } else {
        ShortMantissa(m);
        ShortMantissa(n);
      }
    }
  }

  /** The weight of the lowest byte that the compact form of n keeps. */
  function Unit(n: nat): (u: nat)
    ensures u > 0
  {
    if |ToMpi(n)| >= 3 then Pow256(|ToMpi(n)| - 3) else 1
  }

  /** Numbers have the same compact form if and only if they agree in the bytes it keeps. */
  lemma CompactSame(m: nat, n: nat)
    requires 0 < m <= n && InRange(n)
    ensures GetCompact(m) == GetCompact(n) <==> m / Unit(n) == n / Unit(n)
  {
    SizeMonotone(m, n);
    SmallSize(m);
    SmallSize(n);
    CompactKeepsThree(m);
    CompactKeepsThree(n);
    if |ToMpi(m)| < |ToMpi(n)| {
      SmallerSize(m, n);
    } else {
      SameMantissa(m, n);
    }
  }

  lemma SameMantissa(m: nat, n: nat)
    requires 0 < m && 0 < n && |ToMpi(m)| == |ToMpi(n)|
    ensures Mantissa(ToMpi(m)) == Mantissa(ToMpi(n)) <==> m / Unit(n) == n / Unit(n)
  {
    if |ToMpi(n)| >= 3 {
      Kept(m);
      Kept(n);
    } else {
      ShortMantissa(m);
      ShortMantissa(n);
    }
  }

  lemma Kept(n: nat)
    requires n > 0 && |ToMpi(n)| >= 3
    ensures n / Unit(n) == Mantissa(ToMpi(n)) >= 0x8000
  {
    Split(n);
    var m, p := Mantissa(ToMpi(n)), Unit(n);
    Quotient(n, m, n - m * p, p);
  }

  lemma SmallerSize(m: nat, n: nat)
    requires 0 < m <= n && |ToMpi(m)| < |ToMpi(n)|
    ensures m / Unit(n) < n / Unit(n)
  {
    if |ToMpi(n)| >= 3 {
      var u := Unit(n);
      Kept(n);
      Shape(m);
      PowMonotone(|ToMpi(m)| - 1, |ToMpi(n)| - 2);
      assert Pow256(|ToMpi(n)| - 2) == 256 * u;
      assert m / u < 0x8000 by { Below(m, 0x8000, u); }
    }
  }

  lemma Below(m: nat, q: nat, u: nat)
    requires u > 0 && m < q * u
    ensures m / u < q
  {
    if m / u >= q { Scaled(q, m / u, u); }
  }

  lemma Quotients(a: nat, b: nat, m: nat, n: nat, p: nat)
    requires a * p <= m <= n < b * p + p
    ensures a <= b
  {
    StepUp(b, a, p);
  }
}
