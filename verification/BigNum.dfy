/** Big numbers as byte strings: the sign-and-magnitude format that the number class converts through. */
module BigNum {
  import opened Basics

  type Bytes = seq<byte>

  function Pow256(k: nat): (p: nat)
    ensures p > 0
  {
    if k == 0 then 1 else 256 * Pow256(k - 1)
  }

  /** Big-endian. */
  function FromBytes(b: Bytes): nat {
    if b == [] then 0 else 256 * FromBytes(Front(b)) + (Last(b) as nat)
  }

  /** Big-endian, without leading zeros. */
  function ToBytes(n: nat): Bytes {
    if n == 0 then [] else ToBytes(n / 256) + [(n % 256) as byte]
  }

  lemma {:induction false} BytesRoundTrip(n: nat)
    ensures FromBytes(ToBytes(n)) == n && (n > 0 ==> ToBytes(n) != [] && ToBytes(n)[0] != 0)
  {
    if n > 0 {
      BytesRoundTrip(n / 256);
      assert Front(ToBytes(n)) == ToBytes(n / 256);
    }
  }

  lemma {:induction false} BytesUnique(b: Bytes)
    requires b != [] ==> b[0] != 0
    ensures ToBytes(FromBytes(b)) == b
    ensures b != [] ==> FromBytes(b) > 0
  {
    if b != [] {
      if |b| == 1 {
        assert Front(b) == [];
      } else {
        assert Front(b)[0] == b[0];
      }
      BytesUnique(Front(b));
      var n := FromBytes(b);
      assert n / 256 == FromBytes(Front(b)) && n % 256 == Last(b) as nat;
      assert b == Front(b) + [Last(b)];
    }
  }

  lemma {:induction false} FromConcat(a: Bytes, b: Bytes)
    ensures FromBytes(a + b) == FromBytes(a) * Pow256(|b|) + FromBytes(b)
  {
    if b == [] {
      assert a + b == a;
    } else {
      assert Front(a + b) == a + Front(b) && Last(a + b) == Last(b);
      FromConcat(a, Front(b));
      assert 256 * (FromBytes(a) * Pow256(|b| - 1)) == FromBytes(a) * Pow256(|b|);
    }
  }

  lemma {:induction false} FromBound(b: Bytes)
    ensures FromBytes(b) < Pow256(|b|)
  {
    if b != [] { FromBound(Front(b)); }
  }

  lemma {:induction false} LeadingZero(b: Bytes)
    ensures FromBytes([0] + b) == FromBytes(b)
  {
    FromConcat([0], b);
  }

  // ---------- sign and magnitude ----------

  /** A set top bit of the first byte is the sign. */
  function FromMpi(b: Bytes): int {
    if b == [] then 0
    else if b[0] >= 0x80 then -(FromBytes([b[0] - 0x80] + b[1..]) as int)
    else FromBytes(b)
  }

  /** The shortest such string, with room for the sign bit. */
  function ToMpi(n: int): Bytes {
    var b := ToBytes(if n < 0 then -n else n);
    if b != [] && b[0] >= 0x80 then [if n < 0 then 0x80 else 0] + b
    else if n < 0 && b != [] then [b[0] + 0x80] + b[1..]
    else b
  }

  /** No shorter string means the same. */
  predicate Canonical(b: Bytes) {
    b != [] ==> (b[0] % 0x80 == 0 ==> |b| > 1 && b[1] >= 0x80)
  }

  lemma MpiRoundTrip(n: int)
    ensures FromMpi(ToMpi(n)) == n && Canonical(ToMpi(n))
  {
    var b := ToBytes(if n < 0 then -n else n);
    BytesRoundTrip(if n < 0 then -n else n);
    if b != [] {
      LeadingZero(b);
      if b[0] >= 0x80 {
        assert ([if n < 0 then 0x80 else 0] + b)[1..] == b;
      } else if n < 0 {
        assert [b[0]] + ([b[0] + 0x80] + b[1..])[1..] == b;
      }
    }
  }

  /** A first byte that holds only the sign. */
  lemma PaddedUnique(rest: Bytes, negative: bool)
    requires rest != [] && rest[0] >= 0x80
    ensures var b := [if negative then 0x80 else 0] + rest; ToMpi(FromMpi(b)) == b
  {
    var b: Bytes := [if negative then 0x80 else 0] + rest;
    assert b[1..] == rest;
    BytesUnique(rest);
    LeadingZero(rest);
  }

  /** A first byte that holds the sign of a negative number and its highest bits. */
  lemma SignedUnique(first: byte, rest: Bytes)
    requires first > 0x80
    ensures ToMpi(FromMpi([first] + rest)) == [first] + rest
  {
    var magnitude: Bytes := [first - 0x80] + rest;
    assert ([first] + rest)[1..] == rest && magnitude[1..] == rest;
    BytesUnique(magnitude);
  }

  lemma MpiUnique(b: Bytes)
    requires Canonical(b)
    ensures ToMpi(FromMpi(b)) == b
  {
    if b != [] {
      var rest := b[1..];
      assert b == [b[0]] + rest;
      if b[0] % 0x80 == 0 {
        PaddedUnique(rest, b[0] == 0x80);
      } else if b[0] < 0x80 {
        BytesUnique(b);
      } else {
        SignedUnique(b[0], rest);
      }
    }
  }

  // ---------- little-endian vectors ----------

  function SetVch(vch: Bytes): int { FromMpi(Reverse(vch)) }

  function GetVch(n: int): Bytes { Reverse(ToMpi(n)) }

  lemma VchRoundTrip(n: int)
    ensures SetVch(GetVch(n)) == n
  {
    MpiRoundTrip(n);
    ReverseTwice(ToMpi(n));
  }
}
