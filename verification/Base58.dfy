/** Base58: byte vectors as text, leading zero bytes as leading ones. */
module Base58 {
  import opened Basics
  import opened BigNum

  /** The alphabet: digits and letters in order of their codes, without 0, I, O and l. */
  function Letter(d: nat): (c: char)
    requires d < 58
    ensures d < 9 ==> c == ('1' as int + d) as char
    ensures d >= 9 ==> c as int >= 'A' as int
  {
    if d < 9 then ('1' as int + d) as char
    else if d < 17 then ('A' as int + d - 9) as char
    else if d < 22 then ('J' as int + d - 17) as char
    else if d < 33 then ('P' as int + d - 22) as char
    else if d < 44 then ('a' as int + d - 33) as char
    else ('m' as int + d - 44) as char
  }

  /** The first position of a character in the alphabet from i on, or 58. */
  function IndexFrom(c: char, i: nat): (k: nat)
    requires i <= 58
    ensures k <= 58 && (k < 58 ==> Letter(k) == c)
    decreases 58 - i
  {
    if i == 58 || Letter(i) == c then i else IndexFrom(c, i + 1)
  }

  function Digit(c: char): (k: nat)
    ensures k <= 58 && (k < 58 ==> Letter(k) == c)
  {
    IndexFrom(c, 0)
  }

  predicate IsDigit(c: char) { Digit(c) < 58 }

  ghost predicate AllDigits(s: string) { forall i :: 0 <= i < |s| ==> IsDigit(s[i]) }

  lemma {:induction false} IndexOfLetter(d: nat, i: nat)
    requires i <= d < 58
    ensures IndexFrom(Letter(d), i) == d
    decreases d - i
  {
    if i < d {
      LettersAscend(i, d);
      IndexOfLetter(d, i + 1);
    }
  }

  lemma LettersAscend(i: nat, j: nat)
    requires i < j < 58
    ensures Letter(i) as int < Letter(j) as int
  {
  }

  lemma DigitOfLetter(d: nat)
    requires d < 58
    ensures Digit(Letter(d)) == d
  {
    IndexOfLetter(d, 0);
  }

  // ---------- numbers as digits ----------

  /** Big-endian digits without leading ones. */
  function ToDigits(n: nat): string { if n == 0 then "" else ToDigits(n / 58) + [Letter(n % 58)] }

  function Value(s: string): nat { if s == "" then 0 else 58 * Value(Front(s)) + Digit(Last(s)) }

  lemma {:induction false} DigitsRoundTrip(n: nat)
    ensures Value(ToDigits(n)) == n && AllDigits(ToDigits(n))
    ensures n > 0 ==> ToDigits(n) != "" && ToDigits(n)[0] != '1'
  {
    if n > 0 {
      DigitsRoundTrip(n / 58);
      DigitOfLetter(n % 58);
      assert Front(ToDigits(n)) == ToDigits(n / 58);
      if n < 58 { LettersAscend(0, n); }
    }
  }

  lemma Quotient58(q: nat, d: nat)
    requires d < 58
    ensures (58 * q + d) / 58 == q && (58 * q + d) % 58 == d
  {
  }

  lemma DigitsStep(front: string, c: char)
    requires IsDigit(c) && ToDigits(Value(front)) == front && (if front == "" then c != '1' else Value(front) > 0)
    ensures ToDigits(Value(front + [c])) == front + [c] && Value(front + [c]) > 0
  {
    assert Front(front + [c]) == front && Last(front + [c]) == c;
    Quotient58(Value(front), Digit(c));
    if front == "" { assert Digit(c) > 0; }
  }

  lemma {:induction false} DigitsUnique(s: string)
    requires AllDigits(s) && (s != "" ==> s[0] != '1')
    ensures ToDigits(Value(s)) == s && (s != "" ==> Value(s) > 0)
  {
    if s != "" {
      var front, c := Front(s), Last(s);
      assert s == front + [c];
      DigitsUnique(front);
      DigitsStep(front, c);
    }
  }

  // ---------- leading zeros ----------

  function LeadingZeros(v: Bytes): (z: nat)
    ensures z <= |v| && (z < |v| ==> v[z] != 0) && forall i :: 0 <= i < z ==> v[i] == 0
  {
    if v == [] || v[0] != 0 then 0 else LeadingZeros(v[1..]) + 1
  }

  function LeadingOnes(s: string): (z: nat)
    ensures z <= |s| && (z < |s| ==> s[z] != '1') && forall i :: 0 <= i < z ==> s[i] == '1'
  {
    if s == "" || s[0] != '1' then 0 else LeadingOnes(s[1..]) + 1
  }

  function Zeros(n: nat): Bytes { seq(n, _ => 0) }

  function Ones(n: nat): string { seq(n, _ => '1') }

  lemma {:induction false} ZerosWeighNothing(n: nat, v: Bytes)
    ensures FromBytes(Zeros(n) + v) == FromBytes(v)
  {
    if n > 0 {
      assert Zeros(n) + v == [0] + (Zeros(n - 1) + v);
      LeadingZero(Zeros(n - 1) + v);
      ZerosWeighNothing(n - 1, v);
    } else {
      assert Zeros(0) + v == v;
    }
  }

  lemma {:induction false} OnesWeighNothing(n: nat, s: string)
    ensures Value(Ones(n) + s) == Value(s)
    decreases |s|, n
  {
    if s != "" {
      assert Front(Ones(n) + s) == Ones(n) + Front(s);
      OnesWeighNothing(n, Front(s));
    } else if n > 0 {
      assert Front(Ones(n) + s) == Ones(n - 1) + s && Last(Ones(n) + s) == '1';
      assert Letter(0) == '1';
      OnesWeighNothing(n - 1, s);
    }
  }

  // ---------- the two directions ----------

  function Encoded(v: Bytes): string { Ones(LeadingZeros(v)) + ToDigits(FromBytes(v)) }

  function Decoded(s: string): Bytes { Zeros(LeadingOnes(s)) + ToBytes(Value(s)) }

  lemma {:induction false} CountZeros(n: nat, v: Bytes)
    requires v != [] ==> v[0] != 0
    ensures LeadingZeros(Zeros(n) + v) == n
  {
    if n == 0 {
      assert Zeros(0) + v == v;
    } else {
      assert (Zeros(n) + v)[1..] == Zeros(n - 1) + v;
      CountZeros(n - 1, v);
    }
  }

  lemma {:induction false} CountOnes(n: nat, s: string)
    requires s != "" ==> s[0] != '1'
    ensures LeadingOnes(Ones(n) + s) == n
  {
    if n == 0 {
      assert Ones(0) + s == s;
    } else {
      assert (Ones(n) + s)[1..] == Ones(n - 1) + s;
      CountOnes(n - 1, s);
    }
  }

  lemma OnesAreDigits(z: nat)
    ensures AllDigits(Ones(z))
  {
    DigitOfLetter(0);
  }

  lemma EncodedIs(z: nat, w: Bytes)
    requires w != [] ==> w[0] != 0
    ensures Encoded(Zeros(z) + w) == Ones(z) + ToDigits(FromBytes(w))
  {
    CountZeros(z, w);
    ZerosWeighNothing(z, w);
  }

  lemma DecodedIs(z: nat, t: string)
    requires t != "" ==> t[0] != '1'
    ensures Decoded(Ones(z) + t) == Zeros(z) + ToBytes(Value(t))
  {
    CountOnes(z, t);
    OnesWeighNothing(z, t);
  }

  /** Decoding the encoding of any byte vector gives it back, leading zeros and high bits included. */
  lemma DecodeEncode(v: Bytes)
    ensures Decoded(Encoded(v)) == v && AllDigits(Encoded(v))
  {
    var z := LeadingZeros(v);
    var w := v[z..];
    assert v == Zeros(z) + w;
    EncodedIs(z, w);
    DigitsRoundTrip(FromBytes(w));
    BytesUnique(w);
    DecodedIs(z, ToDigits(FromBytes(w)));
    OnesAreDigits(z);
  }

  /** Encoding the decoding of any base58 string gives it back. */
  lemma EncodeDecode(s: string)
    requires AllDigits(s)
    ensures Encoded(Decoded(s)) == s
  {
    var z := LeadingOnes(s);
    var t := s[z..];
    assert s == Ones(z) + t;
    DecodedIs(z, t);
    BytesRoundTrip(Value(t));
    DigitsUnique(t);
    EncodedIs(z, ToBytes(Value(t)));
  }

  // ---------- text with white space ----------

  predicate IsSpace(c: char) { c in " \t\n\r" || c as int == 11 || c as int == 12 }

  function SkipSpace(s: string): string { if s != "" && IsSpace(s[0]) then SkipSpace(s[1..]) else s }

  /** The digits at the start. */
  function Body(s: string): (b: string)
    ensures |b| <= |s| && b == s[..|b|] && AllDigits(b) && (|b| < |s| ==> !IsDigit(s[|b|]))
  {
    if s == "" || !IsDigit(s[0]) then ""
    else
      var b := Body(s[1..]);
      assert s == [s[0]] + s[1..];
      [s[0]] + b
  }

  /** Digits, with white space around them. */
  function Parsed(s: string): Option<Bytes> {
    var t := SkipSpace(s);
    var b := Body(t);
    if SkipSpace(t[|b|..]) == "" then Some(Decoded(b)) else None
  }

  lemma {:induction false} NoSpace(s: string)
    requires AllDigits(s)
    ensures SkipSpace(s) == s && Body(s) == s
  {
    if s != "" {
      SpaceIsNoDigit(s[0]);
      NoSpace(s[1..]);
    }
  }

  lemma SpaceIsNoDigit(c: char)
    ensures IsDigit(c) ==> !IsSpace(c)
  {
    var k := Digit(c);
    assert k < 58 ==> Letter(k) == c && c as int >= 49;
  }

  /** A base58 string is accepted as it is. */
  lemma ParsedDigits(s: string)
    requires AllDigits(s)
    ensures Parsed(s) == Some(Decoded(s))
  {
    NoSpace(s);
    assert s[|s|..] == "";
  }

  // ---------- the code ----------

  /** The digits of a number, last one first. */
  method DigitsOf(n: nat) returns (str: string)
    ensures Reverse(str) == ToDigits(n)
  {
    str := "";
    var bn: int := n;
    while bn > 0
      invariant bn >= 0 && ToDigits(bn) + Reverse(str) == ToDigits(n)
      decreases bn
    {
      var c := bn % 58;
      ghost var before := str;
      str := str + [Letter(c)];
      assert Reverse(str) == [Letter(c)] + Reverse(before);
      assert ToDigits(bn) == ToDigits(bn / 58) + [Letter(c)];
      bn := bn / 58;
    }
  }

  lemma ReverseOnes(digits: string, p: nat)
    ensures Reverse(digits + Ones(p)) == Ones(p) + Reverse(digits)
  {
  }

  lemma OneMore(digits: string, p: nat)
    ensures digits + Ones(p) + [Letter(0)] == digits + Ones(p + 1)
  {
  }

  /** Appends a character for each leading zero. */
  method AppendOnes(v: Bytes, digits: string) returns (str: string)
    ensures str == digits + Ones(LeadingZeros(v))
  {
    str := digits;
    var p := 0;
    while p < |v| && v[p] == 0
      invariant 0 <= p <= LeadingZeros(v) && str == digits + Ones(p)
    {
      OneMore(digits, p);
      str := str + [Letter(0)];
      p := p + 1;
    }
  }

  method EncodeBase58(v: Bytes) returns (str: string)
    ensures str == Encoded(v)
  {
    var vchTmp := Reverse([0] + v);
    var bn := SetVch(vchTmp);
    ReverseTwice([0] + v);
    LeadingZero(v);
    var digits := DigitsOf(bn);
    str := AppendOnes(v, digits);
    ReverseOnes(digits, LeadingZeros(v));
    str := Reverse(str);
  }

  method Skip(psz: string, start: nat) returns (p: nat)
    requires start <= |psz|
    ensures start <= p <= |psz| && psz[p..] == SkipSpace(psz[start..])
  {
    p := start;
    while p < |psz| && IsSpace(psz[p])
      invariant start <= p <= |psz| && SkipSpace(psz[p..]) == SkipSpace(psz[start..])
    {
      assert psz[p..][1..] == psz[p + 1..];
      p := p + 1;
    }
  }

  lemma ValueNext(b: string, p: nat)
    requires p < |b|
    ensures Value(b[..p + 1]) == 58 * Value(b[..p]) + Digit(b[p])
  {
    assert Front(b[..p + 1]) == b[..p] && Last(b[..p + 1]) == b[p];
  }

  /** The digits as a number, up to the first other character. */
  method ReadDigits(psz: string) returns (bn: nat, p: nat)
    ensures p == |Body(psz)| && bn == Value(Body(psz))
  {
    bn, p := 0, 0;
    while p < |psz| && IsDigit(psz[p])
      invariant 0 <= p <= |Body(psz)| && bn == Value(Body(psz)[..p])
    {
      ValueNext(Body(psz), p);
      assert psz[p] == Body(psz)[p];
      bn := bn * 58 + Digit(psz[p]);
      p := p + 1;
    }
    assert Body(psz)[..p] == Body(psz);
  }

  /** The number as a big-endian vector, from its little-endian one with a possible sign byte. */
  method Magnitude(bn: nat) returns (v: Bytes)
    ensures v == ToBytes(bn)
  {
    var vchTmp := GetVch(bn);
    VchOfNatural(bn);
    var n := |vchTmp|;
    if n >= 2 && vchTmp[n - 1] == 0 && vchTmp[n - 2] >= 0x80 {
      vchTmp := vchTmp[..n - 1];
    }
    v := Reverse(vchTmp);
    ReverseTwice(ToBytes(bn));
  }

  /** The little-endian vector of a natural number has a zero on top exactly if a sign bit would show otherwise. */
  lemma VchOfNatural(n: nat)
    ensures var b := ToBytes(n);
      && GetVch(n) == Reverse(b) + (if b != [] && b[0] >= 0x80 then [0] else [])
      && (b != [] ==> b[0] != 0 && Reverse(b)[|b| - 1] == b[0])
  {
    BytesRoundTrip(n);
    var b := ToBytes(n);
    if b != [] && b[0] >= 0x80 { assert Reverse([0] + b) == Reverse(b) + [0]; }
  }

  method CountLeadingOnes(psz: string) returns (n: nat)
    ensures n == LeadingOnes(psz)
  {
    n := 0;
    while n < |psz| && psz[n] == Letter(0)
      invariant 0 <= n <= LeadingOnes(psz)
    {
      n := n + 1;
    }
  }

  method DecodeBase58(str: string) returns (r: Option<Bytes>)
    ensures r == Parsed(str)
  {
    var start := Skip(str, 0);
    assert str[0..] == str;
    var psz := str[start..];
    var bn, p := ReadDigits(psz);
    var end := Skip(psz, p);
    if end < |psz| { return None; }
    var vchTmp := Magnitude(bn);
    var nLeadingZeros := CountLeadingOnes(psz);
    OnesOfBody(psz);
    r := Some(Zeros(nLeadingZeros) + vchTmp);
  }

  lemma {:induction false} OnesOfBody(s: string)
    ensures LeadingOnes(Body(s)) == LeadingOnes(s)
  {
    if s != "" && IsDigit(s[0]) {
      assert Body(s)[1..] == Body(s[1..]) && Body(s)[0] == s[0];
      OnesOfBody(s[1..]);
    } else if s != "" {
      DigitOfLetter(0);
    }
  }

  // ---------- with a checksum ----------

  /** The first four bytes of the hash of a vector. */
  type Check4 = Bytes -> (byte, byte, byte, byte)

  function CheckBytes(check: Check4, v: Bytes): (c: Bytes)
    ensures |c| == 4
  {
    [check(v).0, check(v).1, check(v).2, check(v).3]
  }

  method EncodeBase58Check(check: Check4, v: Bytes) returns (str: string)
    ensures str == Encoded(v + CheckBytes(check, v))
  {
    str := EncodeBase58(v + CheckBytes(check, v));
  }

  /** Accepts exactly the text of a vector followed by its checksum. */
  method DecodeBase58Check(check: Check4, str: string) returns (r: Option<Bytes>)
    ensures forall v :: r == Some(v) <==> Parsed(str) == Some(v + CheckBytes(check, v))
  {
    var decoded := DecodeBase58(str);
    if decoded.None? { return None; }
    var vch := decoded.value;
    if |vch| < 4 { return None; }
    var v, c := vch[..|vch| - 4], vch[|vch| - 4..];
    assert vch == v + c;
    if c != CheckBytes(check, v) {
      forall w ensures vch != w + CheckBytes(check, w) {
        assert vch == w + CheckBytes(check, w) ==> w == v && CheckBytes(check, w) == c;
      }
      return None;
    }
    forall w | vch == w + CheckBytes(check, w) ensures w == v { assert w == vch[..|vch| - 4]; }
    return Some(v);
  }

  /** What was encoded with a checksum is decoded again. */
  method RoundTripCheck(check: Check4, v: Bytes) returns (r: Option<Bytes>)
    ensures r == Some(v)
  {
    var str := EncodeBase58Check(check, v);
    DecodeEncode(v + CheckBytes(check, v));
    ParsedDigits(str);
    r := DecodeBase58Check(check, str);
  }
}
