/** Recursive length prefix encoding of byte strings and lists of them (Appendix B of the Ethereum
    Yellow Paper), and the coin encodings of crates/check-fork/src/rlp.rs, with a decoder that
    shows both to be uniquely readable. */
module Rlp {
  import opened Common

  type byte = x: int | 0 <= x < 256
  type Bytes = seq<byte>

  /** A length fits a 64-bit `usize`. */
  const LENGTH_LIMIT: nat := 0x1_0000_0000_0000_0000
  const U256_MAX: nat := 0xFFFF_FFFF_FFFF_FFFF_FFFF_FFFF_FFFF_FFFF_FFFF_FFFF_FFFF_FFFF_FFFF_FFFF_FFFF_FFFF

  // ---- numbers as bytes ----

  /** The big-endian bytes of `n` without leading zeroes; zero is the empty string. */
  function BigEndian(n: nat): Bytes {
    if n == 0 then [] else BigEndian(n / 256) + [(n % 256) as byte]
  }

  function FromBigEndian(s: Bytes): nat {
    if s == [] then 0 else 256 * FromBigEndian(s[..|s| - 1]) + s[|s| - 1]
  }

  lemma {:induction false} BigEndianRoundTrip(n: nat)
    ensures FromBigEndian(BigEndian(n)) == n
    ensures n > 0 ==> BigEndian(n) != [] && BigEndian(n)[0] != 0
    decreases n
  {
    if n > 0 {
      BigEndianRoundTrip(n / 256);
      assert BigEndian(n)[..|BigEndian(n)| - 1] == BigEndian(n / 256);
    }
  }

  function Pow256(k: nat): (p: nat)
    ensures p > 0
  {
    if k == 0 then 1 else 256 * Pow256(k - 1)
  }

  lemma {:induction false} BigEndianWidth(n: nat, k: nat)
    requires n < Pow256(k)
    ensures |BigEndian(n)| <= k
    decreases k
  {
    if n > 0 {
      BigEndianWidth(n / 256, k - 1);
    }
  }

  lemma Narrow(n: nat)
    requires n <= U64_MAX
    ensures |BigEndian(n)| <= 8
  {
    assert Pow256(8) == LENGTH_LIMIT;
    BigEndianWidth(n, 8);
  }

  lemma Wide(n: nat)
    requires n <= U256_MAX
    ensures n < Pow256(32) && |BigEndian(n)| <= 32
  {
    assert Pow256(8) == LENGTH_LIMIT;
    Pow256Twice(8);
    Pow256Twice(16);
    BigEndianWidth(n, 32);
  }

  lemma Pow256Twice(k: nat)
    ensures Pow256(2 * k) == Pow256(k) * Pow256(k)
  {
    Pow256Adds(k, k);
  }

  lemma {:induction false} Pow256Adds(j: nat, k: nat)
    ensures Pow256(j + k) == Pow256(j) * Pow256(k)
    decreases j
  {
    if j > 0 {
      Pow256Adds(j - 1, k);
      assert 256 * (Pow256(j - 1) * Pow256(k)) == (256 * Pow256(j - 1)) * Pow256(k);
    }
  }

  /** A leading zero does not change the number. */
  lemma {:induction false} LeadingZero(s: Bytes)
    ensures FromBigEndian([0] + s) == FromBigEndian(s)
    decreases |s|
  {
    if s == [] {
      assert [0] + s == [0] && [0][..0] == [];
    } else {
      var t := [0] + s;
      assert t[..|t| - 1] == [0] + s[..|s| - 1];
      LeadingZero(s[..|s| - 1]);
    }
  }

  /** `to_big_endian` of a number of a fixed width. */
  function FixedBigEndian(n: nat, width: nat): (r: Bytes)
    ensures |r| == width
  {
    if width == 0 then [] else FixedBigEndian(n / 256, width - 1) + [(n % 256) as byte]
  }

  lemma {:induction false} FixedIsPaddedBigEndian(n: nat, width: nat)
    requires n < Pow256(width)
    ensures |BigEndian(n)| <= width
    ensures FixedBigEndian(n, width) == seq(width - |BigEndian(n)|, i => 0 as byte) + BigEndian(n)
    decreases width
  {
    BigEndianWidth(n, width);
    if width > 0 {
      FixedIsPaddedBigEndian(n / 256, width - 1);
      if n == 0 {
        assert FixedBigEndian(0, width) == seq(width, i => 0 as byte);
      }
    }
  }

  /** `u256_be_trimmed`: the fixed-width bytes from the first one that is not zero. */
  method BeTrimmed(value: nat) returns (r: Bytes)
    requires value <= U256_MAX
    ensures r == BigEndian(value)
  {
    Wide(value);
    var buf := FixedBigEndian(value, 32);
    FixedIsPaddedBigEndian(value, 32);
    BigEndianRoundTrip(value);
    var pad := 32 - |BigEndian(value)|;
    var first := 0;
    while first < 32 && buf[first] == 0
      invariant 0 <= first <= pad
    {
      first := first + 1;
    }
    assert first == pad;
    r := buf[first..];
  }

  // ---- encoding ----

  function LengthPrefix(offset: nat, n: nat): (r: Bytes)
    requires offset == 0x80 || offset == 0xc0
    requires n < LENGTH_LIMIT
    ensures 1 <= |r| <= 9
  {
    if n < 56 then [(offset + n) as byte]
    else
      Narrow(n);
      [(offset + 55 + |BigEndian(n)|) as byte] + BigEndian(n)
  }

  /** `alloy_rlp::encode` of a byte string. An integer is encoded as its `BigEndian` string. */
  function EncodeString(s: Bytes): (r: Bytes)
    requires |s| < LENGTH_LIMIT
    ensures 1 <= |r| <= |s| + 9
  {
    if |s| == 1 && s[0] < 0x80 then s else LengthPrefix(0x80, |s|) + s
  }

  predicate Short(ss: seq<Bytes>) {
    forall i :: 0 <= i < |ss| ==> |ss[i]| < LENGTH_LIMIT
  }

  function EncodeAll(ss: seq<Bytes>): Bytes
    requires Short(ss)
  {
    if ss == [] then [] else EncodeString(ss[0]) + EncodeAll(ss[1..])
  }

  /** The encoded list of the given byte strings. */
  function EncodeStrings(ss: seq<Bytes>): Bytes
    requires Short(ss) && |EncodeAll(ss)| < LENGTH_LIMIT
  {
    LengthPrefix(0xc0, |EncodeAll(ss)|) + EncodeAll(ss)
  }

  // ---- decoding ----

  datatype Parsed = Bad | Parsed(payload: Bytes, rest: Bytes)

  /** Reads a length prefix of the given kind, and splits off that many bytes. */
  function ReadPrefixed(offset: nat, s: Bytes): Parsed
    requires s != []
  {
    if offset <= s[0] < offset + 56 then Split(s[1..], s[0] - offset)
    else if offset + 56 <= s[0] < offset + 64 then
      var width := s[0] - offset - 55;
      if |s| < 1 + width then Bad else Split(s[1 + width..], FromBigEndian(s[1..1 + width]))
    else Bad
  }

  function Split(s: Bytes, n: nat): Parsed {
    if |s| < n then Bad else Parsed(s[..n], s[n..])
  }

  function ReadString(s: Bytes): Parsed {
    if s == [] then Bad
    else if s[0] < 0x80 then Parsed(s[..1], s[1..])
    else ReadPrefixed(0x80, s)
  }

  datatype Strings = NotStrings | Strings(all: seq<Bytes>)

  function ReadAll(s: Bytes): Strings
    decreases |s|
  {
    if s == [] then Strings([])
    else
      var p := ReadString(s);
      if p.Bad? || |p.rest| >= |s| then NotStrings
      else
        match ReadAll(p.rest)
        case NotStrings => NotStrings
        case Strings(all) => Strings([p.payload] + all)
  }

  function ReadStrings(s: Bytes): Strings {
    if s == [] then NotStrings
    else
      var p := ReadPrefixed(0xc0, s);
      if p.Bad? || p.rest != [] then NotStrings else ReadAll(p.payload)
  }

  lemma ReadLengthPrefix(offset: nat, s: Bytes, rest: Bytes)
    requires offset == 0x80 || offset == 0xc0
    requires |s| < LENGTH_LIMIT
    ensures ReadPrefixed(offset, LengthPrefix(offset, |s|) + s + rest) == Parsed(s, rest)
  {
    hide BigEndian, FromBigEndian;
    var head := LengthPrefix(offset, |s|);
    var t := head + s + rest;
    assert t[|head|..] == s + rest;
    assert (s + rest)[..|s|] == s && (s + rest)[|s|..] == rest;
    if |s| >= 56 {
      var len := BigEndian(|s|);
      Narrow(|s|);
      BigEndianRoundTrip(|s|);
      assert t[1..1 + |len|] == len;
    }
  }

  lemma ReadEncodedString(s: Bytes, rest: Bytes)
    requires |s| < LENGTH_LIMIT
    ensures ReadString(EncodeString(s) + rest) == Parsed(s, rest)
  {
    if !(|s| == 1 && s[0] < 0x80) {
      ReadLengthPrefix(0x80, s, rest);
    }
  }

  lemma {:induction false} ReadAllEncoded(ss: seq<Bytes>)
    requires Short(ss)
    ensures ReadAll(EncodeAll(ss)) == Strings(ss)
    decreases |ss|
  {
    if ss != [] {
      ReadEncodedString(ss[0], EncodeAll(ss[1..]));
      ReadAllEncoded(ss[1..]);
      assert [ss[0]] + ss[1..] == ss;
    }
  }

  /** The encoding of a list of strings can be read back, so it determines the strings. */
  lemma ReadEncodedStrings(ss: seq<Bytes>)
    requires Short(ss) && |EncodeAll(ss)| < LENGTH_LIMIT
    ensures ReadStrings(EncodeStrings(ss)) == Strings(ss)
  {
    ReadLengthPrefix(0xc0, EncodeAll(ss), []);
    assert EncodeStrings(ss) + [] == EncodeStrings(ss);
    ReadAllEncoded(ss);
  }

  /** `encode_list`, which is handed fields that are already encoded. */
  method EncodeList(fields: seq<Bytes>, ghost ss: seq<Bytes>) returns (out: Bytes)
    requires Short(ss) && |EncodeAll(ss)| < LENGTH_LIMIT
    requires |fields| == |ss| && forall i :: 0 <= i < |ss| ==> fields[i] == EncodeString(ss[i])
    ensures out == EncodeStrings(ss)
  {
    hide LengthPrefix, EncodeString;
    var payloadLength := 0;
    ghost var tail := ss;
    for i := 0 to |fields|
      invariant tail == ss[i..]
      invariant payloadLength + |EncodeAll(tail)| == |EncodeAll(ss)|
    {
      payloadLength := payloadLength + |fields[i]|;
      tail := tail[1..];
    }
    out := LengthPrefix(0xc0, payloadLength);
    tail := ss;
    for i := 0 to |fields|
      invariant tail == ss[i..]
      invariant out + EncodeAll(tail) == EncodeStrings(ss)
    {
      out := out + fields[i];
      tail := tail[1..];
    }
  }

  // ---- coin values ----

  /** The bytes of `encode_signed_coin_value_as_byte`: zero is the byte zero, and a value whose
      first byte has its top bit set gets a zero in front. */
  function SignedBytes(value: nat): Bytes {
    if value == 0 then [0]
    else if BigEndian(value) != [] && BigEndian(value)[0] >= 0x80 then [0] + BigEndian(value)
    else BigEndian(value)
  }

  lemma SignedRoundTrip(value: nat)
    ensures FromBigEndian(SignedBytes(value)) == value
  {
    BigEndianRoundTrip(value);
    LeadingZero(BigEndian(value));
    assert FromBigEndian([0]) == 256 * FromBigEndian([0][..0]) == 0;
  }

  /** `encode_coin_value`. */
  method EncodeCoinValue(value: nat) returns (r: Bytes)
    requires value <= U256_MAX
    ensures |BigEndian(value)| <= 32 && r == EncodeString(BigEndian(value))
    ensures ReadString(r).Parsed? && FromBigEndian(ReadString(r).payload) == value
  {
    var bytes: Bytes := [];
    if value != 0 {
      bytes := BeTrimmed(value);
    }
    Wide(value);
    BigEndianRoundTrip(value);
    r := EncodeString(bytes);
    ReadEncodedString(bytes, []);
    assert r + [] == r;
  }

  /** `encode_signed_coin_value_as_byte`. */
  method EncodeSignedCoinValueAsByte(value: nat) returns (r: Bytes)
    requires value <= U256_MAX
    ensures |SignedBytes(value)| <= 33 && r == EncodeString(SignedBytes(value))
    ensures ReadString(r).Parsed? && FromBigEndian(ReadString(r).payload) == value
  {
    Wide(value);
    var bytes: Bytes := [0];
    if value != 0 {
      bytes := BeTrimmed(value);
      if bytes != [] && bytes[0] >= 0x80 {
        bytes := [0] + bytes;
      }
    }
    r := EncodeString(bytes);
    SignedRoundTrip(value);
    ReadEncodedString(bytes, []);
    assert r + [] == r;
  }

  // ---- the forms themselves ----

  /** The forms of Appendix B of the Yellow Paper: a byte below 0x80 stands for itself, up to 55 bytes
      follow one byte that counts them from 0x80, and more follow their length and a byte that
      counts the bytes of that from 0xb7; for lists the counts start at 0xc0 and 0xf7. */
  lemma PrefixForms(s: Bytes, ss: seq<Bytes>)
    requires |s| < LENGTH_LIMIT && Short(ss) && |EncodeAll(ss)| < LENGTH_LIMIT
    ensures |s| == 1 && s[0] < 0x80 ==> EncodeString(s) == s
    ensures |s| <= 55 && !(|s| == 1 && s[0] < 0x80) ==> EncodeString(s) == [(0x80 + |s|) as byte] + s
    ensures |s| > 55 ==> exists width: Bytes ::
      FromBigEndian(width) == |s| && 0 < |width| <= 8 && width[0] != 0 &&
      EncodeString(s) == [(0xb7 + |width|) as byte] + width + s
    ensures |EncodeAll(ss)| <= 55 ==> EncodeStrings(ss) == [(0xc0 + |EncodeAll(ss)|) as byte] + EncodeAll(ss)
    ensures |EncodeAll(ss)| > 55 ==> exists width: Bytes ::
      FromBigEndian(width) == |EncodeAll(ss)| && 0 < |width| <= 8 && width[0] != 0 &&
      EncodeStrings(ss) == [(0xf7 + |width|) as byte] + width + EncodeAll(ss)
  {
    hide BigEndian, FromBigEndian, EncodeAll;
    BigEndianRoundTrip(|s|);
    BigEndianRoundTrip(|EncodeAll(ss)|);
    Narrow(|s|);
    Narrow(|EncodeAll(ss)|);
    if |s| > 55 {
      var width := BigEndian(|s|);
      assert EncodeString(s) == [(0xb7 + |width|) as byte] + width + s;
    }
    if |EncodeAll(ss)| > 55 {
      var width := BigEndian(|EncodeAll(ss)|);
      assert EncodeStrings(ss) == [(0xf7 + |width|) as byte] + width + EncodeAll(ss);
    }
  }

  lemma {:induction false} FromBigEndianBound(s: Bytes)
    ensures FromBigEndian(s) < Pow256(|s|)
    decreases |s|
  {
    if s != [] {
      FromBigEndianBound(s[..|s| - 1]);
    }
  }

  /** No shorter bytes stand for a number. */
  lemma BigEndianIsShortest(s: Bytes)
    ensures |BigEndian(FromBigEndian(s))| <= |s|
  {
    FromBigEndianBound(s);
    BigEndianWidth(FromBigEndian(s), |s|);
  }

  lemma PrefixIsShortest(offset: nat, t: Bytes)
    requires (offset == 0x80 || offset == 0xc0) && t != []
    ensures var p := ReadPrefixed(offset, t);
            p.Parsed? && |p.payload| < LENGTH_LIMIT ==>
              |LengthPrefix(offset, |p.payload|)| + |p.payload| + |p.rest| <= |t|
  {
    hide BigEndian, FromBigEndian;
    var p := ReadPrefixed(offset, t);
    if p.Parsed? && offset + 56 <= t[0] {
      var width := t[0] - offset - 55;
      BigEndianIsShortest(t[1..1 + width]);
    }
  }

  /** The encoding of a string is the shortest one that reads back to it. */
  lemma StringIsShortest(t: Bytes)
    ensures var p := ReadString(t);
            p.Parsed? && |p.payload| < LENGTH_LIMIT ==> |EncodeString(p.payload)| + |p.rest| <= |t|
  {
    if t != [] && t[0] >= 0x80 {
      PrefixIsShortest(0x80, t);
      hide ReadPrefixed, BigEndian;
    }
  }

  lemma {:induction false} AllIsShortest(t: Bytes)
    ensures ReadAll(t).Strings? && Short(ReadAll(t).all) ==> |EncodeAll(ReadAll(t).all)| <= |t|
    decreases |t|
  {
    hide ReadString, EncodeString;
    if t != [] && ReadAll(t).Strings? && Short(ReadAll(t).all) {
      var p, all := ReadString(t), ReadAll(t).all;
      assert all[0] == p.payload && all[1..] == ReadAll(p.rest).all;
      StringIsShortest(t);
      AllIsShortest(p.rest);
    }
  }

  /** And so is the encoding of a list. */
  lemma ListIsShortest(t: Bytes)
    requires ReadStrings(t).Strings? && Short(ReadStrings(t).all) && |EncodeAll(ReadStrings(t).all)| < LENGTH_LIMIT
    requires |t| < LENGTH_LIMIT
    ensures |EncodeStrings(ReadStrings(t).all)| <= |t|
  {
    hide ReadAll, EncodeAll, BigEndian, FromBigEndian;
    var p := ReadPrefixed(0xc0, t);
    PrefixIsShortest(0xc0, t);
    AllIsShortest(p.payload);
    PrefixGrows(|EncodeAll(ReadAll(p.payload).all)|, |p.payload|);
  }

  lemma PrefixGrows(m: nat, n: nat)
    requires m <= n < LENGTH_LIMIT
    ensures |LengthPrefix(0xc0, m)| <= |LengthPrefix(0xc0, n)|
  {
    hide FromBigEndian;
    BigEndianGrows(m, n);
  }

  lemma {:induction false} BigEndianGrows(m: nat, n: nat)
    requires m <= n
    ensures |BigEndian(m)| <= |BigEndian(n)|
    decreases n
  {
    if m > 0 {
      BigEndianGrows(m / 256, n / 256);
    }
  }

  /** The signed bytes of a coin value: never empty, never read as negative, and no shorter. */
  lemma SignedForm(value: nat)
    ensures var s := SignedBytes(value);
            && s != [] && s[0] < 0x80 && FromBigEndian(s) == value
            && (|s| > 1 && s[0] == 0 ==> s[1] >= 0x80)
  {
    SignedRoundTrip(value);
    BigEndianRoundTrip(value);
  }
}
