/** Payloads packed into 32-byte words behind a two-byte length
    (crates/transaction-dispatcher/src/types.rs). */
module WordCodec {
  import opened Rlp

  const U16_MAX := 0xFFFF

  type Word = w: Bytes | |w| == 32 witness seq(32, _ => 0)

  /** For zero words the source panics: on an empty payload because the header has nowhere to go, and
      otherwise while it computes the limit for its error message, if overflow is checked. */
  datatype Outcome = Packed(words: seq<Word>) | TooLarge | Panicked

  datatype Unpacked = Payload(bytes: Bytes) | Invalid

  function Zeros(n: nat): Bytes {
    seq(n, _ => 0)
  }

  function Flatten(words: seq<Word>): (s: Bytes)
    ensures |s| == 32 * |words|
  {
    if words == [] then [] else Flatten(words[..|words| - 1]) + words[|words| - 1]
  }

  predicate Fits(n: nat, payload: Bytes) {
    |payload| + 2 <= 32 * n && |payload| <= U16_MAX
  }

  /** The packed bytes: a big-endian length, the payload, zero padding. */
  function Layout(n: nat, payload: Bytes): (s: Bytes)
    requires Fits(n, payload)
    ensures |s| == 32 * n
  {
    [(|payload| / 256) as byte, (|payload| % 256) as byte] + payload + Zeros(32 * n - 2 - |payload|)
  }

  /** The words of a buffer, 32 bytes at a time. */
  method Chunks(buf: array<byte>, n: nat) returns (words: seq<Word>)
    requires buf.Length == 32 * n
    ensures |words| == n && Flatten(words) == buf[..]
  {
    words := [];
    for i := 0 to n
      invariant |words| == i && Flatten(words) == buf[..32 * i]
    {
      ghost var before := words;
      var chunk: Word := buf[32 * i..32 * (i + 1)];
      words := words + [chunk];
      assert words[..i] == before;
      assert buf[..32 * (i + 1)] == buf[..32 * i] + chunk;
    }
    assert buf[..32 * n] == buf[..];
  }

  method Pack(n: nat, payload: Bytes, overflowChecks: bool) returns (r: Outcome)
    ensures r.Packed? <==> |payload| + 2 <= 32 * n && |payload| <= 65535
    ensures r.Panicked? <==> n == 0 && (payload == [] || overflowChecks)
    ensures r.Packed? ==> |r.words| == n && Flatten(r.words) == Layout(n, payload)
  {
    var cap := n * 32;
    if n == 0 {
      return if payload == [] || overflowChecks then Panicked else TooLarge;
    }
    if |payload| > cap - 2 || |payload| > U16_MAX {
      return TooLarge;
    }
    var buf := new byte[cap](_ => 0);
    buf[0], buf[1] := |payload| / 256, |payload| % 256;
    for i := 0 to |payload|
      invariant buf[0] == |payload| / 256 && buf[1] == |payload| % 256
      invariant forall j :: 0 <= j < i ==> buf[2 + j] == payload[j]
      invariant forall j :: 2 + i <= j < cap ==> buf[j] == 0
    {
      buf[2 + i] := payload[i];
    }
    assert buf[..] == Layout(n, payload);
    var words := Chunks(buf, n);
    r := Packed(words);
  }

  function U16(high: byte, low: byte): nat {
    256 * (high as int) + low as int
  }

  /** The payload that a flattened buffer stores. */
  function Stored(s: Bytes): Unpacked {
    if |s| < 2 then Invalid
    else
      var length := U16(s[0], s[1]);
      if length > |s| - 2 then Invalid else Payload(s[2..2 + length])
  }

  method Unpack(words: seq<Word>) returns (r: Unpacked)
    ensures r == Stored(Flatten(words))
  {
    var buf: Bytes := [];
    for i := 0 to |words|
      invariant buf == Flatten(words[..i])
    {
      buf := buf + words[i];
      assert words[..i + 1][..i] == words[..i];
    }
    assert words[..|words|] == words;
    if |buf| < 2 {
      return Invalid;
    }
    var length := U16(buf[0], buf[1]);
    if length > |buf| - 2 {
      return Invalid;
    }
    r := Payload(buf[2..2 + length]);
  }

  /** Every payload that fits comes back, whatever bytes it ends in. */
  lemma PackedReadsBack(n: nat, payload: Bytes)
    requires Fits(n, payload)
    ensures Stored(Layout(n, payload)) == Payload(payload)
  {
    var s := Layout(n, payload);
    assert U16(s[0], s[1]) == |payload|;
    assert s[2..2 + |payload|] == payload;
  }

  /** A stored payload always fits, and packing it again gives the same words exactly when the
      padding behind it is zero. */
  lemma StoredPacksBack(words: seq<Word>)
    requires Stored(Flatten(words)).Payload?
    ensures var s, p := Flatten(words), Stored(Flatten(words)).bytes;
            && Fits(|words|, p)
            && (Layout(|words|, p) == s <==> forall i :: 2 + |p| <= i < |s| ==> s[i] == 0)
  {
    var s, p := Flatten(words), Stored(Flatten(words)).bytes;
    var t := Layout(|words|, p);
    assert forall i :: 2 + |p| <= i < |s| ==> t[i] == 0;
    if forall i :: 2 + |p| <= i < |s| ==> s[i] == 0 {
      assert t[0] == s[0] && t[1] == s[1];
      forall i | 0 <= i < |s| ensures t[i] == s[i] {
        if 2 <= i < 2 + |p| {
          assert t[i] == p[i - 2];
        }
      }
    }
  }

  /** All-zero words hold the empty payload. */
  lemma ZeroWordsAreEmpty(n: nat)
    requires n > 0
    ensures Stored(Zeros(32 * n)) == Payload([])
  {
    assert Zeros(32 * n) == Layout(n, []);
    PackedReadsBack(n, []);
  }

  /** The layout in plain terms: the first two bytes are the length, high byte first, the payload
      follows, and zeros fill the rest. */
  lemma LayoutInPlainTerms(n: nat, payload: Bytes)
    requires |payload| + 2 <= 32 * n && |payload| <= 65535
    ensures var s := Layout(n, payload);
            && |s| == 32 * n && FromBigEndian(s[..2]) == |payload| && s[2..2 + |payload|] == payload
            && forall i :: 2 + |payload| <= i < |s| ==> s[i] == 0
  {
    var s := Layout(n, payload);
    assert s[..2][..1] == [s[0]] && [s[0]][..0] == [];
    assert FromBigEndian([s[0]]) == 256 * FromBigEndian([]) + s[0] as int;
    assert FromBigEndian(s[..2]) == 256 * FromBigEndian([s[0]]) + s[1] as int;
  }
}
