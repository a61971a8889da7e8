/** The Rootstock block header and the preimage of its hash (crates/check-fork/src/block_header.rs).
    The hash function is a parameter; what is assumed of it is that it returns 32 bytes and that it
    has no collision among the strings at hand. */
module BlockHeader {
  import opened Common
  import opened Rlp

  datatype Result<+T> = Ok(value: T) | Err(message: string)

  const V1: nat := 1
  const V2: nat := 2
  const BASE_EVENT_MAX_SIZE: nat := 128
  const MAX_RSK_PTE_EDGES: nat := 0
  const BLOOM_SIZE: nat := 256
  /** More than any vector in memory holds; eighteen such fields still encode within `usize`. */
  const VECTOR_LIMIT: nat := 0x0400_0000_0000_0000

  datatype Header = Header(
    number: nat,
    hash: Bytes,
    parent: Bytes,
    difficulty: nat,
    timestamp: nat,
    unclesHash: Bytes,
    coinbase: Bytes,
    stateRoot: Bytes,
    txTrieRoot: Bytes,
    receiptTrieRoot: Bytes,
    extensionData: Bytes,
    gasLimit: Bytes,
    gasUsed: nat,
    extraData: Bytes,
    paidFees: nat,
    minimumGasPrice: Option<nat>,
    uncles: seq<Bytes>,
    pteEdges: Option<seq<nat>>,
    version: nat,
    baseEvent: Option<Bytes>,
    mergedMiningHeader: Bytes)

  /** The widths of the fields' types, and vectors that fit in memory. */
  ghost predicate WellTyped(h: Header) {
    && |h.hash| == 32 && |h.parent| == 32 && |h.unclesHash| == 32 && |h.coinbase| == 20
    && |h.stateRoot| == 32 && |h.txTrieRoot| == 32 && |h.receiptTrieRoot| == 32
    && h.number <= U64_MAX && h.timestamp <= U64_MAX && h.gasUsed <= U64_MAX && |h.uncles| <= U64_MAX
    && h.difficulty <= U256_MAX && h.paidFees <= U256_MAX
    && (h.minimumGasPrice.Some? ==> h.minimumGasPrice.value <= U256_MAX)
    && |h.gasLimit| < VECTOR_LIMIT && |h.extraData| < VECTOR_LIMIT && |h.mergedMiningHeader| < VECTOR_LIMIT
  }

  type Digest = Bytes -> Bytes

  ghost predicate IsDigest(keccak: Digest) {
    forall s :: |keccak(s)| == 32
  }

  function EventBytes(h: Header): Bytes {
    if h.baseEvent.Some? then h.baseEvent.value else []
  }

  /** `encoded_rsk_pte_edges`: with a limit of zero bytes, only an empty list of edges is encoded,
      and it is encoded as the empty string. */
  function EdgeStrings(h: Header): Result<seq<Bytes>> {
    if h.pteEdges.None? then Ok([])
    else if 2 * |h.pteEdges.value| > MAX_RSK_PTE_EDGES then Err("rsk_pte_edges exceeds maximum allowed length")
    else Ok([[]])
  }

  /** The strings of the extension that is hashed, for a header with compressed extension data. */
  function ExtensionStrings(keccak: Digest, h: Header, events: seq<Bytes>): Result<seq<Bytes>> {
    if |h.extensionData| != BLOOM_SIZE then Err("unsupported extension_data format")
    else
      match EdgeStrings(h)
      case Err(e) => Err(e)
      case Ok(edges) => Ok([keccak(h.extensionData)] + events + edges)
  }

  function Events(h: Header): Result<seq<Bytes>> {
    if h.version == V1 then Ok([])
    else if |EventBytes(h)| > BASE_EVENT_MAX_SIZE then Err("base_event exceeds maximum allowed length")
    else Ok([EventBytes(h)])
  }

  predicate Compressed(h: Header) {
    h.version == V2 || (h.version == V1 && h.pteEdges.Some?)
  }

  /** What is hashed into the extension hash of a compressed header. */
  function HashedStrings(keccak: Digest, h: Header): Result<seq<Bytes>> {
    match Events(h)
    case Err(e) => Err(e)
    case Ok(events) => ExtensionStrings(keccak, h, events)
  }

  lemma SmallStrings(ss: seq<Bytes>)
    requires |ss| <= 3 && forall i :: 0 <= i < |ss| ==> |ss[i]| <= BLOOM_SIZE
    ensures Short(ss) && |EncodeAll(ss)| <= 3 * (BLOOM_SIZE + 9)
  {
    if ss != [] {
      assert |EncodeAll(ss)| == |EncodeString(ss[0])| + |EncodeAll(ss[1..])|;
      if |ss| > 1 {
        assert |EncodeAll(ss[1..])| == |EncodeString(ss[1..][0])| + |EncodeAll(ss[1..][1..])|;
        if |ss| > 2 {
          assert |EncodeAll(ss[1..][1..])| == |EncodeString(ss[1..][1..][0])| + |EncodeAll(ss[1..][1..][1..])|;
        }
      }
    }
  }

  lemma HashedStringsSmall(keccak: Digest, h: Header)
    requires IsDigest(keccak) && HashedStrings(keccak, h).Ok?
    ensures var ss := HashedStrings(keccak, h).value;
            |ss| <= 3 && (forall i :: 0 <= i < |ss| ==> |ss[i]| <= BLOOM_SIZE)
            && Short(ss) && |EncodeAll(ss)| < LENGTH_LIMIT
  {
    SmallStrings(HashedStrings(keccak, h).value);
  }

  /** The extension field of the header list. */
  function ExtensionField(keccak: Digest, h: Header): (r: Result<Bytes>)
    requires IsDigest(keccak)
    ensures r.Ok? ==> |r.value| <= BLOOM_SIZE
  {
    if Compressed(h) then
      match HashedStrings(keccak, h)
      case Err(e) => Err(e)
      case Ok(ss) =>
        HashedStringsSmall(keccak, h);
        CompressedFieldSize([h.version as byte], keccak(EncodeStrings(ss)));
        Ok(EncodeStrings([[h.version as byte], keccak(EncodeStrings(ss))]))
    else if h.version != V1 then Err("unsupported RSK block header version")
    else if |h.extensionData| != BLOOM_SIZE then Err("unsupported extension_data format")
    else Ok(h.extensionData)
  }

  lemma CompressedFieldSize(kind: Bytes, digest: Bytes)
    requires |kind| == 1 && kind[0] < 0x80 && |digest| == 32
    ensures Short([kind, digest]) && |EncodeAll([kind, digest])| == 34
    ensures |EncodeStrings([kind, digest])| == 35
  {
    assert [kind, digest][1..] == [digest] && [digest][1..] == [];
    assert EncodeAll([digest]) == EncodeString(digest) + EncodeAll([]);
    assert EncodeAll([kind, digest]) == EncodeString(kind) + EncodeAll([digest]);
  }

  /** The byte strings of the header list, in their order. */
  function HeaderStrings(h: Header, extension: Bytes, price: nat): seq<Bytes> {
    [ h.parent, h.unclesHash, h.coinbase, h.stateRoot, h.txTrieRoot, h.receiptTrieRoot,
      extension, BigEndian(h.difficulty), BigEndian(h.number), h.gasLimit,
      BigEndian(h.gasUsed), BigEndian(h.timestamp), h.extraData, BigEndian(h.paidFees),
      SignedBytes(price), BigEndian(|h.uncles|), [], h.mergedMiningHeader ]
  }

  lemma {:induction false} EncodeAllBound(ss: seq<Bytes>, limit: nat)
    requires forall i :: 0 <= i < |ss| ==> |ss[i]| <= limit
    requires limit < LENGTH_LIMIT
    ensures Short(ss) && |EncodeAll(ss)| <= |ss| * (limit + 9)
    decreases |ss|
  {
    if ss != [] {
      EncodeAllBound(ss[1..], limit);
      assert |EncodeAll(ss)| == |EncodeString(ss[0])| + |EncodeAll(ss[1..])|;
      assert |ss| * (limit + 9) == (limit + 9) + (|ss| - 1) * (limit + 9);
    }
  }

  lemma HeaderStringSizes(h: Header, extension: Bytes, price: nat, ss: seq<Bytes>)
    requires WellTyped(h) && |extension| <= BLOOM_SIZE && price <= U256_MAX
    requires ss == HeaderStrings(h, extension, price)
    ensures |ss| == 18 && forall i :: 0 <= i < |ss| ==> |ss[i]| <= VECTOR_LIMIT
  {
    hide BigEndian;
    Wide(h.difficulty);
    Wide(h.paidFees);
    Wide(price);
    assert |SignedBytes(price)| <= 33;
    Narrow(h.number);
    Narrow(h.gasUsed);
    Narrow(h.timestamp);
    Narrow(|h.uncles|);
  }

  lemma HeaderStringsFit(h: Header, extension: Bytes, price: nat)
    requires WellTyped(h) && |extension| <= BLOOM_SIZE && price <= U256_MAX
    ensures Short(HeaderStrings(h, extension, price))
    ensures |EncodeAll(HeaderStrings(h, extension, price))| < LENGTH_LIMIT
  {
    var ss := HeaderStrings(h, extension, price);
    HeaderStringSizes(h, extension, price, ss);
    EncodeAllBound(ss, VECTOR_LIMIT);
  }

  function EncodeRlp(keccak: Digest, h: Header): Result<Bytes>
    requires IsDigest(keccak) && WellTyped(h)
  {
    if h.minimumGasPrice.None? then Err("minimum_gas_price is None")
    else
      match ExtensionField(keccak, h)
      case Err(e) => Err(e)
      case Ok(extension) =>
        HeaderStringsFit(h, extension, h.minimumGasPrice.value);
        Ok(EncodeStrings(HeaderStrings(h, extension, h.minimumGasPrice.value)))
  }

  function ValidateBlockHash(keccak: Digest, h: Header): Result<()>
    requires IsDigest(keccak) && WellTyped(h)
  {
    if h.baseEvent.Some? && h.version != V2 then Err("Block with base event must use header version 2")
    else
      match EncodeRlp(keccak, h)
      case Err(e) => Err(e)
      case Ok(preimage) =>
        if h.hash != keccak(preimage) then Err("Block header hash is not matching") else Ok(())
  }

  // ---- what a hash commits to ----

  /** Everything of a header that goes into its hash: all of it but the hash itself and the hashes
      of the uncles, of which only the number counts; no base event and an empty one are the same. */
  function Committed(h: Header): Header {
    h.(hash := [], uncles := seq(|h.uncles|, i => []), baseEvent := Some(EventBytes(h)))
  }

  /** The strings that are hashed for a header. */
  function Preimages(keccak: Digest, h: Header): set<Bytes>
    requires IsDigest(keccak) && WellTyped(h)
  {
    (if EncodeRlp(keccak, h).Ok? then {EncodeRlp(keccak, h).value} else {}) +
    (if Compressed(h) && HashedStrings(keccak, h).Ok? then
       HashedStringsSmall(keccak, h);
       {h.extensionData, EncodeStrings(HashedStrings(keccak, h).value)}
     else {})
  }

  ghost predicate NoCollision(keccak: Digest, strings: set<Bytes>) {
    forall a, b :: a in strings && b in strings && keccak(a) == keccak(b) ==> a == b
  }

  lemma EncodeStringsInjective(ss: seq<Bytes>, ts: seq<Bytes>)
    requires Short(ss) && |EncodeAll(ss)| < LENGTH_LIMIT
    requires Short(ts) && |EncodeAll(ts)| < LENGTH_LIMIT
    requires EncodeStrings(ss) == EncodeStrings(ts)
    ensures ss == ts
  {
    ReadEncodedStrings(ss);
    ReadEncodedStrings(ts);
  }

  /** Equal header lists have equal fields. */
  lemma SameStringsSameFields(h: Header, x: Bytes, p: nat, g: Header, y: Bytes, q: nat)
    requires HeaderStrings(h, x, p) == HeaderStrings(g, y, q)
    ensures x == y && p == q
    ensures h.parent == g.parent && h.unclesHash == g.unclesHash && h.coinbase == g.coinbase
    ensures h.stateRoot == g.stateRoot && h.txTrieRoot == g.txTrieRoot && h.receiptTrieRoot == g.receiptTrieRoot
    ensures h.difficulty == g.difficulty && h.number == g.number && h.gasLimit == g.gasLimit
    ensures h.gasUsed == g.gasUsed && h.timestamp == g.timestamp && h.extraData == g.extraData
    ensures h.paidFees == g.paidFees && |h.uncles| == |g.uncles|
    ensures h.mergedMiningHeader == g.mergedMiningHeader
  {
    var s, t := HeaderStrings(h, x, p), HeaderStrings(g, y, q);
    assert s[0] == t[0] && s[1] == t[1] && s[2] == t[2] && s[3] == t[3] && s[4] == t[4] && s[5] == t[5];
    assert s[6] == t[6] && s[9] == t[9] && s[12] == t[12] && s[17] == t[17];
    SameNumber(h.difficulty, g.difficulty, s[7], t[7]);
    SameNumber(h.number, g.number, s[8], t[8]);
    SameNumber(h.gasUsed, g.gasUsed, s[10], t[10]);
    SameNumber(h.timestamp, g.timestamp, s[11], t[11]);
    SameNumber(h.paidFees, g.paidFees, s[13], t[13]);
    SameNumber(|h.uncles|, |g.uncles|, s[15], t[15]);
    assert s[14] == t[14];
    SignedRoundTrip(p);
    SignedRoundTrip(q);
  }

  lemma SameNumber(m: nat, n: nat, s: Bytes, t: Bytes)
    requires s == BigEndian(m) && t == BigEndian(n) && s == t
    ensures m == n
  {
    BigEndianRoundTrip(m);
    BigEndianRoundTrip(n);
  }

  /** Equal strings hashed into the extension hash, under equal versions. */
  lemma SameHashedStrings(keccak: Digest, h: Header, g: Header)
    requires IsDigest(keccak) && Compressed(h) && Compressed(g) && h.version == g.version
    requires h.baseEvent.Some? ==> h.version == V2
    requires g.baseEvent.Some? ==> g.version == V2
    requires HashedStrings(keccak, h).Ok? && HashedStrings(keccak, h) == HashedStrings(keccak, g)
    ensures keccak(h.extensionData) == keccak(g.extensionData)
    ensures h.pteEdges == g.pteEdges && EventBytes(h) == EventBytes(g)
  {
    var ss, ts := HashedStrings(keccak, h).value, HashedStrings(keccak, g).value;
    assert ss[0] == ts[0];
    assert h.pteEdges.Some? ==> h.pteEdges.value == [];
    assert g.pteEdges.Some? ==> g.pteEdges.value == [];
    if h.version == V2 {
      assert ss[1] == ts[1];
    }
  }

  /** The extension field determines the version, the logs bloom, the edges and the base event: a
      raw bloom is longer than a compressed field, and a compressed one names its version. */
  lemma SameExtension(keccak: Digest, h: Header, g: Header)
    requires IsDigest(keccak) && WellTyped(h) && WellTyped(g)
    requires h.baseEvent.Some? ==> h.version == V2
    requires g.baseEvent.Some? ==> g.version == V2
    requires NoCollision(keccak, Preimages(keccak, h) + Preimages(keccak, g))
    requires ExtensionField(keccak, h).Ok? && ExtensionField(keccak, h) == ExtensionField(keccak, g)
    ensures h.version == g.version && h.extensionData == g.extensionData
    ensures h.pteEdges == g.pteEdges && EventBytes(h) == EventBytes(g)
  {
    CompressedHasSize35(keccak, h);
    CompressedHasSize35(keccak, g);
    if Compressed(h) && Compressed(g) {
      HashedStringsSmall(keccak, h);
      HashedStringsSmall(keccak, g);
      var a, b := EncodeStrings(HashedStrings(keccak, h).value), EncodeStrings(HashedStrings(keccak, g).value);
      SameCompressedField([h.version as byte], keccak(a), [g.version as byte], keccak(b));
      EncodeStringsInjective(HashedStrings(keccak, h).value, HashedStrings(keccak, g).value);
      SameHashedStrings(keccak, h, g);
    }
  }

  lemma CompressedHasSize35(keccak: Digest, h: Header)
    requires IsDigest(keccak) && ExtensionField(keccak, h).Ok?
    ensures |ExtensionField(keccak, h).value| == if Compressed(h) then 35 else BLOOM_SIZE
  {
    if Compressed(h) {
      HashedStringsSmall(keccak, h);
      CompressedFieldSize([h.version as byte], keccak(EncodeStrings(HashedStrings(keccak, h).value)));
    }
  }

  lemma SameCompressedField(kind: Bytes, digest: Bytes, kind': Bytes, digest': Bytes)
    requires |kind| == 1 && kind[0] < 0x80 && |digest| == 32
    requires |kind'| == 1 && kind'[0] < 0x80 && |digest'| == 32
    requires Short([kind, digest]) && |EncodeAll([kind, digest])| < LENGTH_LIMIT
    requires Short([kind', digest']) && |EncodeAll([kind', digest'])| < LENGTH_LIMIT
    requires EncodeStrings([kind, digest]) == EncodeStrings([kind', digest'])
    ensures kind[0] == kind'[0] && digest == digest'
  {
    EncodeStringsInjective([kind, digest], [kind', digest']);
    assert [kind, digest][0] == [kind', digest'][0] && [kind, digest][1] == [kind', digest'][1];
  }

  /** For two headers that pass `validate_block_hash`, and no collision among the strings hashed
      for them, equal hashes mean equal committed contents, and the other way round. */
  lemma HashBindsHeader(keccak: Digest, h: Header, g: Header)
    requires IsDigest(keccak) && WellTyped(h) && WellTyped(g)
    requires ValidateBlockHash(keccak, h).Ok? && ValidateBlockHash(keccak, g).Ok?
    requires NoCollision(keccak, Preimages(keccak, h) + Preimages(keccak, g))
    ensures h.hash == g.hash <==> Committed(h) == Committed(g)
  {
    if h.hash == g.hash {
      SameHashSameContents(keccak, h, g);
    }
    if Committed(h) == Committed(g) {
      SameContentsSameHash(keccak, h, g);
    }
  }

  lemma SameHashSameContents(keccak: Digest, h: Header, g: Header)
    requires IsDigest(keccak) && WellTyped(h) && WellTyped(g)
    requires ValidateBlockHash(keccak, h).Ok? && ValidateBlockHash(keccak, g).Ok?
    requires NoCollision(keccak, Preimages(keccak, h) + Preimages(keccak, g))
    requires h.hash == g.hash
    ensures Committed(h) == Committed(g)
  {
    var x, y := ExtensionField(keccak, h).value, ExtensionField(keccak, g).value;
    var p, q := h.minimumGasPrice.value, g.minimumGasPrice.value;
    HeaderStringsFit(h, x, p);
    HeaderStringsFit(g, y, q);
    assert EncodeRlp(keccak, h).value == EncodeRlp(keccak, g).value;
    EncodeStringsInjective(HeaderStrings(h, x, p), HeaderStrings(g, y, q));
    SameStringsSameFields(h, x, p, g, y, q);
    SameExtension(keccak, h, g);
  }

  lemma SameContentsSameHash(keccak: Digest, h: Header, g: Header)
    requires IsDigest(keccak) && WellTyped(h) && WellTyped(g)
    requires ValidateBlockHash(keccak, h).Ok? && ValidateBlockHash(keccak, g).Ok?
    requires Committed(h) == Committed(g)
    ensures h.hash == g.hash
  {
    var hh, gg := Committed(h), Committed(g);
    assert |hh.uncles| == |gg.uncles|;
    assert hh.extensionData == gg.extensionData && hh.baseEvent.value == gg.baseEvent.value;
    assert ExtensionField(keccak, h) == ExtensionField(keccak, g);
    assert HeaderStrings(h, ExtensionField(keccak, h).value, h.minimumGasPrice.value)
        == HeaderStrings(g, ExtensionField(keccak, g).value, g.minimumGasPrice.value);
  }

  // ---- the layout, read back ----

  /** Which headers can be encoded. */
  lemma WhenEncodable(keccak: Digest, h: Header)
    requires IsDigest(keccak) && WellTyped(h)
    ensures EncodeRlp(keccak, h).Ok? <==>
      && h.minimumGasPrice.Some? && |h.extensionData| == 256
      && (h.pteEdges.Some? ==> h.pteEdges.value == [])
      && (h.version == 1 || (h.version == 2 && (h.baseEvent.Some? ==> |h.baseEvent.value| <= 128)))
  {
  }

  /** Eighteen strings, each field at its place: those that are bytes already, */
  ghost predicate HasBytes(keccak: Digest, h: Header, f: seq<Bytes>) {
    && |f| == 18
    && f[0] == h.parent && f[1] == h.unclesHash && f[2] == h.coinbase && f[3] == h.stateRoot
    && f[4] == h.txTrieRoot && f[5] == h.receiptTrieRoot && IsExtension(keccak, h, f[6])
    && f[9] == h.gasLimit && f[12] == h.extraData && f[16] == [] && f[17] == h.mergedMiningHeader
  }

  /** and the numbers. */
  ghost predicate HasNumbers(h: Header, f: seq<Bytes>) {
    && |f| == 18 && h.minimumGasPrice.Some?
    && IsNumber(f[7], h.difficulty) && IsNumber(f[8], h.number) && IsNumber(f[10], h.gasUsed)
    && IsNumber(f[11], h.timestamp) && IsNumber(f[13], h.paidFees)
    && IsSignedNumber(f[14], h.minimumGasPrice.value) && IsNumber(f[15], |h.uncles|)
  }

  /** What is hashed for a header, read back by the decoder, is its fields in this order. */
  lemma HeaderLayout(keccak: Digest, h: Header)
    requires IsDigest(keccak) && WellTyped(h) && EncodeRlp(keccak, h).Ok?
    ensures var read := ReadStrings(EncodeRlp(keccak, h).value);
            read.Strings? && HasBytes(keccak, h, read.all) && HasNumbers(h, read.all)
  {
    hide EncodeStrings, EncodeAll, ReadStrings, ExtensionField, HeaderStrings, HasBytes, HasNumbers;
    var extension, price := ExtensionField(keccak, h).value, h.minimumGasPrice.value;
    var ss := HeaderStrings(h, extension, price);
    HeaderStringsFit(h, extension, price);
    ReadEncodedStrings(ss);
    ExtensionLayout(keccak, h);
    BytesLayout(keccak, h, extension, price);
    NumbersLayout(h, extension, price);
  }

  lemma BytesLayout(keccak: Digest, h: Header, extension: Bytes, price: nat)
    requires IsExtension(keccak, h, extension)
    ensures HasBytes(keccak, h, HeaderStrings(h, extension, price))
  {
    hide BigEndian, SignedBytes, IsExtension;
  }

  lemma NumbersLayout(h: Header, extension: Bytes, price: nat)
    requires h.minimumGasPrice == Some(price)
    ensures HasNumbers(h, HeaderStrings(h, extension, price))
  {
    hide BigEndian, SignedBytes, IsNumber, IsSignedNumber;
    NumberForm(h.difficulty);
    NumberForm(h.number);
    NumberForm(h.gasUsed);
    NumberForm(h.timestamp);
    NumberForm(h.paidFees);
    NumberForm(|h.uncles|);
    SignedNumberForm(price);
  }

  /** The bytes of a coin value that is read as a signed number: not empty, not negative, no shorter. */
  predicate IsSignedNumber(s: Bytes, n: nat) {
    FromBigEndian(s) == n && s != [] && s[0] < 0x80 && (|s| > 1 && s[0] == 0 ==> s[1] >= 0x80)
  }

  lemma SignedNumberForm(n: nat)
    ensures IsSignedNumber(SignedBytes(n), n)
  {
    SignedForm(n);
  }

  /** The bytes of a number, without leading zeroes. */
  predicate IsNumber(s: Bytes, n: nat) {
    FromBigEndian(s) == n && (s != [] ==> s[0] != 0)
  }

  lemma NumberForm(n: nat)
    ensures IsNumber(BigEndian(n), n)
  {
    BigEndianRoundTrip(n);
  }

  /** The extension field: the logs bloom as it is for version one without edges; otherwise the
      version and the hash of a list of the bloom's hash, the base event for version two, and the
      empty string if there are edges. */
  ghost predicate IsExtension(keccak: Digest, h: Header, s: Bytes) {
    if h.version == 1 && h.pteEdges.None? then s == h.extensionData
    else
      exists preimage: Bytes ::
        && ReadStrings(s) == Strings([[(h.version % 256) as byte], keccak(preimage)])
        && ReadStrings(preimage) == Strings(
             [keccak(h.extensionData)]
             + (if h.version == 2 then [if h.baseEvent.Some? then h.baseEvent.value else []] else [])
             + (if h.pteEdges.Some? then [[]] else []))
  }

  lemma ExtensionLayout(keccak: Digest, h: Header)
    requires IsDigest(keccak) && ExtensionField(keccak, h).Ok?
    ensures IsExtension(keccak, h, ExtensionField(keccak, h).value)
  {
    hide EncodeStrings, EncodeAll, ReadStrings, Short;
    if Compressed(h) {
      HashedStringsSmall(keccak, h);
      var ss := HashedStrings(keccak, h).value;
      var preimage := EncodeStrings(ss);
      ReadEncodedStrings(ss);
      CompressedFieldSize([h.version as byte], keccak(preimage));
      ReadEncodedStrings([[h.version as byte], keccak(preimage)]);
      assert ss == [keccak(h.extensionData)]
                   + (if h.version == 2 then [if h.baseEvent.Some? then h.baseEvent.value else []] else [])
                   + (if h.pteEdges.Some? then [[]] else []);
    }
  }

  /** When a header passes: it can be encoded, a base event comes with version two, and its hash is
      that of the encoding. */
  lemma WhenHashIsValid(keccak: Digest, h: Header)
    requires IsDigest(keccak) && WellTyped(h)
    ensures ValidateBlockHash(keccak, h).Ok? <==>
      && EncodeRlp(keccak, h).Ok? && (h.baseEvent.Some? ==> h.version == 2)
      && h.hash == keccak(EncodeRlp(keccak, h).value)
  {
  }
}
