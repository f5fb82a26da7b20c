/** The BNB block header and its RLP encoding (bnbclient/bnbtypes/block.go and gen_header_rlp.go). */
module BnbHeader {
  import opened Common
  import opened Rlp

  type Hash32 = b: Bytes | |b| == 32 witness seq(32, _ => 0)
  type Address = b: Bytes | |b| == 20 witness seq(20, _ => 0)
  type Bloom = b: Bytes | |b| == 256 witness seq(256, _ => 0)
  type BlockNonce = b: Bytes | |b| == 8 witness seq(8, _ => 0)

  /** A nil pointer or slice is `None`; big integers may be negative. */
  datatype Header = Header(
    parentHash: Hash32,
    uncleHash: Hash32,
    coinbase: Address,
    root: Hash32,
    txHash: Hash32,
    receiptHash: Hash32,
    bloom: Bloom,
    difficulty: Option<int>,
    number: Option<int>,
    gasLimit: uint64,
    gasUsed: uint64,
    time: uint64,
    extra: Option<Bytes>,
    mixDigest: Hash32,
    nonce: BlockNonce,
    baseFee: Option<int>,
    withdrawalsHash: Option<Hash32>,
    blobGasUsed: Option<uint64>,
    excessBlobGas: Option<uint64>,
    parentBeaconRoot: Option<Hash32>)

  // ---------------------------------------------------------------------------
  // Specification: the list of items.

  predicate NonNegative(o: Option<int>) {
    o.Some? ==> o.value >= 0
  }

  predicate HasNegative(h: Header) {
    !NonNegative(h.difficulty) || !NonNegative(h.number) || !NonNegative(h.baseFee)
  }

  /** A negative integer has no encoding; the encoder fails before writing it. */
  function IntItem(o: Option<int>): Bytes {
    if o.None? || o.value < 0 then [] else BigEndian(o.value)
  }

  function HashItem(o: Option<Hash32>): Bytes {
    if o.None? then [] else o.value
  }

  function ExtraBytes(h: Header): Bytes {
    if h.extra.None? then [] else h.extra.value
  }

  /** How many optional fields are written: up to the last one present. */
  function OptionalCount(h: Header): nat {
    if h.parentBeaconRoot.Some? then 5
    else if h.excessBlobGas.Some? then 4
    else if h.blobGasUsed.Some? then 3
    else if h.withdrawalsHash.Some? then 2
    else if h.baseFee.Some? then 1
    else 0
  }

  function RequiredItems(h: Header): (items: seq<Bytes>)
    ensures |items| == 15
  {
    [h.parentHash, h.uncleHash, h.coinbase, h.root, h.txHash, h.receiptHash, h.bloom,
     IntItem(h.difficulty), IntItem(h.number), Uint64Item(h.gasLimit), Uint64Item(h.gasUsed), Uint64Item(h.time),
     ExtraBytes(h), h.mixDigest, h.nonce]
  }

  function OptionalItems(h: Header): (items: seq<Bytes>)
    ensures |items| == 5
  {
    [IntItem(h.baseFee), HashItem(h.withdrawalsHash), IntItem(h.blobGasUsed), IntItem(h.excessBlobGas),
     HashItem(h.parentBeaconRoot)]
  }

  function HeaderItems(h: Header): (items: seq<Bytes>)
    ensures |items| == 15 + OptionalCount(h)
  {
    RequiredItems(h) + OptionalItems(h)[..OptionalCount(h)]
  }

  /** The encoding fits the lengths RLP can express (the Extra bytes and integers are in memory). */
  ghost predicate Fits(h: Header) {
    Encodable(HeaderItems(h))
  }

  ghost function Encoding(h: Header): Bytes
    requires !HasNegative(h) && Fits(h)
  {
    EncodeList(HeaderItems(h))
  }

  /** An optional field is written if it or a later one is present, in the order of the fields; an absent
      one is the empty string. */
  lemma OptionalCascade(h: Header)
    ensures OptionalCount(h) > 4 <==> h.parentBeaconRoot.Some?
    ensures OptionalCount(h) > 3 <==> h.excessBlobGas.Some? || OptionalCount(h) > 4
    ensures OptionalCount(h) > 2 <==> h.blobGasUsed.Some? || OptionalCount(h) > 3
    ensures OptionalCount(h) > 1 <==> h.withdrawalsHash.Some? || OptionalCount(h) > 2
    ensures OptionalCount(h) > 0 <==> h.baseFee.Some? || OptionalCount(h) > 1
    ensures var n, items := OptionalCount(h), HeaderItems(h);
            && |items| == 15 + n && n <= 5
            && (n > 0 ==> items[15] == IntItem(h.baseFee))
            && (n > 1 ==> items[16] == if h.withdrawalsHash.Some? then h.withdrawalsHash.value else [])
            && (n > 2 ==> items[17] == if h.blobGasUsed.Some? then BigEndian(h.blobGasUsed.value) else [])
            && (n > 3 ==> items[18] == if h.excessBlobGas.Some? then BigEndian(h.excessBlobGas.value) else [])
            && (n > 4 ==> items[19] == h.parentBeaconRoot.value)
  {
  }

  lemma IntItemIs(o: Option<int>)
    requires NonNegative(o)
    ensures IntItem(o) == if o.Some? then BigEndian(o.value) else []
  {
  }

  // ---------------------------------------------------------------------------
  // Decoder.

  function DecodeInt(item: Bytes): Option<int> {
    if NoLeadingZero(item) then Some(FromBigEndian(item)) else None
  }

  function DecodeUint64(item: Bytes): Option<uint64> {
    if NoLeadingZero(item) && FromBigEndian(item) < TWO_64 then Some(FromBigEndian(item)) else None
  }

  predicate RequiredShape(items: seq<Bytes>)
    requires |items| >= 15
  {
    && |items[0]| == 32 && |items[1]| == 32 && |items[2]| == 20 && |items[3]| == 32 && |items[4]| == 32
    && |items[5]| == 32 && |items[6]| == 256 && |items[13]| == 32 && |items[14]| == 8
    && DecodeInt(items[7]).Some? && DecodeInt(items[8]).Some?
    && DecodeUint64(items[9]).Some? && DecodeUint64(items[10]).Some? && DecodeUint64(items[11]).Some?
  }

  predicate OptionalShape(opt: seq<Bytes>) {
    && |opt| <= 5
    && (|opt| > 0 ==> DecodeInt(opt[0]).Some?)
    && (|opt| > 1 ==> |opt[1]| == 32 || (opt[1] == [] && |opt| > 2))
    && (|opt| > 2 ==> DecodeUint64(opt[2]).Some?)
    && (|opt| > 3 ==> DecodeUint64(opt[3]).Some?)
    && (|opt| > 4 ==> |opt[4]| == 32)
  }

  /** Read a header from its items: 15 required and up to 5 optional ones. */
  function FromItems(items: seq<Bytes>): Option<Header> {
    if |items| < 15 || !RequiredShape(items) || !OptionalShape(items[15..]) then None
    else
      var opt := items[15..];
      Some(Header(
        items[0], items[1], items[2], items[3], items[4], items[5], items[6],
        DecodeInt(items[7]), DecodeInt(items[8]),
        DecodeUint64(items[9]).value, DecodeUint64(items[10]).value, DecodeUint64(items[11]).value,
        Some(items[12]), items[13], items[14],
        if |opt| > 0 then DecodeInt(opt[0]) else None,
        if |opt| > 1 && opt[1] != [] then Some(opt[1]) else None,
        if |opt| > 2 then DecodeUint64(opt[2]) else None,
        if |opt| > 3 then DecodeUint64(opt[3]) else None,
        if |opt| > 4 then Some(opt[4]) else None))
  }

  function DecodeHeader(s: Bytes): Option<Header> {
    match DecodeList(s)
    case None => None
    case Some(items) => FromItems(items)
  }

  // ---------------------------------------------------------------------------
  // Normal form: what an encoding determines.

  function OrZero<T(==)>(o: Option<T>, zero: T): Option<T> {
    if o.None? then Some(zero) else o
  }

  /** A nil Difficulty or Number is 0 and nil Extra is empty; a nil BaseFee, BlobGasUsed or ExcessBlobGas is 0
      when a later optional field is present; a nil WithdrawalsHash stays nil. */
  function Normalise(h: Header): Header {
    var n := OptionalCount(h);
    h.(difficulty := OrZero(h.difficulty, 0),
       number := OrZero(h.number, 0),
       extra := Some(ExtraBytes(h)),
       baseFee := if n > 0 then OrZero(h.baseFee, 0) else None,
       blobGasUsed := if n > 2 then OrZero(h.blobGasUsed, 0) else None,
       excessBlobGas := if n > 3 then OrZero(h.excessBlobGas, 0) else None)
  }

  lemma IntItemRoundTrip(o: Option<int>)
    requires NonNegative(o)
    ensures DecodeInt(IntItem(o)) == OrZero(o, 0)
    ensures o.Some? && o.value < TWO_64 ==> DecodeUint64(IntItem(o)) == o
    ensures o.None? ==> DecodeUint64(IntItem(o)) == Some(0)
  {
    if o.Some? {
      BigEndianShape(o.value, 0);
    }
  }

  lemma RequiredRoundTrip(h: Header)
    requires !HasNegative(h)
    ensures var items := RequiredItems(h);
            && RequiredShape(items)
            && DecodeInt(items[7]) == OrZero(h.difficulty, 0) && DecodeInt(items[8]) == OrZero(h.number, 0)
            && DecodeUint64(items[9]) == Some(h.gasLimit) && DecodeUint64(items[10]) == Some(h.gasUsed)
            && DecodeUint64(items[11]) == Some(h.time)
  {
    IntItemRoundTrip(h.difficulty);
    IntItemRoundTrip(h.number);
    Uint64RoundTrip(h.gasLimit);
    Uint64RoundTrip(h.gasUsed);
    Uint64RoundTrip(h.time);
  }

  lemma Uint64RoundTrip(n: uint64)
    ensures DecodeUint64(Uint64Item(n)) == Some(n)
  {
    BigEndianShape(n, 0);
  }

  lemma OptionalRoundTrip(h: Header)
    requires !HasNegative(h)
    ensures var opt := OptionalItems(h)[..OptionalCount(h)];
            var n := Normalise(h);
            && OptionalShape(opt)
            && (|opt| > 0 ==> DecodeInt(opt[0]) == n.baseFee)
            && (|opt| > 1 ==> n.withdrawalsHash == if opt[1] == [] then None else Some(opt[1]))
            && (|opt| > 2 ==> DecodeUint64(opt[2]) == n.blobGasUsed)
            && (|opt| > 3 ==> DecodeUint64(opt[3]) == n.excessBlobGas)
            && (|opt| > 4 ==> n.parentBeaconRoot == Some(opt[4]))
  {
    IntItemRoundTrip(h.baseFee);
    IntItemRoundTrip(h.blobGasUsed);
    IntItemRoundTrip(h.excessBlobGas);
  }

  lemma ItemsRoundTrip(h: Header)
    requires !HasNegative(h)
    ensures FromItems(HeaderItems(h)) == Some(Normalise(h))
  {
    RequiredRoundTrip(h);
    OptionalRoundTrip(h);
    var items, req := HeaderItems(h), RequiredItems(h);
    assert items[15..] == OptionalItems(h)[..OptionalCount(h)];
    assert forall i | 0 <= i < 15 :: items[i] == req[i];
  }

  /** Decoding an encoded header gives its normal form. */
  lemma HeaderRoundTrip(h: Header)
    requires !HasNegative(h) && Fits(h)
    ensures DecodeHeader(Encoding(h)) == Some(Normalise(h))
  {
    ListRoundTrip(HeaderItems(h));
    ItemsRoundTrip(h);
  }

  lemma ItemsOfNormalForm(h: Header)
    requires !HasNegative(h)
    ensures !HasNegative(Normalise(h)) && HeaderItems(Normalise(h)) == HeaderItems(h)
  {
    var n := Normalise(h);
    assert OptionalCount(n) == OptionalCount(h);
    assert BigEndian(0) == [];
    assert RequiredItems(n) == RequiredItems(h);
    assert OptionalItems(n)[..OptionalCount(n)] == OptionalItems(h)[..OptionalCount(h)];
  }

  /** Two headers have the same encoding exactly when their normal forms agree. */
  lemma EncodingIsInjective(g: Header, h: Header)
    requires !HasNegative(g) && Fits(g) && !HasNegative(h) && Fits(h)
    ensures Encoding(g) == Encoding(h) <==> Normalise(g) == Normalise(h)
  {
    HeaderRoundTrip(g);
    HeaderRoundTrip(h);
    ItemsOfNormalForm(g);
    ItemsOfNormalForm(h);
  }

  /** Every decodable byte string is the encoding of the header it decodes to, which is in normal form. */
  lemma DecodedIsCanonical(s: Bytes)
    requires DecodeHeader(s).Some?
    ensures var h := DecodeHeader(s).value;
            !HasNegative(h) && Fits(h) && Encoding(h) == s && Normalise(h) == h
  {
    ListIsCanonical(s);
    var items := DecodeList(s).value;
    DecodedItems(items);
  }

  lemma DecodedItems(items: seq<Bytes>)
    requires FromItems(items).Some?
    ensures var h := FromItems(items).value; !HasNegative(h) && HeaderItems(h) == items && Normalise(h) == h
  {
    var h, opt := FromItems(items).value, items[15..];
    assert OptionalCount(h) == |opt|;
    DecodedRequired(items);
    DecodedOptional(items);
    assert items == items[..15] + opt;
  }

  lemma DecodedRequired(items: seq<Bytes>)
    requires FromItems(items).Some?
    ensures !HasNegative(FromItems(items).value) && RequiredItems(FromItems(items).value) == items[..15]
  {
    BigEndianIsCanonical(items[7]);
    BigEndianIsCanonical(items[8]);
    BigEndianIsCanonical(items[9]);
    BigEndianIsCanonical(items[10]);
    BigEndianIsCanonical(items[11]);
  }

  lemma DecodedOptional(items: seq<Bytes>)
    requires FromItems(items).Some?
    ensures !HasNegative(FromItems(items).value)
    ensures OptionalItems(FromItems(items).value)[..|items| - 15] == items[15..]
  {
    var opt := items[15..];
    if |opt| > 0 { BigEndianIsCanonical(opt[0]); }
    if |opt| > 2 { BigEndianIsCanonical(opt[2]); }
    if |opt| > 3 { BigEndianIsCanonical(opt[3]); }
  }

  // ---------------------------------------------------------------------------
  // The generated encoder.

  datatype RlpError = NegativeBigInt

  /** A nil integer is written as the empty string, a negative one is an error. */
  method WriteInt(w: EncoderBuffer, o: Option<int>) returns (ok: bool)
    requires w.Valid() && w.Next(IntItem(o))
    modifies w
    ensures ok == NonNegative(o) && (ok ==> w.Valid() && w.written == old(w.written) + 1)
  {
    if o.None? {
      w.Write([STRING_OFFSET]);
    } else {
      if o.value < 0 {
        return false;
      }
      w.WriteBigInt(o.value);
    }
    ok := true;
  }

  method WriteHash(w: EncoderBuffer, o: Option<Hash32>)
    requires w.Valid() && w.Next(HashItem(o))
    modifies w
    ensures w.Valid() && w.written == old(w.written) + 1
  {
    if o.None? {
      w.Write([0x80]);
    } else {
      w.WriteBytes(o.value);
    }
  }

  method WriteOptionalUint64(w: EncoderBuffer, o: Option<uint64>)
    requires w.Valid() && w.Next(IntItem(o))
    modifies w
    ensures w.Valid() && w.written == old(w.written) + 1
  {
    if o.None? {
      w.Write([0x80]);
    } else {
      w.WriteUint64(o.value);
    }
  }

  /** Where each required item stands. */
  lemma ItemsInOrder(h: Header)
    ensures var items := HeaderItems(h);
            && items[0] == h.parentHash && items[1] == h.uncleHash && items[2] == h.coinbase && items[3] == h.root
            && items[4] == h.txHash && items[5] == h.receiptHash && items[6] == h.bloom
            && items[7] == IntItem(h.difficulty) && items[8] == IntItem(h.number)
            && items[9] == Uint64Item(h.gasLimit) && items[10] == Uint64Item(h.gasUsed)
            && items[11] == Uint64Item(h.time)
            && items[12] == ExtraBytes(h) && items[13] == h.mixDigest && items[14] == h.nonce
  {
  }

  /** Hashes have 32 bytes, the address 20, the bloom filter 256, the nonce 8. */
  lemma ItemSizes(h: Header)
    ensures |h.parentHash| == |h.uncleHash| == |h.root| == |h.txHash| == |h.receiptHash| == |h.mixDigest| == 32
    ensures |h.coinbase| == 20 && |h.bloom| == 256 && |h.nonce| == 8
    ensures h.withdrawalsHash.Some? ==> |h.withdrawalsHash.value| == 32
    ensures h.parentBeaconRoot.Some? ==> |h.parentBeaconRoot.value| == 32
  {
  }

  /** Lines 14 to 42: the required items, or failure on a negative Difficulty or Number. */
  method WriteRequired(w: EncoderBuffer, obj: Header) returns (ok: bool)
    requires w.Valid() && w.written == 0 && w.plan == HeaderItems(obj)
    modifies w
    ensures ok == (NonNegative(obj.difficulty) && NonNegative(obj.number))
    ensures ok ==> w.Valid() && w.written == 15
  {
    ItemsInOrder(obj);
    w.WriteBytes(obj.parentHash);
    w.WriteBytes(obj.uncleHash);
    w.WriteBytes(obj.coinbase);
    w.WriteBytes(obj.root);
    w.WriteBytes(obj.txHash);
    w.WriteBytes(obj.receiptHash);
    w.WriteBytes(obj.bloom);
    ok := WriteInt(w, obj.difficulty);
    if !ok {
      return;
    }
    ok := WriteInt(w, obj.number);
    if !ok {
      return;
    }
    w.WriteUint64(obj.gasLimit);
    w.WriteUint64(obj.gasUsed);
    w.WriteUint64(obj.time);
    w.WriteBytes(ExtraBytes(obj));
    w.WriteBytes(obj.mixDigest);
    w.WriteBytes(obj.nonce);
  }

  /** Where each optional item stands, if it is written. */
  lemma OptionalInOrder(h: Header, i: nat)
    requires i < OptionalCount(h)
    ensures HeaderItems(h)[15 + i] == OptionalItems(h)[i]
  {
  }

  /** Lines 43 to 85: each optional field is written if it or a later one is present. */
  method WriteOptional(w: EncoderBuffer, obj: Header) returns (ok: bool)
    requires w.Valid() && w.written == 15 && w.plan == HeaderItems(obj)
    modifies w
    ensures ok == NonNegative(obj.baseFee)
    ensures ok ==> w.Valid() && w.written == |w.plan|
  {
    var tmp1, tmp2, tmp3 := obj.baseFee.Some?, obj.withdrawalsHash.Some?, obj.blobGasUsed.Some?;
    var tmp4, tmp5 := obj.excessBlobGas.Some?, obj.parentBeaconRoot.Some?;
    ok := true;
    if tmp1 || tmp2 || tmp3 || tmp4 || tmp5 {
      OptionalInOrder(obj, 0);
      ok := WriteInt(w, obj.baseFee);
      if !ok {
        return;
      }
    }
    if tmp2 || tmp3 || tmp4 || tmp5 {
      OptionalInOrder(obj, 1);
      WriteHash(w, obj.withdrawalsHash);
    }
    WriteBlobFields(w, obj);
  }

  /** Lines 65 to 85. */
  method WriteBlobFields(w: EncoderBuffer, obj: Header)
    requires w.Valid() && w.plan == HeaderItems(obj)
    requires w.written == 15 + if OptionalCount(obj) < 2 then OptionalCount(obj) else 2
    modifies w
    ensures w.Valid() && w.written == |w.plan|
  {
    var tmp3, tmp4, tmp5 := obj.blobGasUsed.Some?, obj.excessBlobGas.Some?, obj.parentBeaconRoot.Some?;
    if tmp3 || tmp4 || tmp5 {
      OptionalInOrder(obj, 2);
      WriteOptionalUint64(w, obj.blobGasUsed);
    }
    if tmp4 || tmp5 {
      OptionalInOrder(obj, 3);
      WriteOptionalUint64(w, obj.excessBlobGas);
    }
    if tmp5 {
      OptionalInOrder(obj, 4);
      WriteHash(w, obj.parentBeaconRoot);
    }
  }

  /** Header.EncodeRLP: the specified encoding, or an error, with nothing flushed, when one of the
      integers is negative. */
  method EncodeRLP(obj: Header) returns (r: Result<Bytes, RlpError>)
    requires Fits(obj)
    ensures r == if HasNegative(obj) then Err(NegativeBigInt) else Ok(Encoding(obj))
  {
    var w := new EncoderBuffer(HeaderItems(obj));
    var ok := WriteRequired(w, obj);
    if !ok {
      return Err(NegativeBigInt);
    }
    ok := WriteOptional(w, obj);
    if !ok {
      return Err(NegativeBigInt);
    }
    w.ListEnd();
    r := Ok(w.str);
  }

  // ---------------------------------------------------------------------------
  // The block hash.

  /** What the hash is taken of: the encoding, or nothing when encoding fails (the error is dropped). */
  ghost function HashPreimage(h: Header): Bytes
    requires Fits(h)
  {
    if HasNegative(h) then [] else Encoding(h)
  }

  /** What rlpHash writes to the hash function: the encoder's error is dropped, and then nothing was written. */
  method HashInput(h: Header) returns (b: Bytes)
    requires Fits(h)
    ensures b == HashPreimage(h)
  {
    var r := EncodeRLP(h);
    b := if r.Ok? then r.value else [];
  }

  /** Two headers feed the hash function the same bytes exactly when both fail to encode or
      their normal forms agree. */
  lemma PreimageIsInjective(g: Header, h: Header)
    requires Fits(g) && Fits(h)
    ensures HashPreimage(g) == HashPreimage(h) <==>
            (HasNegative(g) && HasNegative(h)) || (!HasNegative(g) && !HasNegative(h) && Normalise(g) == Normalise(h))
  {
    if !HasNegative(g) && !HasNegative(h) {
      EncodingIsInjective(g, h);
    }
  }
}
