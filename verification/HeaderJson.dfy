/** The JSON form of the BNB header (bnbclient/bnbtypes/gen_header_json.go). A document is the
    value of each member by name; its members are hexadecimal text as hexutil writes it. */
module HeaderJson {
  import opened Common
  import opened Hex
  import opened BnbHeader
  import opened Rlp

  /** The value of one member; decoding treats an absent member and null alike. */
  datatype Json = Absent | Null | Text(text: string)

  /** The document, one field per JSON member. */
  datatype Document = Document(
    parentHash: Json,
    sha3Uncles: Json,
    miner: Json,
    stateRoot: Json,
    transactionsRoot: Json,
    receiptsRoot: Json,
    logsBloom: Json,
    difficulty: Json,
    number: Json,
    gasLimit: Json,
    gasUsed: Json,
    timestamp: Json,
    extraData: Json,
    mixHash: Json,
    nonce: Json,
    baseFeePerGas: Json,
    withdrawalsRoot: Json,
    blobGasUsed: Json,
    excessBlobGas: Json,
    parentBeaconBlockRoot: Json,
    hash: Json)

  const BIG_DIGITS := 64
  const UINT64_DIGITS := 16

  // ---------------------------------------------------------------------------
  // Marshalling.

  function NumberJson(o: Option<int>): Json {
    if o.None? then Null else Text(EncodeNumber(o.value))
  }

  function HashJson(o: Option<Hash32>): Json {
    if o.None? then Null else Text(Encode(o.value))
  }

  /** MarshalJSON; `hash` is the block hash of the header. A nil Extra is written as empty. */
  function Marshal(h: Header, hash: Hash32): Document {
    Document(
      Text(Encode(h.parentHash)),
      Text(Encode(h.uncleHash)),
      Text(Encode(h.coinbase)),
      Text(Encode(h.root)),
      Text(Encode(h.txHash)),
      Text(Encode(h.receiptHash)),
      Text(Encode(h.bloom)),
      NumberJson(h.difficulty),
      NumberJson(h.number),
      Text(EncodeNumber(h.gasLimit)),
      Text(EncodeNumber(h.gasUsed)),
      Text(EncodeNumber(h.time)),
      Text(Encode(ExtraBytes(h))),
      Text(Encode(h.mixDigest)),
      Text(Encode(h.nonce)),
      NumberJson(h.baseFee),
      HashJson(h.withdrawalsHash),
      NumberJson(h.blobGasUsed),
      NumberJson(h.excessBlobGas),
      HashJson(h.parentBeaconRoot),
      Text(Encode(hash)))
  }

  // ---------------------------------------------------------------------------
  // Decoding one member: missing (absent or null), well-formed, or bad.

  datatype Member<+T> = Missing | Good(value: T) | Bad

  function FixedBytes(j: Json, size: nat): (m: Member<Bytes>)
    ensures m.Good? ==> |m.value| == size
  {
    if !j.Text? then Missing
    else
      match Decode(j.text)
      case Err(_) => Bad
      case Ok(b) => if |b| == size then Good(b) else Bad
  }

  /** hexutil.Bytes accepts the empty text. */
  function AnyBytes(j: Json): Member<Bytes> {
    if !j.Text? then Missing
    else if j.text == "" then Good([])
    else
      match Decode(j.text)
      case Err(_) => Bad
      case Ok(b) => Good(b)
  }

  function NumberMember(j: Json, maxDigits: nat): Member<nat> {
    if !j.Text? then Missing
    else
      match DecodeNumber(j.text, maxDigits)
      case Err(_) => Bad
      case Ok(n) => Good(n)
  }

  function Uint64Member(j: Json): (m: Member<uint64>) {
    match NumberMember(j, UINT64_DIGITS)
    case Missing => Missing
    case Bad => Bad
    case Good(n) => if n < TWO_64 then Good(n) else Bad
  }

  /** Sixteen digits are exactly a uint64, so that bound adds nothing. */
  lemma Pow16Values()
    ensures Pow16(UINT64_DIGITS) == TWO_64
    ensures Pow16(BIG_DIGITS) == TWO_64 * TWO_64 * TWO_64 * TWO_64
  {
    Pow16Square(4);
    assert Pow16(4) == 65536 by { assert Pow16(2) == 256; }
    Pow16Square(8);
    Pow16Square(16);
    Pow16Square(32);
  }

  lemma {:induction false} Pow16Sum(a: nat, b: nat)
    ensures Pow16(a + b) == Pow16(a) * Pow16(b)
  {
    if a > 0 { Pow16Sum(a - 1, b); }
  }

  lemma Pow16Square(k: nat)
    ensures Pow16(2 * k) == Pow16(k) * Pow16(k)
  {
    Pow16Sum(k, k);
  }

  // ---------------------------------------------------------------------------
  // Unmarshalling.

  function Got<T>(m: Member<T>): Option<T> {
    if m.Good? then Some(m.value) else None
  }

  /** The decoded members in three groups; pointers are nil where a member is missing. */
  datatype HashPart = HashPart(
    parentHash: Option<Hash32>,
    uncleHash: Option<Hash32>,
    coinbase: Option<Address>,
    root: Option<Hash32>,
    txHash: Option<Hash32>,
    receiptHash: Option<Hash32>,
    bloom: Option<Bloom>)

  datatype ScalarPart = ScalarPart(
    difficulty: Option<int>,
    number: Option<int>,
    gasLimit: Option<uint64>,
    gasUsed: Option<uint64>,
    time: Option<uint64>,
    extra: Option<Bytes>)

  datatype OptionalPart = OptionalPart(
    mixDigest: Option<Hash32>,
    nonce: Option<BlockNonce>,
    baseFee: Option<int>,
    withdrawalsHash: Option<Hash32>,
    blobGasUsed: Option<uint64>,
    excessBlobGas: Option<uint64>,
    parentBeaconRoot: Option<Hash32>)

  datatype Decoded = Decoded(hashes: HashPart, scalars: ScalarPart, optional: OptionalPart)

  predicate BadHashes(doc: Document) {
    || FixedBytes(doc.parentHash, 32).Bad? || FixedBytes(doc.sha3Uncles, 32).Bad? || FixedBytes(doc.miner, 20).Bad?
    || FixedBytes(doc.stateRoot, 32).Bad? || FixedBytes(doc.transactionsRoot, 32).Bad?
    || FixedBytes(doc.receiptsRoot, 32).Bad? || FixedBytes(doc.logsBloom, 256).Bad?
  }

  predicate BadScalars(doc: Document) {
    || NumberMember(doc.difficulty, BIG_DIGITS).Bad? || NumberMember(doc.number, BIG_DIGITS).Bad?
    || Uint64Member(doc.gasLimit).Bad? || Uint64Member(doc.gasUsed).Bad? || Uint64Member(doc.timestamp).Bad?
    || AnyBytes(doc.extraData).Bad?
  }

  predicate BadOptional(doc: Document) {
    || FixedBytes(doc.mixHash, 32).Bad? || FixedBytes(doc.nonce, 8).Bad?
    || NumberMember(doc.baseFeePerGas, BIG_DIGITS).Bad? || FixedBytes(doc.withdrawalsRoot, 32).Bad?
    || Uint64Member(doc.blobGasUsed).Bad? || Uint64Member(doc.excessBlobGas).Bad?
    || FixedBytes(doc.parentBeaconBlockRoot, 32).Bad?
  }

  predicate AnyBad(doc: Document) {
    BadHashes(doc) || BadScalars(doc) || BadOptional(doc)
  }

  function DecodeHashes(doc: Document): HashPart
    requires !BadHashes(doc)
  {
    HashPart(Got(FixedBytes(doc.parentHash, 32)), Got(FixedBytes(doc.sha3Uncles, 32)), Got(FixedBytes(doc.miner, 20)),
             Got(FixedBytes(doc.stateRoot, 32)), Got(FixedBytes(doc.transactionsRoot, 32)),
             Got(FixedBytes(doc.receiptsRoot, 32)), Got(FixedBytes(doc.logsBloom, 256)))
  }

  function DecodeScalars(doc: Document): ScalarPart
    requires !BadScalars(doc)
  {
    ScalarPart(Got(NumberMember(doc.difficulty, BIG_DIGITS)), Got(NumberMember(doc.number, BIG_DIGITS)),
               Got(Uint64Member(doc.gasLimit)), Got(Uint64Member(doc.gasUsed)), Got(Uint64Member(doc.timestamp)),
               Got(AnyBytes(doc.extraData)))
  }

  function DecodeOptional(doc: Document): OptionalPart
    requires !BadOptional(doc)
  {
    OptionalPart(Got(FixedBytes(doc.mixHash, 32)), Got(FixedBytes(doc.nonce, 8)),
                 Got(NumberMember(doc.baseFeePerGas, BIG_DIGITS)), Got(FixedBytes(doc.withdrawalsRoot, 32)),
                 Got(Uint64Member(doc.blobGasUsed)), Got(Uint64Member(doc.excessBlobGas)),
                 Got(FixedBytes(doc.parentBeaconBlockRoot, 32)))
  }

  /** json.Unmarshal into the auxiliary struct. */
  function DecodeDocument(doc: Document): Option<Decoded> {
    if AnyBad(doc) then None else Some(Decoded(DecodeHashes(doc), DecodeScalars(doc), DecodeOptional(doc)))
  }

  predicate CompleteHashes(d: HashPart) {
    && d.parentHash.Some? && d.uncleHash.Some? && d.root.Some? && d.txHash.Some? && d.receiptHash.Some? && d.bloom.Some?
  }

  predicate CompleteScalars(d: ScalarPart) {
    d.difficulty.Some? && d.number.Some? && d.gasLimit.Some? && d.gasUsed.Some? && d.time.Some? && d.extra.Some?
  }

  function ValueOr<T>(o: Option<T>, before: T): T {
    if o.Some? then o.value else before
  }

  function PointerOr<T>(o: Option<T>, before: Option<T>): Option<T> {
    if o.Some? then o else before
  }

  /** Members that are present replace the receiver's fields, the others leave them alone. */
  function WithHashes(h: Header, d: HashPart): Header
    requires CompleteHashes(d)
  {
    h.(parentHash := d.parentHash.value, uncleHash := d.uncleHash.value, coinbase := ValueOr(d.coinbase, h.coinbase),
       root := d.root.value, txHash := d.txHash.value, receiptHash := d.receiptHash.value, bloom := d.bloom.value)
  }

  function WithScalars(h: Header, d: ScalarPart): Header
    requires CompleteScalars(d)
  {
    h.(difficulty := d.difficulty, number := d.number, gasLimit := d.gasLimit.value, gasUsed := d.gasUsed.value,
       time := d.time.value, extra := d.extra)
  }

  function WithOptional(h: Header, d: OptionalPart): Header {
    h.(mixDigest := ValueOr(d.mixDigest, h.mixDigest), nonce := ValueOr(d.nonce, h.nonce),
       baseFee := PointerOr(d.baseFee, h.baseFee), withdrawalsHash := PointerOr(d.withdrawalsHash, h.withdrawalsHash),
       blobGasUsed := PointerOr(d.blobGasUsed, h.blobGasUsed),
       excessBlobGas := PointerOr(d.excessBlobGas, h.excessBlobGas),
       parentBeaconRoot := PointerOr(d.parentBeaconRoot, h.parentBeaconRoot))
  }

  /** What the assignments of the hashes leave, complete or not: a field is overwritten if its member
      and every required member before it are there. */
  function HashesAfter(h: Header, d: HashPart): Header {
    var n := if d.parentHash.None? then 0 else if d.uncleHash.None? then 1 else if d.root.None? then 2
             else if d.txHash.None? then 3 else if d.receiptHash.None? then 4 else if d.bloom.None? then 5 else 6;
    h.(parentHash := if n > 0 then d.parentHash.value else h.parentHash,
       uncleHash := if n > 1 then d.uncleHash.value else h.uncleHash,
       coinbase := if n > 1 then ValueOr(d.coinbase, h.coinbase) else h.coinbase,
       root := if n > 2 then d.root.value else h.root,
       txHash := if n > 3 then d.txHash.value else h.txHash,
       receiptHash := if n > 4 then d.receiptHash.value else h.receiptHash,
       bloom := if n > 5 then d.bloom.value else h.bloom)
  }

  /** The same for the integers and Extra. */
  function ScalarsAfter(h: Header, d: ScalarPart): Header {
    var n := if d.difficulty.None? then 0 else if d.number.None? then 1 else if d.gasLimit.None? then 2
             else if d.gasUsed.None? then 3 else if d.time.None? then 4 else if d.extra.None? then 5 else 6;
    h.(difficulty := if n > 0 then d.difficulty else h.difficulty,
       number := if n > 1 then d.number else h.number,
       gasLimit := if n > 2 then d.gasLimit.value else h.gasLimit,
       gasUsed := if n > 3 then d.gasUsed.value else h.gasUsed,
       time := if n > 4 then d.time.value else h.time,
       extra := if n > 5 then d.extra else h.extra)
  }

  lemma CompleteAfter(h: Header, d: HashPart, e: ScalarPart)
    ensures CompleteHashes(d) ==> HashesAfter(h, d) == WithHashes(h, d)
    ensures CompleteScalars(e) ==> ScalarsAfter(h, e) == WithScalars(h, e)
  {
  }

  /** The receiver after a failed call: untouched if a member is malformed, otherwise overwritten up to
      the first required member that is missing. */
  function LeftBehind(h: Header, doc: Document): Header {
    match DecodeDocument(doc)
    case None => h
    case Some(d) =>
      if CompleteHashes(d.hashes) then ScalarsAfter(HashesAfter(h, d.hashes), d.scalars) else HashesAfter(h, d.hashes)
  }

  /** The header UnmarshalJSON leaves in the receiver, if it succeeds. */
  function Unmarshal(h: Header, doc: Document): Option<Header> {
    match DecodeDocument(doc)
    case None => None
    case Some(d) =>
      if CompleteHashes(d.hashes) && CompleteScalars(d.scalars)
      then Some(WithOptional(WithScalars(WithHashes(h, d.hashes), d.scalars), d.optional)) else None
  }

  // ---------------------------------------------------------------------------
  // Round trip.

  lemma FixedRoundTrip(b: Bytes)
    ensures FixedBytes(Text(Encode(b)), |b|) == Good(b) && AnyBytes(Text(Encode(b))) == Good(b)
  {
    EncodeDecode(b);
  }

  predicate Fits256(o: Option<int>) {
    o.Some? ==> 0 <= o.value < Pow16(BIG_DIGITS)
  }

  lemma NumberJsonRoundTrip(o: Option<int>)
    ensures NumberMember(NumberJson(o), BIG_DIGITS) ==
            if o.None? then Missing else if Fits256(o) then Good(o.value) else Bad
  {
    if o.Some? {
      NumberRoundTrip(o.value, BIG_DIGITS);
    }
  }

  lemma Uint64JsonRoundTrip(n: uint64)
    ensures Uint64Member(Text(EncodeNumber(n))) == Good(n)
  {
    Pow16Values();
    NumberRoundTrip(n, UINT64_DIGITS);
  }

  function HashPartOf(h: Header): HashPart {
    HashPart(Some(h.parentHash), Some(h.uncleHash), Some(h.coinbase), Some(h.root), Some(h.txHash),
             Some(h.receiptHash), Some(h.bloom))
  }

  function ScalarPartOf(h: Header): ScalarPart {
    ScalarPart(h.difficulty, h.number, Some(h.gasLimit), Some(h.gasUsed), Some(h.time), Some(ExtraBytes(h)))
  }

  function OptionalPartOf(h: Header): OptionalPart {
    OptionalPart(Some(h.mixDigest), Some(h.nonce), h.baseFee, h.withdrawalsHash, h.blobGasUsed, h.excessBlobGas,
                 h.parentBeaconRoot)
  }

  lemma HashesRoundTrip(h: Header, hash: Hash32)
    ensures !BadHashes(Marshal(h, hash)) && DecodeHashes(Marshal(h, hash)) == HashPartOf(h)
  {
    FixedRoundTrip(h.parentHash);
    FixedRoundTrip(h.uncleHash);
    FixedRoundTrip(h.coinbase);
    FixedRoundTrip(h.root);
    FixedRoundTrip(h.txHash);
    FixedRoundTrip(h.receiptHash);
    FixedRoundTrip(h.bloom);
  }

  /** What a marshalled optional integer decodes to. */
  function NumberMemberOf(o: Option<int>): Member<nat> {
    if o.None? then Missing else if Fits256(o) then Good(o.value) else Bad
  }

  function MemberOf<T>(o: Option<T>): Member<T> {
    if o.Some? then Good(o.value) else Missing
  }

  ghost predicate ScalarsAre(doc: Document, h: Header) {
    && NumberMember(doc.difficulty, BIG_DIGITS) == NumberMemberOf(h.difficulty)
    && NumberMember(doc.number, BIG_DIGITS) == NumberMemberOf(h.number)
    && Uint64Member(doc.gasLimit) == Good(h.gasLimit)
    && Uint64Member(doc.gasUsed) == Good(h.gasUsed)
    && Uint64Member(doc.timestamp) == Good(h.time)
    && AnyBytes(doc.extraData) == Good(ExtraBytes(h))
  }

  ghost predicate OptionalAre(doc: Document, h: Header) {
    && FixedBytes(doc.mixHash, 32) == Good(h.mixDigest)
    && FixedBytes(doc.nonce, 8) == Good(h.nonce)
    && NumberMember(doc.baseFeePerGas, BIG_DIGITS) == NumberMemberOf(h.baseFee)
    && FixedBytes(doc.withdrawalsRoot, 32) == MemberOf(h.withdrawalsHash)
    && Uint64Member(doc.blobGasUsed) == MemberOf(h.blobGasUsed)
    && Uint64Member(doc.excessBlobGas) == MemberOf(h.excessBlobGas)
    && FixedBytes(doc.parentBeaconBlockRoot, 32) == MemberOf(h.parentBeaconRoot)
  }

  lemma MarshalledScalars(h: Header, hash: Hash32)
    ensures ScalarsAre(Marshal(h, hash), h)
  {
    NumberJsonRoundTrip(h.difficulty);
    NumberJsonRoundTrip(h.number);
    Uint64JsonRoundTrip(h.gasLimit);
    Uint64JsonRoundTrip(h.gasUsed);
    Uint64JsonRoundTrip(h.time);
    FixedRoundTrip(ExtraBytes(h));
  }

  lemma HashJsonRoundTrip(o: Option<Hash32>)
    ensures FixedBytes(HashJson(o), 32) == MemberOf(o)
  {
    if o.Some? { FixedRoundTrip(o.value); }
  }

  lemma OptionalUint64RoundTrip(o: Option<uint64>)
    ensures Uint64Member(NumberJson(o)) == MemberOf(o)
  {
    if o.Some? { Uint64JsonRoundTrip(o.value); }
  }

  lemma MarshalledOptional(h: Header, hash: Hash32)
    ensures OptionalAre(Marshal(h, hash), h)
  {
    FixedRoundTrip(h.mixDigest);
    FixedRoundTrip(h.nonce);
    NumberJsonRoundTrip(h.baseFee);
    HashJsonRoundTrip(h.withdrawalsHash);
    HashJsonRoundTrip(h.parentBeaconRoot);
    OptionalUint64RoundTrip(h.blobGasUsed);
    OptionalUint64RoundTrip(h.excessBlobGas);
  }

  lemma ScalarsRoundTrip(doc: Document, h: Header)
    requires ScalarsAre(doc, h)
    ensures BadScalars(doc) <==> !Fits256(h.difficulty) || !Fits256(h.number)
    ensures !BadScalars(doc) ==> DecodeScalars(doc) == ScalarPartOf(h)
  {
    GotMember(h.difficulty);
    GotMember(h.number);
  }

  lemma OptionalRoundTrip(doc: Document, h: Header)
    requires OptionalAre(doc, h)
    ensures BadOptional(doc) <==> !Fits256(h.baseFee)
    ensures !BadOptional(doc) ==> DecodeOptional(doc) == OptionalPartOf(h)
  {
    GotMember(h.baseFee);
    assert BadOptional(doc) <==> NumberMemberOf(h.baseFee).Bad?;
  }

  lemma GotMember(o: Option<int>)
    ensures NumberMemberOf(o).Bad? <==> !Fits256(o)
    ensures Fits256(o) ==> Got(NumberMemberOf(o)) == o
  {
  }

  /** A header as UnmarshalJSON finds it when freshly allocated. */
  predicate Fresh(h: Header) {
    && h.baseFee.None? && h.withdrawalsHash.None? && h.blobGasUsed.None? && h.excessBlobGas.None?
    && h.parentBeaconRoot.None?
  }

  /** Into a fresh header the round trip succeeds exactly when Difficulty and Number are present and no big
      integer is negative or wider than 256 bits; it then restores the header, nil Extra becoming empty. */
  lemma JsonRoundTrip(h: Header, hash: Hash32, zero: Header)
    requires Fresh(zero)
    ensures Unmarshal(zero, Marshal(h, hash)) ==
            if h.difficulty.Some? && h.number.Some? && Fits256(h.difficulty) && Fits256(h.number) && Fits256(h.baseFee)
            then Some(h.(extra := Some(ExtraBytes(h)))) else None
  {
    HashesRoundTrip(h, hash);
    MarshalledScalars(h, hash);
    MarshalledOptional(h, hash);
    PartsDecide(zero, Marshal(h, hash), h);
  }

  lemma PartsDecide(zero: Header, doc: Document, h: Header)
    requires Fresh(zero) && !BadHashes(doc) && DecodeHashes(doc) == HashPartOf(h)
    requires ScalarsAre(doc, h) && OptionalAre(doc, h)
    ensures Unmarshal(zero, doc) ==
            if h.difficulty.Some? && h.number.Some? && Fits256(h.difficulty) && Fits256(h.number) && Fits256(h.baseFee)
            then Some(h.(extra := Some(ExtraBytes(h)))) else None
  {
    ScalarsRoundTrip(doc, h);
    OptionalRoundTrip(doc, h);
    if !BadScalars(doc) && !BadOptional(doc) {
      OverlayRestores(zero, h);
    }
  }

  lemma OverlayRestores(zero: Header, h: Header)
    requires Fresh(zero)
    ensures CompleteHashes(HashPartOf(h))
    ensures CompleteScalars(ScalarPartOf(h)) <==> h.difficulty.Some? && h.number.Some?
    ensures CompleteScalars(ScalarPartOf(h)) ==>
              WithOptional(WithScalars(WithHashes(zero, HashPartOf(h)), ScalarPartOf(h)), OptionalPartOf(h))
              == h.(extra := Some(ExtraBytes(h)))
  {
  }

  /** The restored header has the same RLP encoding, hence the same block hash. */
  lemma JsonKeepsIdentity(h: Header, hash: Hash32, zero: Header)
    requires Fresh(zero) && Fits(h) && Unmarshal(zero, Marshal(h, hash)).Some?
    ensures var g := Unmarshal(zero, Marshal(h, hash)).value;
            Fits(g) && !HasNegative(h) && !HasNegative(g) && HashPreimage(g) == HashPreimage(h)
  {
    JsonRoundTrip(h, hash, zero);
    assert HeaderItems(h.(extra := Some(ExtraBytes(h)))) == HeaderItems(h);
  }

  predicate HasHashes(doc: Document) {
    && doc.parentHash.Text? && doc.sha3Uncles.Text? && doc.stateRoot.Text? && doc.transactionsRoot.Text?
    && doc.receiptsRoot.Text? && doc.logsBloom.Text?
  }

  /** The members whose absence is an error. */
  predicate HasRequired(doc: Document) {
    && HasHashes(doc) && doc.difficulty.Text? && doc.number.Text? && doc.gasLimit.Text? && doc.gasUsed.Text?
    && doc.timestamp.Text? && doc.extraData.Text?
  }

  /** Unmarshalling succeeds exactly when no member is malformed and no required one is absent or null. */
  lemma UnmarshalIff(h: Header, doc: Document)
    ensures Unmarshal(h, doc).Some? <==> !AnyBad(doc) && HasRequired(doc)
  {
    if !AnyBad(doc) {
      HashesComplete(doc);
      ScalarsComplete(doc);
    }
  }

  lemma HashesComplete(doc: Document)
    requires !BadHashes(doc)
    ensures CompleteHashes(DecodeHashes(doc)) <==> HasHashes(doc)
  {
  }

  lemma ScalarsComplete(doc: Document)
    requires !BadScalars(doc)
    ensures CompleteScalars(DecodeScalars(doc)) <==>
            && doc.difficulty.Text? && doc.number.Text? && doc.gasLimit.Text? && doc.gasUsed.Text?
            && doc.timestamp.Text? && doc.extraData.Text?
  {
  }

  /** The numbers that survive are those of 256 bits. */
  lemma FitsIs256Bits(o: Option<int>)
    ensures Fits256(o) <==>
            || o.None?
            || 0 <= o.value < 0x1_0000_0000_0000_0000_0000_0000_0000_0000_0000_0000_0000_0000_0000_0000_0000_0000
  {
    Pow16Values();
  }

  /** What a member of each kind is read as. */
  ghost predicate ReadsBytes(j: Json, b: Bytes) {
    j.Text? && Decode(j.text) == Ok(b)
  }

  ghost predicate ReadsNumber(j: Json, n: int, digits: nat) {
    j.Text? && DecodeNumber(j.text, digits) == Ok(n)
  }

  /** After a successful call each required field is what its own member says. */
  lemma RequiredMembers(h: Header, doc: Document)
    requires Unmarshal(h, doc).Some?
    ensures var g := Unmarshal(h, doc).value;
            && ReadsBytes(doc.parentHash, g.parentHash) && ReadsBytes(doc.sha3Uncles, g.uncleHash)
            && ReadsBytes(doc.stateRoot, g.root) && ReadsBytes(doc.transactionsRoot, g.txHash)
            && ReadsBytes(doc.receiptsRoot, g.receiptHash) && ReadsBytes(doc.logsBloom, g.bloom)
    ensures var g := Unmarshal(h, doc).value;
            && g.difficulty.Some? && ReadsNumber(doc.difficulty, g.difficulty.value, 64)
            && g.number.Some? && ReadsNumber(doc.number, g.number.value, 64)
            && ReadsNumber(doc.gasLimit, g.gasLimit, 16) && ReadsNumber(doc.gasUsed, g.gasUsed, 16)
            && ReadsNumber(doc.timestamp, g.time, 16) && g.extra.Some?
            && (doc.extraData == Text("") || ReadsBytes(doc.extraData, g.extra.value))
  {
  }

  /** Each other field is what its own member says, or untouched if there is none. */
  lemma OtherMembers(h: Header, doc: Document)
    requires Unmarshal(h, doc).Some?
    ensures var g := Unmarshal(h, doc).value;
            && (if doc.miner.Text? then ReadsBytes(doc.miner, g.coinbase) else g.coinbase == h.coinbase)
            && (if doc.mixHash.Text? then ReadsBytes(doc.mixHash, g.mixDigest) else g.mixDigest == h.mixDigest)
            && (if doc.nonce.Text? then ReadsBytes(doc.nonce, g.nonce) else g.nonce == h.nonce)
    ensures var g := Unmarshal(h, doc).value;
            && (if doc.baseFeePerGas.Text? then g.baseFee.Some? && ReadsNumber(doc.baseFeePerGas, g.baseFee.value, 64)
                else g.baseFee == h.baseFee)
            && (if doc.withdrawalsRoot.Text?
                then g.withdrawalsHash.Some? && ReadsBytes(doc.withdrawalsRoot, g.withdrawalsHash.value)
                else g.withdrawalsHash == h.withdrawalsHash)
    ensures var g := Unmarshal(h, doc).value;
            && (if doc.blobGasUsed.Text?
                then g.blobGasUsed.Some? && ReadsNumber(doc.blobGasUsed, g.blobGasUsed.value, 16)
                else g.blobGasUsed == h.blobGasUsed)
            && (if doc.excessBlobGas.Text?
                then g.excessBlobGas.Some? && ReadsNumber(doc.excessBlobGas, g.excessBlobGas.value, 16)
                else g.excessBlobGas == h.excessBlobGas)
            && (if doc.parentBeaconBlockRoot.Text?
                then g.parentBeaconRoot.Some? && ReadsBytes(doc.parentBeaconBlockRoot, g.parentBeaconRoot.value)
                else g.parentBeaconRoot == h.parentBeaconRoot)
  {
  }

  /** A failed call leaves in each field what it held or what the document says, and never touches the
      optional fields. */
  lemma LeftBehindIsOldOrNew(h: Header, doc: Document)
    requires Unmarshal(h, doc).None?
    ensures var g := LeftBehind(h, doc);
            && (AnyBad(doc) || !doc.parentHash.Text? ==> g == h)
            && g.mixDigest == h.mixDigest && g.nonce == h.nonce && g.baseFee == h.baseFee
            && g.withdrawalsHash == h.withdrawalsHash && g.blobGasUsed == h.blobGasUsed
            && g.excessBlobGas == h.excessBlobGas && g.parentBeaconRoot == h.parentBeaconRoot
            && (!HasHashes(doc) ==> g.difficulty == h.difficulty && g.number == h.number && g.gasLimit == h.gasLimit
                                    && g.gasUsed == h.gasUsed && g.time == h.time)
            && g.extra == h.extra
  {
    if !AnyBad(doc) {
      HashesComplete(doc);
      ScalarsComplete(doc);
    }
  }

  // ---------------------------------------------------------------------------
  // The methods.

  const NO_MEMBERS := Document(Absent, Absent, Absent, Absent, Absent, Absent, Absent, Absent, Absent, Absent, Absent,
                               Absent, Absent, Absent, Absent, Absent, Absent, Absent, Absent, Absent, Absent)

  /** MarshalJSON, member by member; `hash` is what Hash() answers. */
  method MarshalJSON(h: Header, hash: Hash32) returns (enc: Document)
    ensures enc == Marshal(h, hash)
    ensures enc.parentHash == Text(Encode(h.parentHash)) && enc.sha3Uncles == Text(Encode(h.uncleHash))
    ensures enc.miner == Text(Encode(h.coinbase)) && enc.stateRoot == Text(Encode(h.root))
    ensures enc.transactionsRoot == Text(Encode(h.txHash)) && enc.receiptsRoot == Text(Encode(h.receiptHash))
    ensures enc.logsBloom == Text(Encode(h.bloom)) && enc.mixHash == Text(Encode(h.mixDigest))
    ensures enc.nonce == Text(Encode(h.nonce)) && enc.hash == Text(Encode(hash))
    ensures enc.extraData == Text(Encode(if h.extra.Some? then h.extra.value else []))
    ensures enc.gasLimit == Text(EncodeNumber(h.gasLimit)) && enc.gasUsed == Text(EncodeNumber(h.gasUsed))
    ensures enc.timestamp == Text(EncodeNumber(h.time))
    ensures enc.difficulty == if h.difficulty.Some? then Text(EncodeNumber(h.difficulty.value)) else Null
    ensures enc.number == if h.number.Some? then Text(EncodeNumber(h.number.value)) else Null
    ensures enc.baseFeePerGas == if h.baseFee.Some? then Text(EncodeNumber(h.baseFee.value)) else Null
    ensures enc.blobGasUsed == if h.blobGasUsed.Some? then Text(EncodeNumber(h.blobGasUsed.value)) else Null
    ensures enc.excessBlobGas == if h.excessBlobGas.Some? then Text(EncodeNumber(h.excessBlobGas.value)) else Null
    ensures enc.withdrawalsRoot == if h.withdrawalsHash.Some? then Text(Encode(h.withdrawalsHash.value)) else Null
    ensures enc.parentBeaconBlockRoot ==
            if h.parentBeaconRoot.Some? then Text(Encode(h.parentBeaconRoot.value)) else Null
  {
    enc := NO_MEMBERS;
    enc := enc.(parentHash := Text(Encode(h.parentHash)));
    enc := enc.(sha3Uncles := Text(Encode(h.uncleHash)));
    enc := enc.(miner := Text(Encode(h.coinbase)));
    enc := enc.(stateRoot := Text(Encode(h.root)));
    enc := enc.(transactionsRoot := Text(Encode(h.txHash)));
    enc := enc.(receiptsRoot := Text(Encode(h.receiptHash)));
    enc := enc.(logsBloom := Text(Encode(h.bloom)));
    enc := enc.(difficulty := NumberJson(h.difficulty));
    enc := enc.(number := NumberJson(h.number));
    enc := enc.(gasLimit := Text(EncodeNumber(h.gasLimit)));
    enc := enc.(gasUsed := Text(EncodeNumber(h.gasUsed)));
    enc := enc.(timestamp := Text(EncodeNumber(h.time)));
    enc := enc.(extraData := Text(Encode(ExtraBytes(h))));
    enc := enc.(mixHash := Text(Encode(h.mixDigest)));
    enc := enc.(nonce := Text(Encode(h.nonce)));
    enc := enc.(baseFeePerGas := NumberJson(h.baseFee));
    enc := enc.(withdrawalsRoot := HashJson(h.withdrawalsHash));
    enc := enc.(blobGasUsed := NumberJson(h.blobGasUsed));
    enc := enc.(excessBlobGas := NumberJson(h.excessBlobGas));
    enc := enc.(parentBeaconBlockRoot := HashJson(h.parentBeaconRoot));
    enc := enc.(hash := Text(Encode(hash)));
  }

  class Receiver {
    var h: Header

    constructor (h: Header)
      ensures this.h == h
    {
      this.h := h;
    }

    method UnmarshalJSON(input: Document) returns (ok: bool)
      modifies this
      ensures ok <==> Unmarshal(old(h), input).Some?
      ensures ok ==> h == Unmarshal(old(h), input).value
      ensures !ok ==> h == LeftBehind(old(h), input)
    {
      var decoded := DecodeDocument(input);
      if decoded.None? {
        return false;
      }
      CompleteAfter(h, decoded.value.hashes, decoded.value.scalars);
      CompleteAfter(HashesAfter(h, decoded.value.hashes), decoded.value.hashes, decoded.value.scalars);
      ok := SetHashes(decoded.value.hashes);
      if !ok {
        return;
      }
      ok := SetScalars(decoded.value.scalars);
      if !ok {
        return;
      }
      SetOptional(decoded.value.optional);
    }

    /** Lines 95 to 121. */
    method SetHashes(dec: HashPart) returns (ok: bool)
      modifies this
      ensures ok <==> CompleteHashes(dec)
      ensures h == HashesAfter(old(h), dec)
    {
      ok := false;
      if dec.parentHash.None? { return; }
      h := h.(parentHash := dec.parentHash.value);
      if dec.uncleHash.None? { return; }
      h := h.(uncleHash := dec.uncleHash.value);
      if dec.coinbase.Some? { h := h.(coinbase := dec.coinbase.value); }
      if dec.root.None? { return; }
      h := h.(root := dec.root.value);
      if dec.txHash.None? { return; }
      h := h.(txHash := dec.txHash.value);
      if dec.receiptHash.None? { return; }
      h := h.(receiptHash := dec.receiptHash.value);
      if dec.bloom.None? { return; }
      h := h.(bloom := dec.bloom.value);
      ok := true;
    }

    /** Lines 122 to 145. */
    method SetScalars(dec: ScalarPart) returns (ok: bool)
      modifies this
      ensures ok <==> CompleteScalars(dec)
      ensures h == ScalarsAfter(old(h), dec)
    {
      ok := false;
      if dec.difficulty.None? { return; }
      h := h.(difficulty := dec.difficulty);
      if dec.number.None? { return; }
      h := h.(number := dec.number);
      if dec.gasLimit.None? { return; }
      h := h.(gasLimit := dec.gasLimit.value);
      if dec.gasUsed.None? { return; }
      h := h.(gasUsed := dec.gasUsed.value);
      if dec.time.None? { return; }
      h := h.(time := dec.time.value);
      if dec.extra.None? { return; }
      h := h.(extra := dec.extra);
      ok := true;
    }

    /** Lines 146 to 166. */
    method SetOptional(dec: OptionalPart)
      modifies this
      ensures h == WithOptional(old(h), dec)
    {
      if dec.mixDigest.Some? { h := h.(mixDigest := dec.mixDigest.value); }
      if dec.nonce.Some? { h := h.(nonce := dec.nonce.value); }
      if dec.baseFee.Some? { h := h.(baseFee := dec.baseFee); }
      if dec.withdrawalsHash.Some? { h := h.(withdrawalsHash := dec.withdrawalsHash); }
      if dec.blobGasUsed.Some? { h := h.(blobGasUsed := dec.blobGasUsed); }
      if dec.excessBlobGas.Some? { h := h.(excessBlobGas := dec.excessBlobGas); }
      if dec.parentBeaconRoot.Some? { h := h.(parentBeaconRoot := dec.parentBeaconRoot); }
    }
  }
}
