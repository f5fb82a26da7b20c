/** Recursive length prefix encoding of one list of byte strings (Ethereum Yellow Paper,
    Appendix B), a strict decoder, and the encoder buffer the generated code writes into. */
module Rlp {
  import opened Common

  type Bytes = seq<byte>

  // ---------------------------------------------------------------------------
  // Big-endian integers.

  function BigEndian(n: nat): Bytes {
    if n == 0 then [] else BigEndian(n / 256) + [n % 256]
  }

  function FromBigEndian(s: Bytes): nat {
    if s == [] then 0 else FromBigEndian(s[..|s| - 1]) * 256 + s[|s| - 1]
  }

  function Pow256(k: nat): nat {
    if k == 0 then 1 else 256 * Pow256(k - 1)
  }

  predicate NoLeadingZero(s: Bytes) {
    s == [] || s[0] != 0
  }

  /** The bytes of n give n back, have no leading zero, and number at most k exactly below 256^k. */
  lemma {:induction false} BigEndianShape(n: nat, k: nat)
    ensures FromBigEndian(BigEndian(n)) == n && NoLeadingZero(BigEndian(n))
    ensures |BigEndian(n)| <= k <==> n < Pow256(k)
  {
    if n == 0 {
      Pow256Positive(k);
    } else {
      var front := BigEndian(n / 256);
      assert BigEndian(n)[..|front|] == front;
      if k == 0 {
        BigEndianShape(n / 256, 0);
      } else {
        BigEndianShape(n / 256, k - 1);
        DivBelow(n, Pow256(k - 1));
      }
    }
  }

  lemma DivBelow(n: nat, m: nat)
    ensures n / 256 < m <==> n < 256 * m
  {
  }

  lemma {:induction false} Pow256Positive(k: nat)
    ensures Pow256(k) > 0
  {
    if k > 0 { Pow256Positive(k - 1); }
  }

  lemma BigEndianNext(front: Bytes, last: byte)
    requires BigEndian(FromBigEndian(front)) == front && NoLeadingZero(front + [last])
    ensures BigEndian(FromBigEndian(front) * 256 + last) == front + [last]
  {
    var v := FromBigEndian(front);
    if v == 0 {
      assert front == [] && last == (front + [last])[0];
    }
    assert v * 256 + last > 0;
    BigEndianUnfold(v, last);
  }

  lemma BigEndianUnfold(v: nat, last: byte)
    requires v * 256 + last > 0
    ensures BigEndian(v * 256 + last) == BigEndian(v) + [last]
  {
    assert (v * 256 + last) / 256 == v && (v * 256 + last) % 256 == last;
  }

  lemma {:induction false} BigEndianIsCanonical(s: Bytes)
    requires NoLeadingZero(s)
    ensures BigEndian(FromBigEndian(s)) == s
  {
    if s != [] {
      var front := s[..|s| - 1];
      assert NoLeadingZero(front);
      BigEndianIsCanonical(front);
      BigEndianNext(front, s[|s| - 1]);
      assert s == front + [s[|s| - 1]];
    }
  }

  lemma Pow256Of8()
    ensures Pow256(8) == TWO_64
  {
    assert Pow256(4) == 0x1_0000_0000 by {
      assert Pow256(2) == 65536;
    }
    assert Pow256(6) == 0x1_0000_0000_0000;
  }

  // ---------------------------------------------------------------------------
  // Encoding.

  const STRING_OFFSET: byte := 0x80
  const LIST_OFFSET: byte := 0xc0

  function Prefix(offset: byte, len: nat): Bytes
    requires offset <= LIST_OFFSET && len < TWO_64
  {
    if len < 56 then [offset + len]
    else
      assert |BigEndian(len)| <= 8 by { Pow256Of8(); BigEndianShape(len, 8); }
      [offset + 55 + |BigEndian(len)|] + BigEndian(len)
  }

  function EncodeString(b: Bytes): Bytes
    requires |b| < TWO_64
  {
    if |b| == 1 && b[0] < STRING_OFFSET then b else Prefix(STRING_OFFSET, |b|) + b
  }

  ghost predicate Short(items: seq<Bytes>) {
    forall i | 0 <= i < |items| :: |items[i]| < TWO_64
  }

  ghost function Payload(items: seq<Bytes>): Bytes
    requires Short(items)
  {
    if items == [] then [] else Payload(items[..|items| - 1]) + EncodeString(items[|items| - 1])
  }

  ghost predicate Encodable(items: seq<Bytes>) {
    Short(items) && |Payload(items)| < TWO_64
  }

  ghost function EncodeList(items: seq<Bytes>): Bytes
    requires Encodable(items)
  {
    Prefix(LIST_OFFSET, |Payload(items)|) + Payload(items)
  }

  // ---------------------------------------------------------------------------
  // The encoding in bytes (Appendix B of the Yellow Paper).

  /** Base 256, most significant byte first. */
  lemma BigEndianExamples()
    ensures BigEndian(0) == [] && BigEndian(7) == [7] && BigEndian(0x0102) == [1, 2] && BigEndian(0x030201) == [3, 2, 1]
  {
    assert BigEndian(1) == [1] && BigEndian(3) == [3] && BigEndian(0x0302) == [3, 2];
  }

  /** A single byte below 0x80 is itself; up to 55 bytes follow 0x80 plus their number; more follow 0xb7 plus the
      number of bytes of their number and these. */
  lemma StringBytes(b: Bytes)
    requires |b| < TWO_64
    ensures EncodeString(b) ==
            if |b| == 1 && b[0] < 0x80 then b
            else if |b| < 56 then [0x80 + |b|] + b
            else LongPrefix(0xb7, |b|) + b
  {
  }

  /** A list likewise with 0xc0 and 0xf7 in front of the encodings of its strings. */
  lemma ListBytes(items: seq<Bytes>)
    requires Encodable(items)
    ensures var n := |Payload(items)|;
            EncodeList(items) == if n < 56 then [0xc0 + n] + Payload(items) else LongPrefix(0xf7, n) + Payload(items)
  {
  }

  function LongPrefix(offset: byte, len: nat): Bytes
    requires offset <= 0xf7 && len < TWO_64
  {
    Pow256Of8();
    BigEndianShape(len, 8);
    [offset + |BigEndian(len)|] + BigEndian(len)
  }

  /** The payload is the encodings in order: none for no strings, and the first before the rest. */
  lemma PayloadInOrder(items: seq<Bytes>)
    requires Short(items)
    ensures items == [] ==> Payload(items) == []
    ensures items != [] ==> Short(items[1..]) && Payload(items) == EncodeString(items[0]) + Payload(items[1..])
  {
    if items != [] {
      PayloadCons(items);
    }
  }

  // ---------------------------------------------------------------------------
  // Decoding.

  /** Read a prefix: the length it announces and the rest of the input. Non-minimal forms are refused. */
  function ReadPrefix(offset: byte, s: Bytes): Option<(nat, Bytes)>
    requires offset <= LIST_OFFSET
  {
    if s == [] || s[0] < offset || s[0] >= offset + 64 then None
    else if s[0] <= offset + 55 then Some((s[0] - offset, s[1..]))
    else
      var k := s[0] - offset - 55;
      if |s| < 1 + k || s[1] == 0 || FromBigEndian(s[1..1 + k]) < 56 then None
      else Some((FromBigEndian(s[1..1 + k]), s[1 + k..]))
  }

  /** Read one string: its bytes and the rest of the input. */
  function DecodeString(s: Bytes): (r: Option<(Bytes, Bytes)>)
    ensures r.Some? ==> |r.value.1| < |s|
  {
    if s == [] then None
    else if s[0] < STRING_OFFSET then Some((s[..1], s[1..]))
    else
      match ReadPrefix(STRING_OFFSET, s)
      case None => None
      case Some((len, rest)) =>
        if |rest| < len || (len == 1 && rest[0] < STRING_OFFSET) then None else Some((rest[..len], rest[len..]))
  }

  function DecodeStrings(s: Bytes): Option<seq<Bytes>>
    decreases |s|
  {
    if s == [] then Some([])
    else
      match DecodeString(s)
      case None => None
      case Some((item, rest)) =>
        match DecodeStrings(rest)
        case None => None
        case Some(items) => Some([item] + items)
  }

  function DecodeList(s: Bytes): Option<seq<Bytes>> {
    match ReadPrefix(LIST_OFFSET, s)
    case None => None
    case Some((len, rest)) => if |rest| != len then None else DecodeStrings(rest)
  }

  // ---------------------------------------------------------------------------
  // Decoding inverts encoding.

  lemma PrefixRoundTrip(offset: byte, len: nat, rest: Bytes)
    requires offset <= LIST_OFFSET && len < TWO_64
    ensures ReadPrefix(offset, Prefix(offset, len) + rest) == Some((len, rest))
  {
    var s := Prefix(offset, len) + rest;
    if len < 56 {
      assert s[1..] == rest;
    } else {
      Pow256Of8();
      BigEndianShape(len, 8);
      BigEndianShape(len, 0);
      var b := BigEndian(len);
      assert s[1..1 + |b|] == b && s[1 + |b|..] == rest;
      assert s[1] == b[0];
    }
  }

  lemma StringRoundTrip(b: Bytes, rest: Bytes)
    requires |b| < TWO_64
    ensures DecodeString(EncodeString(b) + rest) == Some((b, rest))
  {
    var s := EncodeString(b) + rest;
    if |b| == 1 && b[0] < STRING_OFFSET {
      assert s[..1] == b && s[1..] == rest;
    } else {
      var p := Prefix(STRING_OFFSET, |b|);
      assert s == p + (b + rest);
      PrefixRoundTrip(STRING_OFFSET, |b|, b + rest);
      assert s[0] >= STRING_OFFSET;
      assert (b + rest)[..|b|] == b && (b + rest)[|b|..] == rest;
    }
  }

  lemma Assoc(a: Bytes, b: Bytes, c: Bytes)
    ensures (a + b) + c == a + (b + c)
  {
  }

  lemma {:induction false} PayloadCons(items: seq<Bytes>)
    requires Short(items) && items != []
    ensures Short(items[1..]) && Payload(items) == EncodeString(items[0]) + Payload(items[1..])
  {
    var front, last := items[..|items| - 1], items[|items| - 1];
    assert items == front + [last];
    if front == [] {
      assert items[1..] == [] && Payload(front) == [] && Payload(items[1..]) == [];
      assert [] + EncodeString(last) == EncodeString(last) == EncodeString(last) + [];
    } else {
      PayloadCons(front);
      assert items[1..] == front[1..] + [last];
      PayloadSnoc(front[1..], last);
      Assoc(EncodeString(items[0]), Payload(front[1..]), EncodeString(last));
    }
  }

  lemma {:induction false} PayloadRoundTrip(items: seq<Bytes>)
    requires Short(items)
    ensures DecodeStrings(Payload(items)) == Some(items)
  {
    if items != [] {
      PayloadCons(items);
      PayloadRoundTrip(items[1..]);
      StringRoundTrip(items[0], Payload(items[1..]));
      assert [items[0]] + items[1..] == items;
    }
  }

  /** Decoding an encoded list gives the list back. */
  lemma ListRoundTrip(items: seq<Bytes>)
    requires Encodable(items)
    ensures DecodeList(EncodeList(items)) == Some(items)
  {
    PrefixRoundTrip(LIST_OFFSET, |Payload(items)|, Payload(items));
    PayloadRoundTrip(items);
  }

  // ---------------------------------------------------------------------------
  // The decoder accepts nothing else.

  lemma PrefixIsCanonical(offset: byte, s: Bytes)
    requires offset <= LIST_OFFSET && ReadPrefix(offset, s).Some?
    ensures var (len, rest) := ReadPrefix(offset, s).value; len < TWO_64 && s == Prefix(offset, len) + rest
  {
    var (len, rest) := ReadPrefix(offset, s).value;
    if s[0] > offset + 55 {
      var k := s[0] - offset - 55;
      var b := s[1..1 + k];
      assert b[0] == s[1];
      BigEndianIsCanonical(b);
      Pow256Of8();
      BigEndianShape(len, 8);
      assert s == [s[0]] + b + rest;
    } else {
      assert s == [s[0]] + rest;
    }
  }

  lemma StringIsCanonical(s: Bytes)
    requires DecodeString(s).Some?
    ensures var (item, rest) := DecodeString(s).value; |item| < TWO_64 && s == EncodeString(item) + rest
  {
    if s[0] < STRING_OFFSET {
      assert s == s[..1] + s[1..];
    } else {
      PrefixIsCanonical(STRING_OFFSET, s);
      var (len, rest) := ReadPrefix(STRING_OFFSET, s).value;
      assert rest == rest[..len] + rest[len..];
      assert s == Prefix(STRING_OFFSET, len) + rest[..len] + rest[len..];
    }
  }

  lemma {:induction false} PayloadIsCanonical(s: Bytes)
    requires DecodeStrings(s).Some?
    ensures Short(DecodeStrings(s).value) && Payload(DecodeStrings(s).value) == s
    decreases |s|
  {
    if s != [] {
      StringIsCanonical(s);
      var (item, rest) := DecodeString(s).value;
      PayloadIsCanonical(rest);
      var items := DecodeStrings(s).value;
      assert items[1..] == DecodeStrings(rest).value;
      PayloadCons(items);
    }
  }

  /** What decodes is exactly the encoding of the decoded list. */
  lemma ListIsCanonical(s: Bytes)
    requires DecodeList(s).Some?
    ensures Encodable(DecodeList(s).value) && EncodeList(DecodeList(s).value) == s
  {
    PrefixIsCanonical(LIST_OFFSET, s);
    PayloadIsCanonical(ReadPrefix(LIST_OFFSET, s).value.1);
  }

  lemma Uint64Bytes(n: uint64)
    ensures |BigEndian(n)| <= 8
    ensures EncodeString(BigEndian(n)) ==
            if n == 0 then [STRING_OFFSET]
            else if n < 128 then [n]
            else [STRING_OFFSET + |BigEndian(n)|] + BigEndian(n)
  {
    Pow256Of8();
    BigEndianShape(n, 8);
    BigEndianShape(n, 1);
    assert Pow256(1) == 256 * Pow256(0);
    if 0 < n < 256 {
      assert BigEndian(n / 256) == [];
      assert BigEndian(n) == [n];
    }
  }

  function Uint64Item(n: uint64): (b: Bytes)
    ensures |b| <= 8 && b == BigEndian(n)
  {
    Uint64Bytes(n);
    BigEndian(n)
  }

  lemma PayloadSnoc(items: seq<Bytes>, x: Bytes)
    requires Short(items) && |x| < TWO_64
    ensures Short(items + [x]) && Payload(items + [x]) == Payload(items) + EncodeString(x)
  {
    assert (items + [x])[..|items|] == items;
  }

  // ---------------------------------------------------------------------------
  // The encoder buffer.

  /** The bytes of the one list the encoder opens. `plan` are the strings the list is meant to
      hold, `written` how many of them the bytes encode so far. */
  class EncoderBuffer {
    var str: Bytes
    ghost const plan: seq<Bytes>
    ghost var written: nat

    ghost predicate Valid()
      reads this
    {
      written <= |plan| && Short(plan) && str == Payload(plan[..written])
    }

    /** The next string of the plan. */
    ghost predicate Next(b: Bytes)
      reads this
    {
      written < |plan| && b == plan[written]
    }

    /** NewEncoderBuffer and List. */
    constructor (ghost plan: seq<Bytes>)
      requires Short(plan)
      ensures Valid() && written == 0 && this.plan == plan
    {
      this.plan := plan;
      str, written := [], 0;
    }

    /** Append the raw encoding of one string. */
    method Write(raw: Bytes)
      requires Valid() && written < |plan| && raw == EncodeString(plan[written])
      modifies this
      ensures Valid() && written == old(written) + 1
    {
      PayloadSnoc(plan[..written], plan[written]);
      assert plan[..written + 1] == plan[..written] + [plan[written]];
      str := str + raw;
      written := written + 1;
    }

    method WriteBytes(b: Bytes)
      requires Valid() && Next(b)
      modifies this
      ensures Valid() && written == old(written) + 1
    {
      Write(EncodeString(b));
    }

    /** A non-negative integer of any size is written as its big-endian bytes. */
    method WriteBigInt(n: nat)
      requires Valid() && Next(BigEndian(n))
      modifies this
      ensures Valid() && written == old(written) + 1
    {
      Write(EncodeString(BigEndian(n)));
    }

    method WriteUint64(n: uint64)
      requires Valid() && Next(Uint64Item(n))
      modifies this
      ensures Valid() && written == old(written) + 1
    {
      Uint64Bytes(n);
      if n == 0 {
        Write([STRING_OFFSET]);
      } else if n < 128 {
        Write([n]);
      } else {
        Write([STRING_OFFSET + |BigEndian(n)|] + BigEndian(n));
      }
    }

    /** Close the list: put the prefix of its payload in front of it. */
    method ListEnd()
      requires Valid() && written == |plan| && Encodable(plan)
      modifies this
      ensures str == EncodeList(plan)
    {
      assert plan[..written] == plan;
      str := Prefix(LIST_OFFSET, |str|) + str;
    }
  }
}
