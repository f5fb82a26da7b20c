/** Hexadecimal text as go-ethereum's hexutil package writes and reads it: byte strings with
    two digits per byte and numbers without leading zeros, both prefixed with "0x". */
module Hex {
  import opened Common

  datatype HexError = EmptyString | MissingPrefix | InvalidDigits | OddLength | EmptyNumber | LeadingZero | TooLong

  const HEX_DIGITS := "0123456789abcdef"

  function DigitValue(c: char): (r: Option<nat>)
    ensures r.Some? ==> r.value < 16
  {
    if '0' <= c <= '9' then Some((c - '0') as nat)
    else if 'a' <= c <= 'f' then Some((c - 'a') as nat + 10)
    else if 'A' <= c <= 'F' then Some((c - 'A') as nat + 10)
    else None
  }

  lemma DigitRoundTrip(n: nat)
    requires n < 16
    ensures DigitValue(HEX_DIGITS[n]) == Some(n)
  {
    assert HEX_DIGITS[n] == if n < 10 then '0' + n as char else 'a' + (n - 10) as char;
  }

  predicate HasPrefix(s: string) {
    |s| >= 2 && s[0] == '0' && (s[1] == 'x' || s[1] == 'X')
  }

  // ---------------------------------------------------------------------------
  // Byte strings.

  function Pair(x: byte): string {
    [HEX_DIGITS[x / 16], HEX_DIGITS[x % 16]]
  }

  function Digits(b: seq<byte>): string {
    if b == [] then [] else Digits(b[..|b| - 1]) + Pair(b[|b| - 1])
  }

  /** hexutil.Encode. */
  function Encode(b: seq<byte>): string {
    "0x" + Digits(b)
  }

  function PairValue(hi: char, lo: char): Option<byte> {
    if DigitValue(hi).None? || DigitValue(lo).None? then None
    else Some(DigitValue(hi).value * 16 + DigitValue(lo).value)
  }

  lemma PairRoundTrip(x: byte)
    ensures PairValue(HEX_DIGITS[x / 16], HEX_DIGITS[x % 16]) == Some(x)
  {
    DigitRoundTrip(x / 16);
    DigitRoundTrip(x % 16);
  }

  function DecodeDigits(s: string): Result<seq<byte>, HexError> {
    if s == [] then Ok([])
    else if |s| == 1 then Err(if DigitValue(s[0]).None? then InvalidDigits else OddLength)
    else
      var n := |s| - 2;
      match DecodeDigits(s[..n])
      case Err(e) => Err(e)
      case Ok(b) =>
        match PairValue(s[n], s[n + 1])
        case None => Err(InvalidDigits)
        case Some(x) => Ok(b + [x])
  }

  /** hexutil.Decode. */
  function Decode(s: string): Result<seq<byte>, HexError> {
    if s == [] then Err(EmptyString)
    else if !HasPrefix(s) then Err(MissingPrefix)
    else DecodeDigits(s[2..])
  }

  lemma {:induction false} DigitsRoundTrip(b: seq<byte>)
    ensures DecodeDigits(Digits(b)) == Ok(b)
  {
    if b != [] {
      var front, last := b[..|b| - 1], b[|b| - 1];
      assert b == front + [last];
      DigitsNext(front, last);
      DigitsRoundTrip(front);
      LastPair(Digits(front), front, last);
    }
  }

  lemma DigitsNext(b: seq<byte>, x: byte)
    ensures Digits(b + [x]) == Digits(b) + Pair(x)
  {
    assert (b + [x])[..|b|] == b;
  }

  lemma LastPair(s: string, b: seq<byte>, x: byte)
    requires DecodeDigits(s) == Ok(b)
    ensures DecodeDigits(s + Pair(x)) == Ok(b + [x])
  {
    PairRoundTrip(x);
    assert (s + Pair(x))[..|s|] == s;
  }

  /** What Encode writes, Decode reads back; so Encode is injective. */
  lemma EncodeDecode(b: seq<byte>)
    ensures Decode(Encode(b)) == Ok(b)
  {
    DigitsRoundTrip(b);
    assert Encode(b)[2..] == Digits(b);
  }

  /** The text is the prefix 0x and two lower-case digits a byte, the high one first. */
  lemma {:induction false} EncodeShape(b: seq<byte>, i: nat)
    requires i < |b|
    ensures |Encode(b)| == 2 + 2 * |b| && Encode(b)[0] == '0' && Encode(b)[1] == 'x'
    ensures Encode(b)[2 + 2 * i] == "0123456789abcdef"[b[i] / 16]
    ensures Encode(b)[3 + 2 * i] == "0123456789abcdef"[b[i] % 16]
  {
    DigitsShape(b, i);
  }

  lemma {:induction false} DigitsShape(b: seq<byte>, i: nat)
    requires i < |b|
    ensures |Digits(b)| == 2 * |b|
    ensures Digits(b)[2 * i] == "0123456789abcdef"[b[i] / 16] && Digits(b)[2 * i + 1] == "0123456789abcdef"[b[i] % 16]
  {
    var front, last := b[..|b| - 1], b[|b| - 1];
    assert b == front + [last];
    DigitsNext(front, last);
    if front == [] {
      assert Digits(front) == [];
    } else {
      DigitsShape(front, if i < |front| then i else 0);
    }
  }

  lemma NextPair(front: string, b: seq<byte>, s: string)
    requires |s| >= 2 && s[..|s| - 2] == front && DecodeDigits(front) == Ok(b)
    requires PairValue(s[|s| - 2], s[|s| - 1]).Some?
    ensures DecodeDigits(s) == Ok(b + [PairValue(s[|s| - 2], s[|s| - 1]).value])
  {
  }

  lemma DecodeExamples()
    ensures Decode("0x1fA0") == Ok([0x1f, 0xa0]) && Decode("0x") == Ok([]) && Decode("") == Err(EmptyString)
    ensures Decode("1fa0") == Err(MissingPrefix) && Decode("0x1") == Err(OddLength)
    ensures Decode("0x1g") == Err(InvalidDigits)
  {
    assert "0x1fA0"[2..] == "1fA0" && "1fA0"[..2] == "1f" && "1f"[..0] == "";
    assert PairValue('1', 'f') == Some(0x1f) && PairValue('A', '0') == Some(0xa0);
    NextPair("", [], "1f");
    var none: seq<byte> := [];
    assert none + [0x1f] == [0x1f] && [0x1f] + [0xa0] == [0x1f, 0xa0];
    NextPair("1f", [0x1f], "1fA0");
    assert "0x"[2..] == [] && "0x1"[2..] == "1" && "0x1g"[2..] == "1g" && "1g"[..0] == [];
  }

  // ---------------------------------------------------------------------------
  // Numbers.

  function NumberDigits(n: nat): string {
    if n < 16 then [HEX_DIGITS[n]] else NumberDigits(n / 16) + [HEX_DIGITS[n % 16]]
  }

  /** hexutil.EncodeBig and hexutil.EncodeUint64; a negative number gets a leading minus sign. */
  function EncodeNumber(n: int): string {
    if n < 0 then "-0x" + NumberDigits(-n) else "0x" + NumberDigits(n)
  }

  function NumberValue(s: string): Option<nat> {
    if s == [] then Some(0)
    else
      match NumberValue(s[..|s| - 1])
      case None => None
      case Some(v) =>
        match DigitValue(s[|s| - 1])
        case None => None
        case Some(d) => Some(v * 16 + d)
  }

  /** The UnmarshalText methods of hexutil.Big (64 digits) and hexutil.Uint64 (16 digits). */
  function DecodeNumber(s: string, maxDigits: nat): Result<nat, HexError> {
    if s == [] then Ok(0)
    else if !HasPrefix(s) then Err(MissingPrefix)
    else if |s| == 2 then Err(EmptyNumber)
    else if |s| > 3 && s[2] == '0' then Err(LeadingZero)
    else if |s| - 2 > maxDigits then Err(TooLong)
    else
      match NumberValue(s[2..])
      case None => Err(InvalidDigits)
      case Some(v) => Ok(v)
  }

  function Pow16(k: nat): nat {
    if k == 0 then 1 else 16 * Pow16(k - 1)
  }

  /** The digits of a number: its value, no leading zero, and as many as its size needs. */
  lemma {:induction false} NumberDigitsShape(n: nat, k: nat)
    ensures var s := NumberDigits(n);
            && |s| > 0
            && NumberValue(s) == Some(n)
            && (|s| > 1 ==> s[0] != '0')
            && (n == 0 ==> s == "0") && (n > 0 ==> s[0] != '0')
            && (k > 0 ==> (|s| <= k <==> n < Pow16(k)))
  {
    var s := NumberDigits(n);
    if n < 16 {
      DigitRoundTrip(n);
      assert s[..0] == [];
      assert NumberValue(s[..0]) == Some(0);
      if k > 0 { Pow16Positive(k - 1); }
    } else {
      NumberDigitsShape(n / 16, if k > 0 then k - 1 else 0);
      DigitRoundTrip(n % 16);
      assert s[..|s| - 1] == NumberDigits(n / 16);
      if k == 1 { assert Pow16(1) == 16 * Pow16(0); }
    }
  }

  lemma {:induction false} Pow16Positive(k: nat)
    ensures Pow16(k) >= 1
  {
    if k > 0 { Pow16Positive(k - 1); }
  }

  /** A number survives the round trip exactly when it is non-negative and fits the digits. */
  lemma NumberRoundTrip(n: int, maxDigits: nat)
    requires maxDigits > 0
    ensures DecodeNumber(EncodeNumber(n), maxDigits) == Ok(n) <==> 0 <= n < Pow16(maxDigits)
    ensures !(0 <= n < Pow16(maxDigits)) ==> DecodeNumber(EncodeNumber(n), maxDigits).Err?
  {
    if n >= 0 {
      NumberDigitsShape(n, maxDigits);
      var s := EncodeNumber(n);
      assert s[2..] == NumberDigits(n);
      assert |s| > 2 ==> s[2] == NumberDigits(n)[0];
    } else {
      assert EncodeNumber(n)[0] == '-';
    }
  }

  /** Hexadecimal, most significant digit first, without leading zeros; "" reads as 0. */
  lemma NumberExamples()
    ensures EncodeNumber(0) == "0x0" && EncodeNumber(0x1a) == "0x1a" && EncodeNumber(0x2b0) == "0x2b0"
    ensures EncodeNumber(-1) == "-0x1"
    ensures DecodeNumber("0x1A", 16) == Ok(0x1a) && DecodeNumber("", 16) == Ok(0)
    ensures DecodeNumber("0x", 16) == Err(EmptyNumber)
    ensures DecodeNumber("0x01", 16) == Err(LeadingZero) && DecodeNumber("1a", 16) == Err(MissingPrefix)
    ensures DecodeNumber("0x123", 2) == Err(TooLong)
  {
    assert NumberDigits(0x1a) == "1a" && NumberDigits(0x2b) == "2b" && NumberDigits(0x2b0) == "2b0";
    assert "0x1A"[2..] == "1A" && "1A"[..1] == "1" && "1"[..0] == [];
    assert NumberValue("1") == Some(1) && NumberValue("1A") == Some(0x1a);
  }
}
