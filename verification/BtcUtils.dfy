/** Payments and OP_RETURN data of a Bitcoin transaction (btc/utils.go). */
module BtcUtils {
  import opened Common

  type int64 = x: int | -0x8000_0000_0000_0000 <= x < 0x8000_0000_0000_0000

  type Script = seq<byte>

  datatype TxOut = TxOut(value: int64, pkScript: Script)

  /** The conversion uint64(out.Value). */
  function ToUint64(v: int64): uint64 {
    v % TWO_64
  }

  const MAX_OP_RETURN_PK_SCRIPT_SIZE := 83
  const OP_RETURN: byte := 0x6a
  const OP_PUSHDATA1: byte := 0x4c

  /** Result of the extraction; `Panic` is the out-of-range slice of a 2-byte script. */
  datatype Extraction = Extracted(amount: uint64, opReturnId: seq<byte>) | InvalidAddress | NoOpReturnId | Panic

  // ---------------------------------------------------------------------------
  // Specification: the value paid to a script, as a sum over the multiset of outputs.

  function PaidTo(outs: seq<TxOut>, script: Script): int {
    if outs == [] then 0
    else PaidTo(outs[..|outs| - 1], script)
         + if outs[|outs| - 1].pkScript == script then outs[|outs| - 1].value else 0
  }

  /** The payment does not depend on the order of the outputs. */
  lemma {:induction false} PaidToReordered(a: seq<TxOut>, b: seq<TxOut>, script: Script)
    requires multiset(a) == multiset(b)
    ensures PaidTo(a, script) == PaidTo(b, script)
  {
    if a == [] {
      assert |multiset(a)| == |multiset(b)| == |b|;
    } else {
      var n := |a| - 1;
      assert a == a[..n] + [a[n]];
      assert a[n] in multiset(b);
      var k :| 0 <= k < |b| && b[k] == a[n];
      DropOneMultiset(b, k);
      DropOnePaid(b, k, script);
      PaidToReordered(a[..n], b[..k] + b[k + 1..], script);
    }
  }

  lemma DropOneMultiset(b: seq<TxOut>, k: nat)
    requires k < |b|
    ensures multiset(b[..k] + b[k + 1..]) == multiset(b) - multiset{b[k]}
  {
    assert b == b[..k] + [b[k]] + b[k + 1..];
  }

  lemma DropOnePaid(b: seq<TxOut>, k: nat, script: Script)
    requires k < |b|
    ensures PaidTo(b, script) == PaidTo(b[..k] + b[k + 1..], script) + if b[k].pkScript == script then b[k].value else 0
  {
    PaidToSplit(b[..k + 1], b[k + 1..], script);
    PaidToSplit(b[..k], b[k + 1..], script);
    assert b == b[..k + 1] + b[k + 1..];
    assert b[..k + 1][..k] == b[..k];
  }

  lemma {:induction false} PaidToSplit(a: seq<TxOut>, b: seq<TxOut>, script: Script)
    ensures PaidTo(a + b, script) == PaidTo(a, script) + PaidTo(b, script)
  {
    if b == [] {
      assert a + b == a;
    } else {
      PaidToSplit(a, b[..|b| - 1], script);
      assert (a + b)[..|a + b| - 1] == a + b[..|b| - 1];
    }
  }

  /** No output pays nothing, and one output pays its value to its own script only. */
  lemma PaidByOne(out: TxOut, script: Script)
    ensures PaidTo([], script) == 0
    ensures PaidTo([out], script) == if out.pkScript == script then out.value else 0
  {
    assert [out][..0] == [];
  }

  lemma WrappedSum(x: int, y: int)
    ensures (x % TWO_64 + y % TWO_64) % TWO_64 == (x + y) % TWO_64
  {
  }

  /** One loop step in wrapping arithmetic. */
  lemma AmountStep(outs: seq<TxOut>, i: nat, script: Script)
    requires i < |outs|
    ensures PaidTo(outs[..i + 1], script) % TWO_64
         == if outs[i].pkScript == script
            then Add64(PaidTo(outs[..i], script) % TWO_64, ToUint64(outs[i].value))
            else PaidTo(outs[..i], script) % TWO_64
  {
    assert outs[..i + 1][..i] == outs[..i];
    WrappedSum(PaidTo(outs[..i], script), outs[i].value);
  }

  ghost predicate NonNegative(outs: seq<TxOut>) {
    forall i | 0 <= i < |outs| :: outs[i].value >= 0
  }

  function TotalValue(outs: seq<TxOut>): int {
    if outs == [] then 0 else TotalValue(outs[..|outs| - 1]) + outs[|outs| - 1].value
  }

  lemma {:induction false} PaidToBounds(outs: seq<TxOut>, script: Script)
    requires NonNegative(outs)
    ensures 0 <= PaidTo(outs, script) <= TotalValue(outs)
  {
    if outs != [] {
      PaidToBounds(outs[..|outs| - 1], script);
    }
  }

  /** No wrap when the outputs are non-negative and their total fits. */
  lemma PaymentDoesNotWrap(outs: seq<TxOut>, script: Script)
    requires NonNegative(outs) && TotalValue(outs) < TWO_64
    ensures PaidTo(outs, script) % TWO_64 == PaidTo(outs, script)
  {
    PaidToBounds(outs, script);
  }

  // ---------------------------------------------------------------------------
  // Specification: OP_RETURN outputs.

  predicate IsOpReturn(script: Script) {
    1 < |script| <= MAX_OP_RETURN_PK_SCRIPT_SIZE && script[0] == OP_RETURN
  }

  predicate Truncated(script: Script) {
    IsOpReturn(script) && script[1] == OP_PUSHDATA1 && |script| == 2
  }

  function PushedData(script: Script): seq<byte>
    requires IsOpReturn(script) && !Truncated(script)
  {
    if script[1] == OP_PUSHDATA1 then script[3..] else script[2..]
  }

  /** In bytes: 2 to 83 of them, 0x6a first; 0x6a 0x4c alone is truncated; the data follows the push opcode, or the
      length byte of a 0x4c. */
  lemma OpReturnBytes(script: Script)
    ensures IsOpReturn(script) <==> 2 <= |script| <= 83 && script[0] == 0x6a
    ensures Truncated(script) <==> script == [0x6a, 0x4c]
    ensures IsOpReturn(script) && !Truncated(script) ==>
              PushedData(script) == if script[1] == 0x4c then script[3..] else script[2..]
  {
  }

  /** Output `i` carries OP_RETURN data and does not pay `script`. */
  predicate Qualifies(outs: seq<TxOut>, script: Script, i: int) {
    0 <= i < |outs| && outs[i].pkScript != script && IsOpReturn(outs[i].pkScript)
  }

  ghost predicate HasTruncated(outs: seq<TxOut>, script: Script) {
    exists i | 0 <= i < |outs| :: Qualifies(outs, script, i) && Truncated(outs[i].pkScript)
  }

  ghost predicate HasOpReturn(outs: seq<TxOut>, script: Script) {
    exists i | 0 <= i < |outs| :: Qualifies(outs, script, i)
  }

  ghost predicate IsLastOpReturn(outs: seq<TxOut>, script: Script, i: int) {
    Qualifies(outs, script, i) && forall j | i < j < |outs| :: !Qualifies(outs, script, j)
  }

  /** What ExtractPaymentToWithOpReturnId must answer when the address is valid: a panic if
      some qualifying script is truncated, an error if none qualifies, otherwise the wrapped
      payment and the data of the last qualifying output. */
  ghost predicate IsExtraction(outs: seq<TxOut>, script: Script, r: Extraction) {
    if HasTruncated(outs, script) then r == Panic
    else if !HasOpReturn(outs, script) then r == NoOpReturnId
    else
      && r.Extracted?
      && r.amount == PaidTo(outs, script) % TWO_64
      && exists i | 0 <= i < |outs| ::
           IsLastOpReturn(outs, script, i) && r.opReturnId == PushedData(outs[i].pkScript)
  }

  function LastOpReturn(outs: seq<TxOut>, script: Script, n: nat): (r: Option<nat>)
    requires n <= |outs|
    ensures r.Some? ==> r.value < n && Qualifies(outs, script, r.value)
    ensures forall j | (if r.Some? then r.value + 1 else 0) <= j < n :: !Qualifies(outs, script, j)
  {
    if n == 0 then None
    else if Qualifies(outs, script, n - 1) then Some(n - 1)
    else LastOpReturn(outs, script, n - 1)
  }

  function Extract(outs: seq<TxOut>, script: Script): Extraction {
    if exists i | 0 <= i < |outs| :: Qualifies(outs, script, i) && Truncated(outs[i].pkScript) then Panic
    else
      match LastOpReturn(outs, script, |outs|)
      case None => NoOpReturnId
      case Some(i) => Extracted(PaidTo(outs, script) % TWO_64, PushedData(outs[i].pkScript))
  }

  lemma ExtractIs(outs: seq<TxOut>, script: Script)
    ensures IsExtraction(outs, script, Extract(outs, script))
  {
    var last := LastOpReturn(outs, script, |outs|);
    if last.Some? {
      assert IsLastOpReturn(outs, script, last.value);
    }
  }

  lemma ExtractionIsUnique(outs: seq<TxOut>, script: Script, r: Extraction, s: Extraction)
    requires IsExtraction(outs, script, r) && IsExtraction(outs, script, s)
    ensures r == s
  {
    if !HasTruncated(outs, script) && HasOpReturn(outs, script) {
      var i :| 0 <= i < |outs| && IsLastOpReturn(outs, script, i) && r.opReturnId == PushedData(outs[i].pkScript);
      var j :| 0 <= j < |outs| && IsLastOpReturn(outs, script, j) && s.opReturnId == PushedData(outs[j].pkScript);
      assert !(i < j) && !(j < i);
    }
  }

  /** The script a wallet writes for a payload: a direct push up to 75 bytes, OP_PUSHDATA1 above. */
  function OpReturnScript(payload: seq<byte>): Script
    requires 1 <= |payload| <= 255
  {
    if |payload| <= 75 then [OP_RETURN, |payload|] + payload
    else [OP_RETURN, OP_PUSHDATA1, |payload|] + payload
  }

  lemma OpReturnScriptBytes(payload: seq<byte>)
    requires 1 <= |payload| <= 255
    ensures OpReturnScript(payload) ==
            if |payload| <= 75 then [0x6a, |payload|] + payload else [0x6a, 0x4c, |payload|] + payload
  {
  }

  /** A payload in the sole OP_RETURN output comes back unchanged if it fits in 80 bytes;
      a longer one exceeds the 83-byte cap and is not found. */
  lemma PayloadRoundTrip(outs: seq<TxOut>, script: Script, i: nat, payload: seq<byte>, r: Extraction)
    requires 1 <= |payload| <= 255
    requires i < |outs| && outs[i].pkScript == OpReturnScript(payload) != script
    requires forall j | 0 <= j < |outs| && j != i :: !Qualifies(outs, script, j)
    requires IsExtraction(outs, script, r)
    ensures |payload| <= 80 ==> r == Extracted(PaidTo(outs, script) % TWO_64, payload)
    ensures |payload| > 80 ==> r == NoOpReturnId
  {
    var s := outs[i].pkScript;
    if |payload| <= 80 {
      assert Qualifies(outs, script, i);
      assert PushedData(s) == payload;
    } else {
      assert !Qualifies(outs, script, i);
    }
  }

  // ---------------------------------------------------------------------------
  // The two extraction loops. `payScript` is PayToAddrScript(addr), `None` its error.

  method ExtractPaymentTo(outs: seq<TxOut>, payScript: Option<Script>) returns (r: Extraction)
    ensures payScript.None? ==> r == InvalidAddress
    ensures payScript.Some? ==> r == Extracted(PaidTo(outs, payScript.value) % TWO_64, [])
  {
    if payScript.None? {
      return InvalidAddress;
    }
    var amt: uint64 := 0;
    for i := 0 to |outs|
      invariant amt == PaidTo(outs[..i], payScript.value) % TWO_64
    {
      AmountStep(outs, i, payScript.value);
      if outs[i].pkScript == payScript.value {
        amt := Add64(amt, ToUint64(outs[i].value));
      }
    }
    assert outs[..|outs|] == outs;
    r := Extracted(amt, []);
  }

  method ExtractPaymentToWithOpReturnId(outs: seq<TxOut>, payScript: Option<Script>) returns (r: Extraction)
    ensures payScript.None? ==> r == InvalidAddress
    ensures payScript.Some? ==> IsExtraction(outs, payScript.value, r)
  {
    if payScript.None? {
      return InvalidAddress;
    }
    var script := payScript.value;
    var amt: uint64 := 0;
    var found := false;
    var opReturnId := [];
    ghost var last := -1;
    for i := 0 to |outs|
      invariant amt == PaidTo(outs[..i], script) % TWO_64
      invariant forall j | 0 <= j < i :: Qualifies(outs, script, j) ==> !Truncated(outs[j].pkScript)
      invariant found <==> 0 <= last
      invariant last < i
      invariant found ==> Qualifies(outs, script, last) && opReturnId == PushedData(outs[last].pkScript)
      invariant forall j | last < j < i :: !Qualifies(outs, script, j)
    {
      AmountStep(outs, i, script);
      if outs[i].pkScript == script {
        amt := Add64(amt, ToUint64(outs[i].value));
      } else {
        var pkScript := outs[i].pkScript;
        if |pkScript| > 1 && |pkScript| <= MAX_OP_RETURN_PK_SCRIPT_SIZE && pkScript[0] == OP_RETURN {
          assert Qualifies(outs, script, i);
          if pkScript[1] == OP_PUSHDATA1 {
            if |pkScript| < 3 {
              assert Truncated(outs[i].pkScript);
              return Panic;
            }
            opReturnId := pkScript[3..];
          } else {
            opReturnId := pkScript[2..];
          }
          found, last := true, i;
        }
      }
    }
    assert outs[..|outs|] == outs;
    if !found {
      return NoOpReturnId;
    }
    assert IsLastOpReturn(outs, script, last);
    r := Extracted(amt, opReturnId);
  }
}
