/** Vocabulary shared by every component: machine integers, optional values and
    the possible fates of a database write. */
module Common {

  const TWO_64 := 0x1_0000_0000_0000_0000

  type uint64 = x: int | 0 <= x < TWO_64

  type byte = x: int | 0 <= x < 256

  datatype Option<+T> = None | Some(value: T)

  datatype Result<+T, +E> = Ok(value: T) | Err(error: E)

  /** Go's wrapping addition on uint64. */
  function Add64(x: uint64, y: uint64): uint64 {
    (x + y) % TWO_64
  }

  /** Go's wrapping subtraction on uint64 (Dafny's `%` is never negative). */
  function Sub64(x: uint64, y: uint64): uint64 {
    (x - y) % TWO_64
  }

  lemma AddExact(x: uint64, y: uint64)
    requires x + y < TWO_64
    ensures Add64(x, y) == x + y
  {
  }

  lemma SubExact(x: uint64, y: uint64)
    requires y <= x
    ensures Sub64(x, y) == x - y
  {
  }

  /** Both wrap at 2^64. */
  lemma Wraps(x: uint64, y: uint64)
    ensures Add64(x, y) == if x + y < 0x1_0000_0000_0000_0000 then x + y else x + y - 0x1_0000_0000_0000_0000
    ensures Sub64(x, y) == if x >= y then x - y else x - y + 0x1_0000_0000_0000_0000
  {
  }

  /** What became of a database write: applied and acknowledged, applied although
      the driver reported an error, or not applied at all. */
  datatype Write = Applied | AppliedUnacked | Lost

  /** strings.Contains. */
  predicate Contains(s: string, sub: string) {
    sub <= s || (s != [] && Contains(s[1..], sub))
  }

  /** `sub` stands somewhere in `s`. */
  lemma {:induction false} ContainsIff(s: string, sub: string)
    ensures Contains(s, sub) <==> exists i | 0 <= i <= |s| :: sub <= s[i..]
  {
    if s == [] {
      assert s[0..] == s;
    } else {
      ContainsIff(s[1..], sub);
      assert s[0..] == s;
      forall i | 1 <= i <= |s|
        ensures s[1..][i - 1..] == s[i..]
      {
      }
      if i :| 0 <= i <= |s[1..]| && sub <= s[1..][i..] {
        assert sub <= s[i + 1..];
      }
      if i :| 1 <= i <= |s| && sub <= s[i..] {
        assert sub <= s[1..][i - 1..];
      }
    }
  }

  lemma ContainsItself(s: string)
    ensures Contains(s, s)
  {
  }

  // txrelayer/common.go
  const TIMEOUT_ERROR := "context deadline exceeded"
  const NOT_CONFIRMED_ERROR := "not k-deep"
  const DUPLICATE_TX_ERROR := "duplicate btc transaction"
  const HEADER_NOT_FOUND_ERROR := "btc block header not found"
  const POST_FAILED_ERROR := "post failed"
  const SEQUENCE_MISMATCH_ERROR := "account sequence mismatch"
  const DUPLICATE_EVENT_ERROR := "duplicate event"
}
