/** The `config` table used as a key/value store (db/kv.go), holding unsigned
    64-bit values as decimal text. */
module KeyValue {
  import opened Common

  datatype ConfigRow = ConfigRow(name: string, value: string)

  datatype DbError = RecordNotFound | Failed | Syntax | OutOfRange

  // ---------------------------------------------------------------------------
  // strconv.FormatUint and strconv.ParseUint in base 10.

  const DIGITS := "0123456789"

  function FormatUint(n: nat): string {
    if n < 10 then [DIGITS[n]] else FormatUint(n / 10) + [DIGITS[n % 10]]
  }

  predicate AllDigits(s: string) {
    forall i | 0 <= i < |s| :: '0' <= s[i] <= '9'
  }

  function DigitsValue(s: string): nat
    requires AllDigits(s)
  {
    if s == [] then 0 else DigitsValue(s[..|s| - 1]) * 10 + (s[|s| - 1] - '0') as nat
  }

  function ParseUint(s: string): Result<uint64, DbError> {
    if s == [] || !AllDigits(s) then Err(Syntax)
    else if DigitsValue(s) >= TWO_64 then Err(OutOfRange)
    else Ok(DigitsValue(s))
  }

  lemma {:induction false} FormatIsDigits(n: nat)
    ensures FormatUint(n) != [] && AllDigits(FormatUint(n)) && DigitsValue(FormatUint(n)) == n
  {
    if n >= 10 {
      FormatIsDigits(n / 10);
      var s := FormatUint(n);
      assert s[..|s| - 1] == FormatUint(n / 10);
      assert s[|s| - 1] - '0' == (n % 10) as char;
    } else {
      var s := FormatUint(n);
      assert s[..|s| - 1] == [];
      assert s[|s| - 1] - '0' == n as char;
    }
  }

  /** The text is base 10, most significant digit first. */
  lemma DecimalExamples()
    ensures FormatUint(0) == "0" && FormatUint(1907) == "1907" && FormatUint(20_000_003) == "20000003"
  {
    assert FormatUint(19) == "19" && FormatUint(190) == "190";
    assert FormatUint(20) == "20" && FormatUint(200) == "200" && FormatUint(2000) == "2000";
    assert FormatUint(20_000) == "20000" && FormatUint(200_000) == "200000" && FormatUint(2_000_000) == "2000000";
  }

  /** Decimal format followed by parse is the identity on uint64 and fails beyond it. */
  lemma FormatParse(n: nat)
    ensures ParseUint(FormatUint(n)) == if n < TWO_64 then Ok(n) else Err(OutOfRange)
  {
    FormatIsDigits(n);
  }

  // ---------------------------------------------------------------------------
  // Rows of the table.

  ghost predicate IsFirstValue(rows: seq<ConfigRow>, key: string, value: string) {
    exists i | 0 <= i < |rows| :: rows[i] == ConfigRow(key, value) && forall j | 0 <= j < i :: rows[j].name != key
  }

  /** The value of the first row with this name (`First` orders by primary key). */
  function Lookup(rows: seq<ConfigRow>, key: string): Option<string> {
    if rows == [] then None
    else if rows[0].name == key then Some(rows[0].value)
    else Lookup(rows[1..], key)
  }

  /** The lookup finds a value exactly when it is the first one. */
  lemma {:induction false} LookupFinds(rows: seq<ConfigRow>, key: string, value: string)
    ensures Lookup(rows, key) == Some(value) <==> IsFirstValue(rows, key, value)
  {
    if rows != [] {
      LookupFinds(rows[1..], key, value);
      assert forall i | 1 <= i < |rows| :: rows[1..][i - 1] == rows[i];
      if IsFirstValue(rows, key, value) {
        var i :| 0 <= i < |rows| && rows[i] == ConfigRow(key, value) && forall j | 0 <= j < i :: rows[j].name != key;
        assert i > 0 ==> rows[1..][i - 1] == ConfigRow(key, value);
      }
      if IsFirstValue(rows[1..], key, value) {
        var i :| && 0 <= i < |rows| - 1 && rows[1..][i] == ConfigRow(key, value)
                 && forall j | 0 <= j < i :: rows[1..][j].name != key;
        assert rows[i + 1] == ConfigRow(key, value);
        assert rows[0].name != key ==> forall j | 0 <= j < i + 1 :: rows[j].name != key;
      }
    }
  }

  function UpdateValue(rows: seq<ConfigRow>, key: string, value: string): (r: seq<ConfigRow>)
    ensures |r| == |rows|
    ensures forall i | 0 <= i < |rows| ::
              r[i] == if rows[i].name == key then ConfigRow(key, value) else rows[i]
  {
    seq(|rows|, i requires 0 <= i < |rows| =>
      if rows[i].name == key then ConfigRow(key, value) else rows[i])
  }

  function Put(rows: seq<ConfigRow>, key: string, value: string): seq<ConfigRow> {
    if Lookup(rows, key).None? then rows + [ConfigRow(key, value)] else UpdateValue(rows, key, value)
  }

  ghost predicate UniqueNames(rows: seq<ConfigRow>) {
    forall i, j | 0 <= i < j < |rows| :: rows[i].name != rows[j].name
  }

  lemma {:induction false} LookupUpdate(rows: seq<ConfigRow>, key: string, value: string, k: string)
    ensures Lookup(UpdateValue(rows, key, value), k)
         == if k == key && Lookup(rows, k).Some? then Some(value) else Lookup(rows, k)
  {
    if rows != [] {
      LookupUpdate(rows[1..], key, value, k);
      assert UpdateValue(rows, key, value)[1..] == UpdateValue(rows[1..], key, value);
    }
  }

  lemma {:induction false} LookupAppend(rows: seq<ConfigRow>, row: ConfigRow, k: string)
    ensures Lookup(rows + [row], k)
         == if Lookup(rows, k).None? && row.name == k then Some(row.value) else Lookup(rows, k)
  {
    if rows != [] {
      LookupAppend(rows[1..], row, k);
      assert (rows + [row])[1..] == rows[1..] + [row];
    } else {
      assert rows + [row] == [row];
    }
  }

  lemma {:induction false} LookupNone(rows: seq<ConfigRow>, k: string)
    ensures Lookup(rows, k).None? <==> forall i | 0 <= i < |rows| :: rows[i].name != k
  {
    if rows != [] {
      LookupNone(rows[1..], k);
      assert forall i | 1 <= i < |rows| :: rows[1..][i - 1] == rows[i];
    }
  }

  /** One write is a map update, and keeps at most one row per name. */
  lemma PutIsMapUpdate(rows: seq<ConfigRow>, key: string, value: string, k: string)
    ensures Lookup(Put(rows, key, value), k) == if k == key then Some(value) else Lookup(rows, k)
    ensures UniqueNames(rows) ==> UniqueNames(Put(rows, key, value))
  {
    LookupUpdate(rows, key, value, k);
    LookupAppend(rows, ConfigRow(key, value), k);
    LookupNone(rows, key);
  }

  /** What GetUint64 answers when the database works. */
  function ReadUint64(rows: seq<ConfigRow>, key: string): Result<uint64, DbError> {
    match Lookup(rows, key)
    case None => Ok(0)
    case Some(text) => ParseUint(text)
  }

  /** 0 if no row has the name, otherwise the number in the first row that has it. */
  lemma ReadMeans(rows: seq<ConfigRow>, key: string, value: string)
    ensures (forall i | 0 <= i < |rows| :: rows[i].name != key) ==> ReadUint64(rows, key) == Ok(0)
    ensures IsFirstValue(rows, key, value) ==> ReadUint64(rows, key) == ParseUint(value)
  {
    LookupNone(rows, key);
    LookupFinds(rows, key, value);
  }

  /** A SetUint64 call and the fate of its write; a call whose initial read fails is `Lost`. */
  datatype SetCall = SetCall(key: string, value: uint64, fate: Write)

  function Replay(rows: seq<ConfigRow>, calls: seq<SetCall>): seq<ConfigRow> {
    if calls == [] then rows
    else
      var last := calls[|calls| - 1];
      var before := Replay(rows, calls[..|calls| - 1]);
      if last.fate == Lost then before else Put(before, last.key, FormatUint(last.value))
  }

  function LastSet(calls: seq<SetCall>, key: string, initial: uint64): uint64 {
    if calls == [] then initial
    else
      var last := calls[|calls| - 1];
      if last.key == key && last.fate != Lost then last.value
      else LastSet(calls[..|calls| - 1], key, initial)
  }

  /** A call leaves every other name alone. */
  lemma OtherKeysStay(rows: seq<ConfigRow>, call: SetCall)
    ensures forall k :: k != call.key ==> ReadUint64(Replay(rows, [call]), k) == ReadUint64(rows, k)
  {
    assert [call][..0] == [];
    forall k | k != call.key
      ensures ReadUint64(Replay(rows, [call]), k) == ReadUint64(rows, k)
    {
      PutIsMapUpdate(rows, call.key, FormatUint(call.value), k);
    }
  }

  /** After any calls GetUint64 answers the last value written under the key, or what it
      answered before them (0 on an empty table), and a name still has at most one row. */
  lemma {:induction false} StoreRefinesMap(rows: seq<ConfigRow>, calls: seq<SetCall>, key: string)
    requires ReadUint64(rows, key).Ok?
    ensures ReadUint64(Replay(rows, calls), key) == Ok(LastSet(calls, key, ReadUint64(rows, key).value))
    ensures UniqueNames(rows) ==> UniqueNames(Replay(rows, calls))
  {
    if calls != [] {
      var last := calls[|calls| - 1];
      var rest := calls[..|calls| - 1];
      StoreRefinesMap(rows, rest, key);
      PutIsMapUpdate(Replay(rows, rest), last.key, FormatUint(last.value), key);
      FormatParse(last.value);
    }
  }

  class ConfigTable {
    var rows: seq<ConfigRow>

    constructor ()
      ensures rows == []
    {
      rows := [];
    }

    method Get(key: string, readFails: bool) returns (r: Result<string, DbError>)
      ensures readFails ==> r == Err(Failed)
      ensures !readFails && r.Ok? ==> IsFirstValue(rows, key, r.value)
      ensures !readFails && r.Err? ==> r.error == RecordNotFound && forall i | 0 <= i < |rows| :: rows[i].name != key
    {
      if readFails {
        return Err(Failed);
      }
      LookupNone(rows, key);
      match Lookup(rows, key)
      case Some(v) =>
        LookupFinds(rows, key, v);
        r := Ok(v);
      case None => r := Err(RecordNotFound);
    }

    method Set(key: string, value: string, readFails: bool, fate: Write) returns (r: Result<(), DbError>)
      modifies this
      ensures rows == if readFails || fate == Lost then old(rows) else Put(old(rows), key, value)
      ensures r.Ok? <==> !readFails && fate == Applied
    {
      var cfg := Get(key, readFails);
      LookupNone(rows, key);
      if cfg.Err? {
        if cfg.error == RecordNotFound {
          if fate != Lost {
            rows := rows + [ConfigRow(key, value)];
          }
          return if fate == Applied then Ok(()) else Err(Failed);
        }
        return Err(cfg.error);
      }
      if fate != Lost {
        rows := UpdateValue(rows, key, value);
      }
      return if fate == Applied then Ok(()) else Err(Failed);
    }

    method GetUint64(key: string, readFails: bool) returns (r: Result<uint64, DbError>)
      ensures r == if readFails then Err(Failed) else ReadUint64(rows, key)
    {
      var val := Get(key, readFails);
      LookupNone(rows, key);
      if val.Err? {
        if val.error == RecordNotFound {
          return Ok(0);
        }
        return Err(val.error);
      }
      LookupFinds(rows, key, val.value);
      return ParseUint(val.value);
    }

    method SetUint64(key: string, value: uint64, readFails: bool, fate: Write) returns (r: Result<(), DbError>)
      modifies this
      ensures rows == Replay(old(rows), [SetCall(key, value, if readFails then Lost else fate)])
      ensures r.Ok? <==> !readFails && fate == Applied
    {
      ghost var call := SetCall(key, value, if readFails then Lost else fate);
      assert [call][..0] == [];
      assert Replay(rows, []) == rows;
      r := Set(key, FormatUint(value), readFails, fate);
    }
  }
}
