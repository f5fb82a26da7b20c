/** The Bitcoin deposit table and sync point (db/repository.go). */
module BtcRepository {
  import opened Common
  import opened KeyValue
  import opened Table

  datatype BtcDeposit = BtcDeposit(
    agentId: uint64,
    receiverName: string,
    receiverAddress: string,
    amount: uint64,
    height: uint64,
    blockHash: string,
    blockTime: int)

  type BtcRow = Row<string, BtcDeposit>

  const BTC_SYNC_POINT_KEY := "submitter/btc-sync-point"
  const BATCH_HANDLE_NUM := 50
  const DEP0_AMOUNT := 400_000
  const DEP1_AMOUNT := 2_000_000
  const DEP2_AMOUNT := 10_000_000
  const DEP3_AMOUNT := 50_000_000

  // ---------------------------------------------------------------------------
  // The confirmation query.

  /** The WHERE clause, with the uint64 subtractions Go performs on the tip. */
  predicate Selected(r: BtcRow, tip: uint64) {
    && r.status == Pending
    && (|| r.data.amount < DEP0_AMOUNT
        || (r.data.amount < DEP1_AMOUNT && r.data.height <= Sub64(tip, 1))
        || (r.data.amount < DEP2_AMOUNT && r.data.height <= Sub64(tip, 2))
        || (r.data.amount < DEP3_AMOUNT && r.data.height <= Sub64(tip, 3))
        || (r.data.amount >= DEP3_AMOUNT && r.data.height <= Sub64(tip, 4)))
  }

  /** Blocks required above a deposit before it may be submitted. */
  function RequiredDepth(amount: uint64): nat {
    if amount < DEP1_AMOUNT then 1
    else if amount < DEP2_AMOUNT then 2
    else if amount < DEP3_AMOUNT then 3
    else 4
  }

  predicate DeepEnough(d: BtcDeposit, tip: uint64) {
    d.amount < DEP0_AMOUNT || d.height + RequiredDepth(d.amount) <= tip
  }

  /** The query meets the required depth on every row exactly when the tip is at least 4;
      below that the subtractions wrap and some too shallow deposit is selected. */
  lemma TierQueryIsDepth(tip: uint64)
    ensures (forall r: BtcRow :: Selected(r, tip) <==> r.status == Pending && DeepEnough(r.data, tip)) <==> tip >= 4
  {
    if tip < 4 {
      var r := Row("", BtcDeposit(0, "", "", DEP3_AMOUNT, tip, "", 0), Pending);
      assert Selected(r, tip) && !DeepEnough(r.data, tip);
    }
  }

  /** The condition in numbers: less than 0.004 BTC needs no depth, less than 0.02 one block, less than 0.1 two,
      less than 0.5 three, and more needs four. */
  lemma SelectedIff(r: BtcRow, tip: uint64)
    requires tip >= 4
    ensures Selected(r, tip) <==>
            && r.status == Pending
            && (|| r.data.amount < 400_000
                || (r.data.amount < 2_000_000 && r.data.height + 1 <= tip)
                || (2_000_000 <= r.data.amount < 10_000_000 && r.data.height + 2 <= tip)
                || (10_000_000 <= r.data.amount < 50_000_000 && r.data.height + 3 <= tip)
                || (50_000_000 <= r.data.amount && r.data.height + 4 <= tip))
  {
  }

  /** Below a tip of 4 the largest deposits are selected whatever their depth: the bound wraps. */
  lemma SelectedWrapped(r: BtcRow, tip: uint64)
    requires tip < 4 && r.status == Pending && r.data.amount >= 50_000_000
    ensures Selected(r, tip) <==> r.data.height <= tip + 0xffff_ffff_ffff_fffc
  {
  }

  /** Ripeness survives every tip increase and every amount decrease. */
  lemma RipenessIsMonotone(r: BtcRow, tip: uint64, s: BtcRow, tip2: uint64)
    requires 4 <= tip <= tip2
    requires Selected(r, tip)
    requires s.status == Pending && s.data.height == r.data.height && s.data.amount <= r.data.amount
    ensures Selected(s, tip2)
  {
    TierQueryIsDepth(tip);
    TierQueryIsDepth(tip2);
    assert DeepEnough(s.data, tip2);
  }

  /** A result the query may give: rows ascending by height, the lowest ones first, ties in
      any order, everything if fewer than the limit. */
  predicate IsBatch(t: seq<BtcRow>, tip: uint64, limit: nat, b: seq<BtcRow>) {
    && |b| <= limit
    && (forall i, j | 0 <= i < j < |b| :: b[i].key != b[j].key && b[i].data.height <= b[j].data.height)
    && (forall i | 0 <= i < |b| :: b[i] in t && Selected(b[i], tip))
    && (forall i | 0 <= i < |t| :: Selected(t[i], tip) && t[i] !in b ==>
          |b| == limit && forall j | 0 <= j < |b| :: b[j].data.height <= t[i].data.height)
  }

  lemma {:induction false} LowestLeft(t: seq<BtcRow>, tip: uint64, b: seq<BtcRow>) returns (low: nat)
    requires exists i | 0 <= i < |t| :: Selected(t[i], tip) && t[i] !in b
    ensures low < |t| && Selected(t[low], tip) && t[low] !in b
    ensures forall i | 0 <= i < |t| :: Selected(t[i], tip) && t[i] !in b ==> t[low].data.height <= t[i].data.height
  {
    var n := |t| - 1;
    if exists i | 0 <= i < n :: Selected(t[..n][i], tip) && t[..n][i] !in b {
      low := LowestLeft(t[..n], tip, b);
      assert forall i | 0 <= i < n :: t[..n][i] == t[i];
      if Selected(t[n], tip) && t[n] !in b && t[n].data.height < t[low].data.height {
        low := n;
      }
    } else {
      assert forall i | 0 <= i < n :: t[..n][i] == t[i];
      low := n;
    }
  }

  lemma {:induction false} BatchExists(t: seq<BtcRow>, tip: uint64, limit: nat) returns (b: seq<BtcRow>)
    requires Unique(t)
    ensures IsBatch(t, tip, limit, b)
  {
    if limit == 0 {
      b := [];
    } else {
      var a := BatchExists(t, tip, limit - 1);
      if exists i | 0 <= i < |t| :: Selected(t[i], tip) && t[i] !in a {
        var low := LowestLeft(t, tip, a);
        b := a + [t[low]];
        BatchExtends(t, tip, a, low);
      } else {
        b := a;
      }
    }
  }

  lemma BatchExtends(t: seq<BtcRow>, tip: uint64, a: seq<BtcRow>, low: nat)
    requires Unique(t) && IsBatch(t, tip, |a|, a)
    requires low < |t| && Selected(t[low], tip) && t[low] !in a
    requires forall i | 0 <= i < |t| :: Selected(t[i], tip) && t[i] !in a ==> t[low].data.height <= t[i].data.height
    ensures IsBatch(t, tip, |a| + 1, a + [t[low]])
  {
    var b := a + [t[low]];
    forall i | 0 <= i < |a|
      ensures a[i].key != t[low].key && a[i].data.height <= t[low].data.height
    {
      var k :| 0 <= k < |t| && t[k] == a[i];
      assert k != low;
      assert k < low || low < k;
    }
    forall i | 0 <= i < |t| && Selected(t[i], tip) && t[i] !in b
      ensures forall j | 0 <= j < |b| :: b[j].data.height <= t[i].data.height
    {
      assert t[i] !in a;
    }
  }

  /** The fate of an insert: a failed statement loses it, an empty list needs no transaction. */
  function InsertFate(rows: seq<BtcRow>, txs: seq<BtcRow>, failAt: Option<nat>, commit: Write): Write {
    if txs == [] then Applied else if Aborts(rows, txs, failAt) then Lost else commit
  }

  lemma InsertOutcome(rows: seq<BtcRow>, txs: seq<BtcRow>, failAt: Option<nat>, commit: Write)
    ensures var fate := InsertFate(rows, txs, failAt, commit);
            && (fate == Applied <==> txs == [] || (!Aborts(rows, txs, failAt) && commit == Applied))
            && (if fate == Lost then rows else InsertAll(rows, txs)) ==
               (if Aborts(rows, txs, failAt) || commit == Lost then rows else InsertAll(rows, txs))
  {
  }

  /** A status update as it was sent, and what became of it. */
  datatype StatusWrite = StatusWrite(txid: string, status: Status, fate: Write)

  class Repository {
    var rows: seq<BtcRow>
    /** The status updates so far, in order. */
    ghost var writes: seq<StatusWrite>
    const config: ConfigTable

    constructor (config: ConfigTable)
      ensures rows == [] && writes == [] && this.config == config
    {
      rows, writes := [], [];
      this.config := config;
    }

    /** The sync point row, if any, holds a number. */
    ghost predicate Valid()
      reads this, config
    {
      Unique(rows) && ReadUint64(config.rows, BTC_SYNC_POINT_KEY).Ok?
    }

    ghost function SyncPoint(): uint64
      reads this, config
      requires Valid()
    {
      ReadUint64(config.rows, BTC_SYNC_POINT_KEY).value
    }

    method UpdateSyncPoint(height: uint64, readFails: bool, fate: Write) returns (ok: bool)
      requires Valid()
      modifies config
      ensures Valid()
      ensures !readFails && fate != Lost ==> ReadUint64(config.rows, "submitter/btc-sync-point") == Ok(height)
      ensures forall k :: k != "submitter/btc-sync-point" ==>
                ReadUint64(config.rows, k) == old(ReadUint64(config.rows, k))
      ensures SyncPoint() == if readFails || fate == Lost then old(SyncPoint()) else height
      ensures ok <==> !readFails && fate == Applied
    {
      ghost var before := config.rows;
      ghost var call := SetCall(BTC_SYNC_POINT_KEY, height, if readFails then Lost else fate);
      var r := config.SetUint64(BTC_SYNC_POINT_KEY, height, readFails, fate);
      ok := r.Ok?;
      StoreRefinesMap(before, [call], BTC_SYNC_POINT_KEY);
      assert [call][..0] == [];
      OtherKeysStay(before, call);
    }

    method GetSyncPoint(readFails: bool) returns (r: Option<uint64>)
      requires Valid()
      ensures r == if readFails then None else Some(SyncPoint())
    {
      var v := config.GetUint64(BTC_SYNC_POINT_KEY, readFails);
      r := if v.Ok? then Some(v.value) else None;
    }

    /** `failAt` is the position of a statement that fails, if that many are executed;
        `commit` is the fate of the commit. Nothing happens for an empty list. */
    method InsertBtcDepositTxs(txs: seq<BtcRow>, failAt: Option<nat>, commit: Write) returns (ok: bool)
      requires Valid()
      modifies this`rows
      ensures Valid()
      ensures rows == if Aborts(old(rows), txs, failAt) || commit == Lost
                      then old(rows) else InsertAll(old(rows), txs)
      ensures ok <==> txs == [] || (!Aborts(old(rows), txs, failAt) && commit == Applied)
    {
      if |txs| == 0 {
        return true;
      }
      var dbtx := InsertTransaction(rows, txs, failAt);
      if dbtx.None? {
        return false;
      }
      InsertKeepsUnique(rows, txs);
      if commit != Lost {
        rows := dbtx.value;
      }
      ok := commit == Applied;
    }

    method GetUnhandledBtcDepositTxs(tip: uint64) returns (txs: seq<BtcRow>)
      requires Valid()
      ensures IsBatch(rows, tip, BATCH_HANDLE_NUM, txs)
      ensures |txs| <= 50 && (forall i, j | 0 <= i < j < |txs| :: txs[i].data.height <= txs[j].data.height)
      ensures forall r | r in txs :: r in rows && Selected(r, tip)
      ensures forall r | r in rows && r !in txs && Selected(r, tip) ::
                |txs| == 50 && forall i | 0 <= i < 50 :: txs[i].data.height <= r.data.height
    {
      ghost var some := BatchExists(rows, tip, BATCH_HANDLE_NUM);
      txs :| IsBatch(rows, tip, BATCH_HANDLE_NUM, txs);
    }

    method UpdateTxStatus(txid: string, status: Status, fate: Write) returns (ok: bool)
      requires Valid()
      modifies this
      ensures Valid()
      ensures rows == if fate == Lost then old(rows) else SetStatus(old(rows), txid, status)
      ensures writes == old(writes) + [StatusWrite(txid, status, fate)]
      ensures ok <==> fate == Applied
    {
      writes := writes + [StatusWrite(txid, status, fate)];
      if fate != Lost {
        rows := SetStatus(rows, txid, status);
      }
      ok := fate == Applied;
    }
  }
}
