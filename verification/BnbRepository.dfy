/** The wrapped-BTC deposit table and its sync point (db/bnb_repository.go). */
module BnbRepository {
  import opened Common
  import opened KeyValue
  import opened Table

  datatype ChainTxid = ChainTxid(chain: string, txid: string)

  datatype BnbDeposit = BnbDeposit(height: uint64, blockHash: string, blockTime: int, receipt: string, proof: string)

  type BnbRow = Row<ChainTxid, BnbDeposit>

  const BNB_SYNC_POINT_KEY := "submitter/bnb-sync-point"

  /** The WHERE clause; it does not mention the chain. */
  predicate Unhandled(r: BnbRow, tip: uint64) {
    r.status == Pending && r.data.height <= tip
  }

  /** A result the query may give: all unhandled rows, ascending by height, ties in any order. */
  predicate IsUnhandledList(t: seq<BnbRow>, tip: uint64, b: seq<BnbRow>) {
    && (forall i, j | 0 <= i < j < |b| :: b[i].key != b[j].key && b[i].data.height <= b[j].data.height)
    && (forall i | 0 <= i < |b| :: b[i] in t && Unhandled(b[i], tip))
    && (forall i | 0 <= i < |t| :: Unhandled(t[i], tip) ==> t[i] in b)
  }

  /** The list holds exactly the pending rows at or below the tip, of every chain. */
  lemma UnhandledListIs(t: seq<BnbRow>, tip: uint64, b: seq<BnbRow>, r: BnbRow)
    requires IsUnhandledList(t, tip, b)
    ensures r in b <==> r in t && r.status == Pending && r.data.height <= tip
  {
  }

  /** Insert a row behind the rows at or below its height. */
  function Place(r: BnbRow, b: seq<BnbRow>): seq<BnbRow> {
    if b == [] || b[|b| - 1].data.height <= r.data.height then b + [r]
    else Place(r, b[..|b| - 1]) + [b[|b| - 1]]
  }

  lemma {:induction false} PlaceMembers(r: BnbRow, b: seq<BnbRow>, x: BnbRow)
    ensures x in Place(r, b) <==> x == r || x in b
  {
    if !(b == [] || b[|b| - 1].data.height <= r.data.height) {
      PlaceMembers(r, b[..|b| - 1], x);
      assert b == b[..|b| - 1] + [b[|b| - 1]];
    }
  }

  ghost predicate Ordered(b: seq<BnbRow>) {
    forall i, j | 0 <= i < j < |b| :: b[i].key != b[j].key && b[i].data.height <= b[j].data.height
  }

  lemma {:induction false} PlaceKeepsOrder(r: BnbRow, b: seq<BnbRow>)
    requires Ordered(b) && forall x | x in b :: x.key != r.key
    ensures Ordered(Place(r, b))
  {
    if !(b == [] || b[|b| - 1].data.height <= r.data.height) {
      var n := |b| - 1;
      PlaceKeepsOrder(r, b[..n]);
      forall i | 0 <= i < |Place(r, b[..n])|
        ensures Place(r, b[..n])[i].key != b[n].key && Place(r, b[..n])[i].data.height <= b[n].data.height
      {
        PlaceMembers(r, b[..n], Place(r, b[..n])[i]);
      }
    }
  }

  lemma PlaceExtends(t: seq<BnbRow>, tip: uint64, a: seq<BnbRow>, r: BnbRow)
    requires Unique(t + [r]) && IsUnhandledList(t, tip, a) && Unhandled(r, tip)
    ensures IsUnhandledList(t + [r], tip, Place(r, a))
  {
    var u, b := t + [r], Place(r, a);
    forall x ensures x in b <==> x == r || x in a {
      PlaceMembers(r, a, x);
    }
    forall x | x in a
      ensures x.key != r.key && x in u
    {
      assert x in t;
      var j :| 0 <= j < |t| && t[j] == x;
      assert u[j] == x && u[|t|] == r;
    }
    PlaceKeepsOrder(r, a);
  }

  lemma {:induction false} UnhandledListExists(t: seq<BnbRow>, tip: uint64) returns (b: seq<BnbRow>)
    requires Unique(t)
    ensures IsUnhandledList(t, tip, b)
  {
    if t == [] {
      b := [];
    } else {
      var n := |t| - 1;
      var a := UnhandledListExists(t[..n], tip);
      assert t == t[..n] + [t[n]];
      if Unhandled(t[n], tip) {
        PlaceExtends(t[..n], tip, a, t[n]);
        b := Place(t[n], a);
      } else {
        b := a;
        assert forall x | x in a :: x in t[..n] && x in t;
      }
    }
  }

  /** A status update as it was sent, and what became of it. */
  datatype StatusWrite = StatusWrite(txid: string, status: Status, fate: Write)

  class Repository {
    var rows: seq<BnbRow>
    /** The status updates so far, in order. */
    ghost var writes: seq<StatusWrite>
    const chainName: string
    const config: ConfigTable

    constructor (chainName: string, config: ConfigTable)
      ensures rows == [] && writes == [] && this.chainName == chainName && this.config == config
    {
      rows, writes := [], [];
      this.chainName := chainName;
      this.config := config;
    }

    ghost predicate Valid()
      reads this, config
    {
      Unique(rows) && ReadUint64(config.rows, BNB_SYNC_POINT_KEY).Ok?
    }

    ghost function SyncPoint(): uint64
      reads this, config
      requires Valid()
    {
      ReadUint64(config.rows, BNB_SYNC_POINT_KEY).value
    }

    method UpdateSyncPoint(height: uint64, readFails: bool, fate: Write) returns (ok: bool)
      requires Valid()
      modifies config
      ensures Valid()
      ensures !readFails && fate != Lost ==> ReadUint64(config.rows, "submitter/bnb-sync-point") == Ok(height)
      ensures forall k :: k != "submitter/bnb-sync-point" ==>
                ReadUint64(config.rows, k) == old(ReadUint64(config.rows, k))
      ensures SyncPoint() == if readFails || fate == Lost then old(SyncPoint()) else height
      ensures ok <==> !readFails && fate == Applied
    {
      ghost var before := config.rows;
      ghost var call := SetCall(BNB_SYNC_POINT_KEY, height, if readFails then Lost else fate);
      var r := config.SetUint64(BNB_SYNC_POINT_KEY, height, readFails, fate);
      ok := r.Ok?;
      StoreRefinesMap(before, [call], BNB_SYNC_POINT_KEY);
      assert [call][..0] == [];
      OtherKeysStay(before, call);
    }

    method GetSyncPoint(readFails: bool) returns (r: Option<uint64>)
      requires Valid()
      ensures r == if readFails then None else Some(SyncPoint())
    {
      var v := config.GetUint64(BNB_SYNC_POINT_KEY, readFails);
      r := if v.Ok? then Some(v.value) else None;
    }

    method InsertWrappedBTCDepositTxs(txs: seq<BnbRow>, failAt: Option<nat>, commit: Write) returns (ok: bool)
      requires Valid()
      modifies this`rows
      ensures Valid()
      ensures rows == if Aborts(old(rows), txs, failAt) || commit == Lost then old(rows) else InsertAll(old(rows), txs)
      ensures ok <==> !Aborts(old(rows), txs, failAt) && commit == Applied
    {
      var dbtx := InsertTransaction(rows, txs, failAt);
      if dbtx.None? {
        return false;
      }
      InsertKeepsUnique(rows, txs);
      if commit != Lost {
        rows := dbtx.value;
      }
      ok := commit == Applied;
    }

    method GetUnhandledWrappedBTCDepositTxs(tip: uint64) returns (txs: seq<BnbRow>)
      requires Valid()
      ensures IsUnhandledList(rows, tip, txs)
      ensures forall r :: r in txs <==> r in rows && r.status == Pending && r.data.height <= tip
      ensures forall i, j | 0 <= i < j < |txs| :: txs[i].data.height <= txs[j].data.height
    {
      ghost var some := UnhandledListExists(rows, tip);
      txs :| IsUnhandledList(rows, tip, txs);
    }

    /** MarkSuccess and MarkInvalid; unlike the query they name the chain. */
    method Mark(txid: string, status: Status, fate: Write) returns (ok: bool)
      requires Valid()
      modifies this
      ensures Valid()
      ensures rows == if fate == Lost then old(rows) else SetStatus(old(rows), ChainTxid(chainName, txid), status)
      ensures writes == old(writes) + [StatusWrite(txid, status, fate)]
      ensures ok <==> fate == Applied
    {
      writes := writes + [StatusWrite(txid, status, fate)];
      if fate != Lost {
        rows := SetStatus(rows, ChainTxid(chainName, txid), status);
      }
      ok := fate == Applied;
    }
  }
}
