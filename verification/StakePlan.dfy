/** From stake events to deposit rows: receipt collection (bnbclient/stake_plan.go) and the
    conversion of the receipt list (txrelayer/bnb_txrelayer.go). */
module StakePlan {
  import opened Common
  import opened Table
  import opened BnbRepository
  import opened Hex

  type Hash = seq<byte>

  datatype StakeEvent = StakeEvent(txHash: Hash, blockHash: Hash)

  /** A receipt with its RLP encoding. */
  datatype Receipt = Receipt(txHash: Hash, blockHash: Hash, blockNumber: uint64, raw: seq<byte>)

  datatype ReceiptWithProof = ReceiptWithProof(blockTime: int, receipt: Receipt, proof: seq<byte>)

  /** The confirmed part of the BNB chain: stake events by height, receipts and time by block
      hash, and the proof library, which may reject a receipt. */
  datatype Chain = Chain(
    events: uint64 -> seq<StakeEvent>,
    receipts: Hash -> seq<Receipt>,
    blockTime: Hash -> int,
    prove: (Receipt, seq<Receipt>) -> Option<seq<byte>>)

  // ---------------------------------------------------------------------------
  // Specification.

  predicate Mentions(events: seq<StakeEvent>, txHash: Hash) {
    exists i | 0 <= i < |events| :: events[i].txHash == txHash
  }

  /** The block hash of the last event of the transaction: later map writes win. */
  function BlockOf(events: seq<StakeEvent>, txHash: Hash): Hash
    requires Mentions(events, txHash)
  {
    var n := |events| - 1;
    if events[n].txHash == txHash then events[n].blockHash
    else
      assert Mentions(events[..n], txHash) by {
        var i :| 0 <= i < |events| && events[i].txHash == txHash;
        assert events[..n][i].txHash == txHash;
      }
      BlockOf(events[..n], txHash)
  }

  /** It is the hash of some event of the transaction, and no later event of it exists. */
  lemma {:induction false} BlockOfIsLast(events: seq<StakeEvent>, txHash: Hash) returns (i: nat)
    requires Mentions(events, txHash)
    ensures i < |events| && events[i] == StakeEvent(txHash, BlockOf(events, txHash))
    ensures forall j | i < j < |events| :: events[j].txHash != txHash
  {
    var n := |events| - 1;
    if events[n].txHash == txHash {
      i := n;
    } else {
      var front := events[..n];
      var k :| 0 <= k < |events| && events[k].txHash == txHash;
      assert front[k].txHash == txHash;
      i := BlockOfIsLast(front, txHash);
      assert forall j | i < j < n :: events[j] == front[j];
    }
  }

  function FindReceipt(receipts: seq<Receipt>, txHash: Hash): (r: Option<Receipt>)
    ensures r.Some? ==> exists i | 0 <= i < |receipts| ::
              && r.value == receipts[i] && receipts[i].txHash == txHash
              && forall j | 0 <= j < i :: receipts[j].txHash != txHash
    ensures r.None? ==> forall i | 0 <= i < |receipts| :: receipts[i].txHash != txHash
  {
    if receipts == [] then None
    else if receipts[0].txHash == txHash then Some(receipts[0])
    else FindReceipt(receipts[1..], txHash)
  }

  /** The list entry of a transaction, if its block has its receipt and the receipt can be proved. */
  function EntryOf(c: Chain, blockHash: Hash, txHash: Hash): (r: Option<ReceiptWithProof>)
    ensures r.Some? ==> r.value.receipt.txHash == txHash && r.value.receipt in c.receipts(blockHash)
  {
    var receipt := FindReceipt(c.receipts(blockHash), txHash);
    if receipt.None? then None
    else
      var proof := c.prove(receipt.value, c.receipts(blockHash));
      if proof.None? then None
      else Some(ReceiptWithProof(c.blockTime(blockHash), receipt.value, proof.value))
  }

  /** A correct answer: one entry per distinct transaction hash, in any order. */
  predicate IsReceiptList(c: Chain, events: seq<StakeEvent>, l: seq<ReceiptWithProof>) {
    && (forall i, j | 0 <= i < j < |l| :: l[i].receipt.txHash != l[j].receipt.txHash)
    && (forall i | 0 <= i < |l| ::
          && Mentions(events, l[i].receipt.txHash)
          && EntryOf(c, BlockOf(events, l[i].receipt.txHash), l[i].receipt.txHash) == Some(l[i]))
    && (forall k | 0 <= k < |events| :: HasEntry(l, events[k].txHash))
  }

  predicate HasEntry(l: seq<ReceiptWithProof>, txHash: Hash) {
    exists i | 0 <= i < |l| :: l[i].receipt.txHash == txHash
  }

  /** What an entry holds: the receipt of its transaction from the block of the last event, the proof of that
      receipt against all receipts of the block, and the time of the block. */
  lemma EntryHolds(c: Chain, events: seq<StakeEvent>, l: seq<ReceiptWithProof>, i: nat)
    requires IsReceiptList(c, events, l) && i < |l|
    ensures Mentions(events, l[i].receipt.txHash)
    ensures var b := BlockOf(events, l[i].receipt.txHash);
            && l[i].receipt in c.receipts(b)
            && c.prove(l[i].receipt, c.receipts(b)) == Some(l[i].proof)
            && l[i].blockTime == c.blockTime(b)
  {
  }

  /** An entry is missing only if its block lacks the receipt or the library rejects it. */
  lemma EntryMissing(c: Chain, blockHash: Hash, txHash: Hash)
    ensures EntryOf(c, blockHash, txHash).None? <==>
            FindReceipt(c.receipts(blockHash), txHash).None?
            || c.prove(FindReceipt(c.receipts(blockHash), txHash).value, c.receipts(blockHash)).None?
  {
  }

  /** What a row holds, column by column; hashes, receipt and proof as hexadecimal text. */
  lemma RowColumns(chainName: string, r: ReceiptWithProof)
    ensures var row := ToRow(chainName, r);
            && row.key.chain == chainName && Decode(row.key.txid) == Ok(r.receipt.txHash)
            && row.data.height == r.receipt.blockNumber && Decode(row.data.blockHash) == Ok(r.receipt.blockHash)
            && row.data.blockTime == r.blockTime && row.status == Pending
            && Decode(row.data.receipt) == Ok(r.receipt.raw) && Decode(row.data.proof) == Ok(r.proof)
  {
    EncodeDecode(r.receipt.txHash);
    EncodeDecode(r.receipt.blockHash);
    EncodeDecode(r.receipt.raw);
    EncodeDecode(r.proof);
  }

  function ToRow(chainName: string, r: ReceiptWithProof): BnbRow {
    Row(ChainTxid(chainName, Encode(r.receipt.txHash)),
        BnbDeposit(r.receipt.blockNumber, Encode(r.receipt.blockHash), r.blockTime,
                   Encode(r.receipt.raw), Encode(r.proof)),
        Pending)
  }

  function ToRows(chainName: string, l: seq<ReceiptWithProof>): (rows: seq<BnbRow>)
    ensures |rows| == |l|
    ensures forall i | 0 <= i < |l| :: rows[i] == ToRow(chainName, l[i])
  {
    seq(|l|, i requires 0 <= i < |l| => ToRow(chainName, l[i]))
  }

  // ---------------------------------------------------------------------------
  // Consequences.

  lemma RowsAreUnique(c: Chain, events: seq<StakeEvent>, l: seq<ReceiptWithProof>, chainName: string)
    requires IsReceiptList(c, events, l)
    ensures Unique(ToRows(chainName, l)) && AllPending(ToRows(chainName, l))
  {
    forall i, j | 0 <= i < j < |l|
      ensures Encode(l[i].receipt.txHash) != Encode(l[j].receipt.txHash)
    {
      EncodeDecode(l[i].receipt.txHash);
      EncodeDecode(l[j].receipt.txHash);
    }
  }

  lemma SameEntries(c: Chain, events: seq<StakeEvent>, a: seq<ReceiptWithProof>, b: seq<ReceiptWithProof>, i: nat)
    requires IsReceiptList(c, events, a) && IsReceiptList(c, events, b) && i < |a|
    ensures a[i] in b
  {
    assert Mentions(events, a[i].receipt.txHash);
    var k :| 0 <= k < |events| && events[k].txHash == a[i].receipt.txHash;
    assert HasEntry(b, events[k].txHash);
    var j :| 0 <= j < |b| && b[j].receipt.txHash == a[i].receipt.txHash;
    assert b[j] == a[i];
  }

  lemma {:induction false} UniqueCount(ds: seq<BnbRow>, r: BnbRow)
    requires Unique(ds)
    ensures multiset(ds)[r] == if r in ds then 1 else 0
  {
    if ds != [] {
      var n := |ds| - 1;
      UniqueCount(ds[..n], r);
      assert ds == ds[..n] + [ds[n]];
      assert ds[n] !in ds[..n];
    }
  }

  lemma SameRows(c: Chain, events: seq<StakeEvent>, a: seq<ReceiptWithProof>, b: seq<ReceiptWithProof>,
                 chainName: string)
    requires IsReceiptList(c, events, a) && IsReceiptList(c, events, b)
    ensures multiset(ToRows(chainName, a)) == multiset(ToRows(chainName, b))
  {
    RowsAreUnique(c, events, a, chainName);
    RowsAreUnique(c, events, b, chainName);
    forall r: BnbRow
      ensures multiset(ToRows(chainName, a))[r] == multiset(ToRows(chainName, b))[r]
    {
      UniqueCount(ToRows(chainName, a), r);
      UniqueCount(ToRows(chainName, b), r);
      RowIn(c, events, a, b, chainName, r);
      RowIn(c, events, b, a, chainName, r);
    }
    MultisetExtensional(multiset(ToRows(chainName, a)), multiset(ToRows(chainName, b)));
  }

  lemma RowIn(c: Chain, events: seq<StakeEvent>, a: seq<ReceiptWithProof>, b: seq<ReceiptWithProof>,
              chainName: string, r: BnbRow)
    requires IsReceiptList(c, events, a) && IsReceiptList(c, events, b)
    ensures r in ToRows(chainName, a) ==> r in ToRows(chainName, b)
  {
    if r in ToRows(chainName, a) {
      var i :| 0 <= i < |a| && ToRows(chainName, a)[i] == r;
      SameEntries(c, events, a, b, i);
      var j :| 0 <= j < |b| && b[j] == a[i];
      assert ToRows(chainName, b)[j] == r;
    }
  }

  /** The map iteration order does not matter: any two answers for the same events leave the
      table with the same rows, row ids apart. */
  lemma IterationOrderIrrelevant(c: Chain, events: seq<StakeEvent>, a: seq<ReceiptWithProof>, b: seq<ReceiptWithProof>,
                                 chainName: string, t: seq<BnbRow>)
    requires IsReceiptList(c, events, a) && IsReceiptList(c, events, b)
    ensures multiset(InsertAll(t, ToRows(chainName, a))) == multiset(InsertAll(t, ToRows(chainName, b)))
  {
    RowsAreUnique(c, events, a, chainName);
    RowsAreUnique(c, events, b, chainName);
    SameRows(c, events, a, b, chainName);
    InsertOrderIrrelevant(t, ToRows(chainName, a), ToRows(chainName, b));
  }

  /** Every event of the window has its row in the list. */
  lemma EventHasRow(c: Chain, events: seq<StakeEvent>, l: seq<ReceiptWithProof>, chainName: string, k: nat)
    requires IsReceiptList(c, events, l) && k < |events|
    ensures Has(ToRows(chainName, l), ChainTxid(chainName, Encode(events[k].txHash)))
  {
    assert HasEntry(l, events[k].txHash);
    var i :| 0 <= i < |l| && l[i].receipt.txHash == events[k].txHash;
    assert ToRows(chainName, l)[i].key == ChainTxid(chainName, Encode(events[k].txHash));
  }

  // ---------------------------------------------------------------------------
  // The loops.

  /** The map from transaction to block hash. */
  method CollectBlockHashes(events: seq<StakeEvent>) returns (m: map<Hash, Hash>)
    ensures IsBlockMap(events, m)
  {
    m := map[];
    for i := 0 to |events|
      invariant IsBlockMap(events[..i], m)
    {
      CollectStep(events, i);
      m := m[events[i].txHash := events[i].blockHash];
    }
    assert events[..|events|] == events;
  }

  lemma CollectStep(events: seq<StakeEvent>, i: nat)
    requires i < |events|
    ensures forall k :: Mentions(events[..i + 1], k) <==> k == events[i].txHash || Mentions(events[..i], k)
    ensures forall k | Mentions(events[..i + 1], k) ::
              BlockOf(events[..i + 1], k) ==
              if k == events[i].txHash then events[i].blockHash else BlockOf(events[..i], k)
  {
    var a, b := events[..i], events[..i + 1];
    assert b[..i] == a && b[i] == events[i];
    forall k
      ensures Mentions(b, k) <==> k == events[i].txHash || Mentions(a, k)
    {
      if Mentions(a, k) {
        var j :| 0 <= j < |a| && a[j].txHash == k;
        assert b[j].txHash == k;
      }
      if k == events[i].txHash {
        assert b[i].txHash == k;
      }
      if Mentions(b, k) {
        var j :| 0 <= j < |b| && b[j].txHash == k;
        assert j < i ==> a[j].txHash == k;
      }
    }
    forall k | Mentions(b, k)
      ensures BlockOf(b, k) == if k == events[i].txHash then events[i].blockHash else BlockOf(a, k)
    {
      assert b[..|b| - 1] == a;
    }
  }

  /** The receipt search with break. */
  method SearchReceipt(receipts: seq<Receipt>, txHash: Hash) returns (receipt: Option<Receipt>)
    ensures receipt == FindReceipt(receipts, txHash)
  {
    receipt := None;
    for i := 0 to |receipts|
      invariant receipt.None? && FindReceipt(receipts, txHash) == FindReceipt(receipts[i..], txHash)
    {
      if receipts[i].txHash == txHash {
        receipt := Some(receipts[i]);
        break;
      }
    }
  }

  /** Every event's block answers, has the receipt and proves it. */
  ghost predicate AllServed(c: Chain, events: seq<StakeEvent>, fails: Hash -> bool) {
    forall k | 0 <= k < |events| ::
      var b := BlockOf(events, events[k].txHash); !fails(b) && EntryOf(c, b, events[k].txHash).Some?
  }

  /** GetStakeBTC2JoinStakePlanReceiptsWithProof on the events of the window. `fails` are the block
      hashes whose queries fail this time; the map is read in an arbitrary order. */
  method GetReceiptsWithProof(c: Chain, events: seq<StakeEvent>, fails: Hash -> bool)
    returns (r: Option<seq<ReceiptWithProof>>)
    ensures r.Some? ==> IsReceiptList(c, events, r.value)
    ensures r.Some? <==> AllServed(c, events, fails)
  {
    var m := CollectBlockHashes(events);
    var remaining := m.Keys;
    var list: seq<ReceiptWithProof> := [];
    while remaining != {}
      invariant Collected(c, m, remaining, list, fails)
      decreases |remaining|
    {
      var txHash :| txHash in remaining;
      var entry := FetchEntry(c, m[txHash], txHash, fails(m[txHash]));
      if entry.None? {
        assert Mentions(events, txHash);
        return None;
      }
      CollectedStep(c, m, remaining, list, fails, txHash, entry.value);
      list := list + [entry.value];
      remaining := remaining - {txHash};
    }
    ReceiptsComplete(c, events, m, list, fails);
    forall k | 0 <= k < |events| {
      EventServed(c, events, m, list, fails, k);
    }
    r := Some(list);
  }

  /** The entries gathered so far: one for each key already visited, each without a failed query. */
  ghost predicate Collected(c: Chain, m: map<Hash, Hash>, remaining: set<Hash>, list: seq<ReceiptWithProof>,
                            fails: Hash -> bool) {
    && remaining <= m.Keys
    && (forall i, j | 0 <= i < j < |list| :: list[i].receipt.txHash != list[j].receipt.txHash)
    && (forall i | 0 <= i < |list| ::
          && list[i].receipt.txHash in m.Keys - remaining
          && EntryOf(c, m[list[i].receipt.txHash], list[i].receipt.txHash) == Some(list[i]))
    && (forall k | k in m.Keys - remaining :: HasEntry(list, k) && !fails(m[k]))
  }

  lemma CollectedStep(c: Chain, m: map<Hash, Hash>, remaining: set<Hash>, list: seq<ReceiptWithProof>,
                      fails: Hash -> bool, txHash: Hash, entry: ReceiptWithProof)
    requires Collected(c, m, remaining, list, fails) && txHash in remaining
    requires EntryOf(c, m[txHash], txHash) == Some(entry) && !fails(m[txHash])
    ensures Collected(c, m, remaining - {txHash}, list + [entry], fails)
  {
    var longer := list + [entry];
    forall k | k in m.Keys - (remaining - {txHash})
      ensures HasEntry(longer, k) && !fails(m[k])
    {
      if k == txHash {
        assert longer[|list|].receipt.txHash == k;
      } else {
        var i :| 0 <= i < |list| && list[i].receipt.txHash == k;
        assert longer[i].receipt.txHash == k;
      }
    }
  }

  ghost predicate IsBlockMap(events: seq<StakeEvent>, m: map<Hash, Hash>) {
    && (forall k :: k in m <==> Mentions(events, k))
    && (forall k | k in m :: m[k] == BlockOf(events, k))
  }

  lemma EventServed(c: Chain, events: seq<StakeEvent>, m: map<Hash, Hash>, list: seq<ReceiptWithProof>,
                    fails: Hash -> bool, k: nat)
    requires Collected(c, m, {}, list, fails) && IsBlockMap(events, m) && k < |events|
    ensures HasEntry(list, events[k].txHash)
    ensures !fails(BlockOf(events, events[k].txHash))
    ensures EntryOf(c, BlockOf(events, events[k].txHash), events[k].txHash).Some?
  {
    var h := events[k].txHash;
    assert h in m.Keys - {};
    var i :| 0 <= i < |list| && list[i].receipt.txHash == h;
  }

  lemma ReceiptsComplete(c: Chain, events: seq<StakeEvent>, m: map<Hash, Hash>, list: seq<ReceiptWithProof>,
                         fails: Hash -> bool)
    requires Collected(c, m, {}, list, fails) && IsBlockMap(events, m)
    ensures IsReceiptList(c, events, list)
  {
    forall k | 0 <= k < |events|
      ensures HasEntry(list, events[k].txHash)
    {
      EventServed(c, events, m, list, fails, k);
    }
  }

  method FetchEntry(c: Chain, blockHash: Hash, txHash: Hash, fails: bool) returns (entry: Option<ReceiptWithProof>)
    ensures entry == if fails then None else EntryOf(c, blockHash, txHash)
  {
    if fails {
      return None;
    }
    var receipts := c.receipts(blockHash);
    var receipt := SearchReceipt(receipts, txHash);
    if receipt.None? {
      return None;
    }
    var proof := c.prove(receipt.value, receipts);
    if proof.None? {
      return None;
    }
    entry := Some(ReceiptWithProof(c.blockTime(blockHash), receipt.value, proof.value));
  }

  method ToWrappedBTCDepositTxList(chainName: string, l: seq<ReceiptWithProof>) returns (rows: seq<BnbRow>)
    ensures rows == ToRows(chainName, l)
  {
    rows := [];
    for i := 0 to |l|
      invariant |rows| == i && forall j | 0 <= j < i :: rows[j] == ToRow(chainName, l[j])
    {
      rows := rows + [ToRow(chainName, l[i])];
    }
  }
}
