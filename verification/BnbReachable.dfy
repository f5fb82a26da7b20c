/** A run from a first installation that invalidates a minted BNB transaction: Lorenzo refuses it,
    another relayer mints it before the refusal is written, and then it is written. */
module BnbReachable {
  import opened Common
  import opened Table
  import opened BnbRepository
  import opened StakePlan
  import opened BnbProtocol

  const RECEIPT := Receipt([], [], 1, [])
  const ENTRY := ReceiptWithProof(0, RECEIPT, [])
  const CHAIN := Chain(
    (height: uint64) => if height == 1 then [StakeEvent([], [])] else [],
    (blockHash: Hash) => [RECEIPT],
    (blockHash: Hash) => 0,
    (r: Receipt, rs: seq<Receipt>) => Some([]))
  const CONFIG := Config(CHAIN, 0)
  const ROW := ToRow(CHAIN_NAME, ENTRY)
  const WINDOW := Window(1, 1, 1)
  const REFUSAL := ""
  const START := State(false, [], 0, {}, ScanIdle, [], AtHead, 0, [], {})
  const SCANNED := State(true, [ROW], 1, {}, ScanIdle, [], AtHead, 0, [WINDOW], {})

  /** The window holds one event, and its receipt is served. */
  lemma OneReceipt()
    ensures IsReceiptList(CHAIN, EventsIn(CHAIN, 1, 1), [ENTRY])
  {
    var events := EventsIn(CHAIN, 1, 1);
    assert EventsIn(CHAIN, 1, 0) == [];
    assert events == [StakeEvent([], [])];
    assert events[0].txHash == [];
    assert FindReceipt([RECEIPT], []) == Some(RECEIPT);
    assert EntryOf(CHAIN, BlockOf(events, []), []) == Some(ENTRY);
    assert [ENTRY][0].receipt.txHash == events[0].txHash;
  }

  const BOOTED := START.(up := true)
  const FETCHED := BOOTED.(scan := Fetched(WINDOW, [ENTRY]))
  const STORED := FETCHED.(table := [ROW], scan := Stored(WINDOW))
  const SCAN_RUN := [Boot(0, Applied), Fetch(1, [ENTRY]), Event.Insert(Applied), Advance(Applied)]

  lemma Fetches()
    ensures Step(CONFIG, BOOTED, Fetch(1, [ENTRY])) == Some(FETCHED)
  {
    OneReceipt();
    WindowIsExact(0, 1, 0);
  }

  lemma Inserts()
    ensures Step(CONFIG, FETCHED, Event.Insert(Applied)) == Some(STORED)
  {
    assert ToRows(CHAIN_NAME, [ENTRY]) == [ROW];
    assert InsertAll([], [ROW]) == [ROW] by {
      assert [ROW][..0] == [];
      assert InsertAll([], [ROW][..0]) == [];
    }
  }

  lemma Advances()
    ensures Step(CONFIG, STORED, Advance(Applied)) == Some(SCANNED)
  {
    assert [] + [WINDOW] == [WINDOW];
  }

  lemma ScanRunReaches()
    ensures Exec(CONFIG, START, SCAN_RUN) == Some(SCANNED)
  {
    assert Step(CONFIG, START, Boot(0, Applied)) == Some(BOOTED);
    Fetches();
    Inserts();
    Advances();
    PathRuns(CONFIG, [START, BOOTED, FETCHED, STORED, SCANNED], SCAN_RUN);
  }

  const SELECTED := SCANNED.(batch := [ROW])
  const REFUSED := SELECTED.(stage := Marking(Invalid), rejected := {(ROW.key.txid, REFUSAL)})
  const MINTED := REFUSED.(minted := {ROW.key.txid})
  const INVALIDATED := MINTED.(batch := [], stage := AtHead, table := [ROW.(status := Invalid)])
  const SUBMIT_RUN := [Select(1, [ROW]), Create(false, Some(REFUSAL)), MintElsewhere(ROW.key.txid), Mark(Applied)]

  lemma Selects()
    ensures Step(CONFIG, SCANNED, Select(1, [ROW])) == Some(SELECTED)
  {
    assert SCANNED.table[0] in [ROW];
    assert IsUnhandledList([ROW], 1, [ROW]);
  }

  lemma Refuses()
    ensures Step(CONFIG, SELECTED, Create(false, Some(REFUSAL))) == Some(REFUSED)
  {
    WrittenDecodes(CHAIN_NAME, ENTRY);
    assert IsRefusal(REFUSAL);
    assert {} + {(ROW.key.txid, REFUSAL)} == {(ROW.key.txid, REFUSAL)};
  }

  lemma Invalidates()
    ensures Step(CONFIG, MINTED, Mark(Applied)) == Some(INVALIDATED)
  {
    assert SetStatus([ROW], ROW.key, Invalid) == [ROW.(status := Invalid)] && [ROW][1..] == [];
  }

  lemma SubmitRunReaches()
    ensures Exec(CONFIG, SCANNED, SUBMIT_RUN) == Some(INVALIDATED)
  {
    Selects();
    Refuses();
    assert {} + {ROW.key.txid} == {ROW.key.txid};
    Invalidates();
    PathRuns(CONFIG, [SCANNED, SELECTED, REFUSED, MINTED, INVALIDATED], SUBMIT_RUN);
  }

  /** The failing states of MintedInvalidIff are reached from a first installation. */
  lemma MintedInvalidIsReachable()
    ensures Init(START)
    ensures var t := Exec(CONFIG, START, SCAN_RUN + SUBMIT_RUN);
            t.Some? && ROW.key.txid in t.value.minted && IsInvalid(t.value.table, ROW.key.txid)
  {
    ScanRunReaches();
    SubmitRunReaches();
    ExecAppend(CONFIG, START, SCAN_RUN, SUBMIT_RUN);
    assert INVALIDATED.table[0].key == ROW.key && INVALIDATED.table[0].status == Invalid;
  }
}
