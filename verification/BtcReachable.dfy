/** A run from a first installation that gives up a minted Bitcoin transaction: another relayer mints
    it between the record check and the build of the message, and then the build fails. */
module BtcReachable {
  import opened Common
  import opened Table
  import opened BtcRepository
  import opened BtcUtils
  import opened BlockScan
  import opened BtcProtocol

  const TXID := "t"
  const ADDRESS := "a"
  const SCRIPT: Script := []
  const ROSTER := [Agent(1, "", ADDRESS, "0x0")]
  const OUT := TxOut(1, SCRIPT)
  const BLOCK := MsgBlock("", 0, [MsgTx(TXID, [OUT])])
  const CHAIN := Chain(
    (height: uint64) => BLOCK,
    (s: Script) => if s == SCRIPT then Some(ADDRESS) else None,
    (a: string) => if a == ADDRESS then Some(SCRIPT) else None,
    (txid: string) => [])
  const CONFIG := Config(CHAIN, 0)
  const ROW := DepositRow(ROSTER[0], 1, 1, BLOCK, TXID)
  const START := State(false, [], 0, [], {}, ScanIdle, [], AtHead, 0, map[])
  const SCANNED := State(true, [ROW], 1, ROSTER, {}, ScanIdle, [], AtHead, 0, map[1 := ROSTER])

  /** The one transaction of the block is a deposit. */
  lemma OneDeposit()
    ensures BlockDeposits(CHAIN, ROSTER, 1) == Some([ROW])
  {
    assert AgentByAddress(ROSTER, ADDRESS) == Some(ROSTER[0]);
    assert PaysAgent(CHAIN, ROSTER, OUT);
    assert FirstAgentOutput(CHAIN, ROSTER, [OUT], 0) == Some(0);
    assert PaidTo([OUT], SCRIPT) == 1 by {
      assert [OUT][..0] == [];
      assert PaidTo([], SCRIPT) == 0;
    }
    assert CHAIN.block(1) == BLOCK && BLOCK.transactions[0].outs == [OUT];
    var vs := Verdicts(CHAIN, ROSTER, 1, BLOCK);
    assert Payment(CHAIN, ROSTER[0], ADDRESS, [OUT]) == Extracted(1, []);
    assert vs[0] == Deposit(ROW);
    assert vs == [Deposit(ROW)];
    CollectOne(ROW);
  }

  lemma CollectOne(row: BtcRow)
    ensures Collect([Deposit(row)]) == Some([row])
  {
    var vs := [Deposit(row)];
    assert vs[..0] == [];
    assert Collect(vs[..0]) == Some([]);
    assert [] + [row] == [row];
  }

  const BOOTED := START.(up := true, agents := ROSTER)
  const FETCHED := BOOTED.(scan := Scanned(1, ROSTER))
  const STORED := FETCHED.(table := [ROW], scan := Inserted(1, ROSTER))
  const SCAN_RUN := [Boot(0, ROSTER, Applied), Fetch(1), Event.Insert(Applied), Advance(Applied)]

  lemma Fetches()
    ensures Step(CONFIG, BOOTED, Fetch(1)) == Some(FETCHED)
  {
    OneDeposit();
  }

  lemma Inserts()
    ensures Step(CONFIG, FETCHED, Event.Insert(Applied)) == Some(STORED)
  {
    OneDeposit();
    assert InsertAll([], [ROW]) == [ROW] by {
      assert [ROW][..0] == [];
      assert InsertAll([], [ROW][..0]) == [];
    }
  }

  lemma Advances()
    ensures Step(CONFIG, STORED, Advance(Applied)) == Some(SCANNED)
  {
  }

  lemma ScanRunReaches()
    ensures Exec(CONFIG, START, SCAN_RUN) == Some(SCANNED)
  {
    assert Step(CONFIG, START, Boot(0, ROSTER, Applied)) == Some(BOOTED);
    Fetches();
    Inserts();
    Advances();
    PathRuns(CONFIG, [START, BOOTED, FETCHED, STORED, SCANNED], SCAN_RUN);
  }

  const SELECTED := SCANNED.(batch := [ROW])
  const CHECKED := SELECTED.(stage := Checked)
  const MINTED := CHECKED.(minted := {TXID})
  const CHECK_RUN := [Select(4, [ROW]), RecordAbsent, MintElsewhere(TXID)]

  lemma Selects()
    ensures Step(CONFIG, SCANNED, Select(4, [ROW])) == Some(SELECTED)
  {
    assert SCANNED.table[0] in [ROW];
    assert IsBatch([ROW], 4, BATCH_HANDLE_NUM, [ROW]);
  }

  lemma CheckRunReaches()
    ensures Exec(CONFIG, SCANNED, CHECK_RUN) == Some(MINTED)
  {
    Selects();
    assert Step(CONFIG, SELECTED, RecordAbsent) == Some(CHECKED);
    assert {} + {TXID} == {TXID};
    PathRuns(CONFIG, [SCANNED, SELECTED, CHECKED, MINTED], CHECK_RUN);
  }

  const RESOLVED := MINTED.(stage := Resolved(1))
  const REFUSED := MINTED.(stage := Marking(Invalid))
  const REJECTED := SCANNED.(minted := {TXID}, table := [ROW.(status := Invalid)])
  const REJECT_RUN := [Resolve, BuildFailed, Mark(Applied)]

  lemma RejectRunReaches()
    ensures Exec(CONFIG, MINTED, REJECT_RUN) == Some(REJECTED)
  {
    assert Step(CONFIG, MINTED, Resolve) == Some(RESOLVED);
    assert Step(CONFIG, RESOLVED, BuildFailed) == Some(REFUSED);
    assert SetStatus([ROW], TXID, Invalid) == [ROW.(status := Invalid)] && [ROW][1..] == [];
    PathRuns(CONFIG, [MINTED, RESOLVED, REFUSED, REJECTED], REJECT_RUN);
  }

  /** The failing states of MintedRejectedIff are reached from a first installation. */
  lemma MintedRejectedIsReachable()
    ensures Init(START)
    ensures var t := Exec(CONFIG, START, SCAN_RUN + (CHECK_RUN + REJECT_RUN));
            t.Some? && TXID in t.value.minted && Rejected(t.value.table, TXID)
  {
    ScanRunReaches();
    CheckRunReaches();
    RejectRunReaches();
    ExecAppend(CONFIG, SCANNED, CHECK_RUN, REJECT_RUN);
    ExecAppend(CONFIG, START, SCAN_RUN, CHECK_RUN + REJECT_RUN);
    assert REJECTED.table[0].key == TXID && REJECTED.table[0].status == Invalid;
  }
}
