/** The Bitcoin relayer as a transition system: the scan loop, the submit loop and the agent
    refresh of txrelayer/tx_relayer.go interleave in any order, every database write may be
    lost or lose its acknowledgement, the process may crash and restart anywhere, and Lorenzo
    may lose answers and mint for others. */
module BtcProtocol {
  import opened Common
  import opened Table
  import opened BtcRepository
  import opened BlockScan

  /** Position of the scan loop in its iteration, with the height and the agent list in use. */
  datatype ScanPc =
    | ScanIdle
    | Scanned(height: uint64, roster: seq<Agent>)
    | Inserted(height: uint64, roster: seq<Agent>)

  /** Position of the submit loop on the first row of its batch. */
  datatype Stage = AtHead | Checked | Resolved(agentId: uint64) | Marking(status: Status)

  datatype Config = Config(chain: Chain, delay: uint64)

  /** `base` and `committed` are history: the sync point set at initialisation, and for each height
      the agent list with which its block was committed. Everything else is database, memory or Lorenzo. */
  datatype State = State(
    up: bool,
    table: seq<BtcRow>,
    syncPoint: uint64,
    agents: seq<Agent>,
    minted: set<string>,
    scan: ScanPc,
    batch: seq<BtcRow>,
    stage: Stage,
    base: uint64,
    committed: map<uint64, seq<Agent>>)

  datatype Event =
    | Crash
    | Boot(start: uint64, agents: seq<Agent>, fate: Write)
    | MintElsewhere(txid: string)
    | Refresh(agents: seq<Agent>)
    | Fetch(tip: uint64)
    | Insert(fate: Write)
    | Advance(fate: Write)
    | Select(tip: uint64, batch: seq<BtcRow>)
    | QueryFailed
    | RecordFound
    | RecordAbsent
    | NoAgent
    | Resolve
    | BuildFailed
    | Create(landed: bool, answer: Option<string>)
    | Mark(fate: Write)

  /** Errors after which the row stays pending. */
  predicate IsStakingMintTryAgainError(err: string) {
    || Contains(err, TIMEOUT_ERROR)
    || Contains(err, NOT_CONFIRMED_ERROR)
    || Contains(err, DUPLICATE_TX_ERROR)
    || Contains(err, HEADER_NOT_FOUND_ERROR)
    || Contains(err, POST_FAILED_ERROR)
    || Contains(err, SEQUENCE_MISMATCH_ERROR)
  }

  /** The retryable class, by the texts an error may contain. */
  lemma TryAgainTexts(err: string)
    ensures IsStakingMintTryAgainError(err) <==>
            || Contains(err, "context deadline exceeded") || Contains(err, "not k-deep")
            || Contains(err, "duplicate btc transaction") || Contains(err, "btc block header not found")
            || Contains(err, "post failed") || Contains(err, "account sequence mismatch")
  {
  }

  lemma DuplicateIsRetryable()
    ensures IsStakingMintTryAgainError(DUPLICATE_TX_ERROR)
  {
    ContainsItself(DUPLICATE_TX_ERROR);
  }

  /** What Lorenzo may do with a submission: it lands at once or never, success is answered only
      if it landed, a landed one is refused only with a retryable error, and a txid already
      minted gets a retryable error (the duplicate error is one). */
  predicate LegalAnswer(minted: set<string>, txid: string, landed: bool, answer: Option<string>) {
    && (answer.None? ==> landed)
    && (landed || txid in minted ==> answer.None? || IsStakingMintTryAgainError(answer.value))
    && (txid in minted ==> !landed)
  }

  /** The agent a submission names: the row's own, or for a row without one the listed agent of its receiver. */
  function AgentIdOf(agents: seq<Agent>, r: BtcRow): Option<uint64> {
    if r.data.agentId != 0 then Some(r.data.agentId)
    else
      match AgentByAddress(agents, r.data.receiverAddress)
      case None => None
      case Some(agent) => Some(agent.id)
  }

  lemma AgentIdIs(agents: seq<Agent>, r: BtcRow)
    ensures r.data.agentId != 0 ==> AgentIdOf(agents, r) == Some(r.data.agentId)
    ensures r.data.agentId == 0 && AgentIdOf(agents, r).None? ==>
              forall i | 0 <= i < |agents| :: agents[i].btcReceivingAddress != r.data.receiverAddress
    ensures r.data.agentId == 0 && AgentIdOf(agents, r).Some? ==>
              exists i | 0 <= i < |agents| ::
                && agents[i].btcReceivingAddress == r.data.receiverAddress && AgentIdOf(agents, r) == Some(agents[i].id)
                && forall j | 0 <= j < i :: agents[j].btcReceivingAddress != r.data.receiverAddress
  {
    AgentIsFirst(agents, r.data.receiverAddress);
  }

  /** What Lorenzo may answer: anything, except that it accepts only what has just landed, that nothing
      minted lands again, and that what landed or is minted gets no error but a retryable one. */
  lemma LegalAnswers(minted: set<string>, txid: string, err: string)
    ensures LegalAnswer(minted, txid, true, None) <==> txid !in minted
    ensures !LegalAnswer(minted, txid, false, None)
    ensures LegalAnswer(minted, txid, false, Some(err)) <==> txid !in minted || IsStakingMintTryAgainError(err)
    ensures LegalAnswer(minted, txid, true, Some(err)) <==> txid !in minted && IsStakingMintTryAgainError(err)
  {
  }

  function Pop(s: State): State
    requires s.batch != []
  {
    s.(batch := s.batch[1..], stage := AtHead)
  }

  function BootStep(s: State, start: uint64, agents: seq<Agent>, fate: Write): State {
    if s.syncPoint != 0 then s.(up := true, agents := agents)
    else if fate == Lost then s
    else s.(syncPoint := start, base := start, up := fate == Applied, agents := if fate == Applied then agents else [])
  }

  function ScanStep(c: Config, s: State, e: Event): Option<State>
    requires IsScanEvent(e)
  {
    match e
    case Fetch(tip) =>
      if s.scan.ScanIdle? && s.syncPoint + 1 + c.delay <= tip && BlockDeposits(c.chain, s.agents, s.syncPoint + 1).Some?
      then Some(s.(scan := Scanned(s.syncPoint + 1, s.agents))) else None
    case Insert(fate) =>
      if !s.scan.Scanned? then None
      else
        (match BlockDeposits(c.chain, s.scan.roster, s.scan.height)
         case None => None
         case Some(ds) =>
           Some(s.(table := if fate == Lost then s.table else InsertAll(s.table, ds),
                   scan := if fate == Applied then Inserted(s.scan.height, s.scan.roster) else ScanIdle)))
    case Advance(fate) =>
      if !s.scan.Inserted? then None
      else if fate == Lost then Some(s.(scan := ScanIdle))
      else
        var committed := s.committed[s.scan.height := s.scan.roster];
        Some(s.(syncPoint := s.scan.height, committed := committed, scan := ScanIdle))
  }

  predicate IsSubmitEvent(e: Event) {
    || e.QueryFailed? || e.RecordFound? || e.RecordAbsent? || e.NoAgent?
    || e.Resolve? || e.BuildFailed? || e.Create? || e.Mark?
  }

  /** One atomic action of the submit loop on the row `s.batch[0]`. */
  function SubmitStep(s: State, e: Event): Option<State>
    requires IsSubmitEvent(e) && s.batch != []
  {
    var tx := s.batch[0];
    match e
    case QueryFailed => if s.stage.AtHead? || s.stage.Checked? then Some(Pop(s)) else None
    case RecordFound => if s.stage.AtHead? && tx.key in s.minted then Some(s.(stage := Marking(Success))) else None
    case RecordAbsent => if s.stage.AtHead? && tx.key !in s.minted then Some(s.(stage := Checked)) else None
    case NoAgent =>
      if s.stage.Checked? && AgentIdOf(s.agents, tx).None?
      then Some(s.(stage := Marking(NotBelongToAgent))) else None
    case Resolve =>
      if s.stage.Checked? && AgentIdOf(s.agents, tx).Some?
      then Some(s.(stage := Resolved(AgentIdOf(s.agents, tx).value))) else None
    case BuildFailed => if s.stage.Resolved? then Some(s.(stage := Marking(Invalid))) else None
    case Create(landed, answer) =>
      if !s.stage.Resolved? || !LegalAnswer(s.minted, tx.key, landed, answer) then None
      else
        var t := s.(minted := if landed then s.minted + {tx.key} else s.minted);
        if answer.None? then Some(t.(stage := Marking(Success)))
        else if IsStakingMintTryAgainError(answer.value) then Some(Pop(t))
        else Some(t.(stage := Marking(Invalid)))
    case Mark(fate) =>
      if !s.stage.Marking? then None
      else Some(Pop(s.(table := if fate == Lost then s.table else SetStatus(s.table, tx.key, s.stage.status))))
  }

  predicate IsScanEvent(e: Event) {
    e.Fetch? || e.Insert? || e.Advance?
  }

  function Step(c: Config, s: State, e: Event): Option<State> {
    if IsScanEvent(e) then
      if s.up then ScanStep(c, s, e) else None
    else if IsSubmitEvent(e) then
      if s.up && s.batch != [] then SubmitStep(s, e) else None
    else
      match e
      case Crash => Some(s.(up := false, agents := [], scan := ScanIdle, batch := [], stage := AtHead))
      case Boot(start, agents, fate) => if s.up then None else Some(BootStep(s, start, agents, fate))
      case MintElsewhere(txid) => Some(s.(minted := s.minted + {txid}))
      case Refresh(agents) => if s.up then Some(s.(agents := agents)) else None
      case Select(tip, batch) =>
        if s.up && s.batch == [] && IsBatch(s.table, tip, BATCH_HANDLE_NUM, batch)
        then Some(s.(batch := batch, stage := AtHead)) else None
      case _ => None
  }

  /** Nothing is assumed of the environment: a crash is always possible, a start of a stopped process, mints and
      refreshes too, every write may meet every fate, and every legal answer may come. */
  lemma EnvironmentIsFree(c: Config, s: State, start: uint64, list: seq<Agent>, fate: Write, txid: string,
                          landed: bool, answer: Option<string>)
    ensures Step(c, s, Crash).Some? && Step(c, s, MintElsewhere(txid)).Some?
    ensures !s.up ==> Step(c, s, Boot(start, list, fate)).Some?
    ensures s.up ==> Step(c, s, Refresh(list)).Some?
    ensures s.up && s.scan.Scanned? && BlockDeposits(c.chain, s.scan.roster, s.scan.height).Some? ==>
              Step(c, s, Event.Insert(fate)).Some?
    ensures s.up && s.scan.Inserted? ==> Step(c, s, Advance(fate)).Some?
    ensures s.up && s.batch != [] && s.stage.Marking? ==> Step(c, s, Mark(fate)).Some?
    ensures s.up && s.batch != [] && (s.stage.AtHead? || s.stage.Checked?) ==> Step(c, s, QueryFailed).Some?
    ensures s.up && s.batch != [] && s.stage.Resolved? ==> Step(c, s, BuildFailed).Some?
    ensures s.up && s.batch != [] && s.stage.Resolved? && LegalAnswer(s.minted, s.batch[0].key, landed, answer) ==>
              Step(c, s, Create(landed, answer)).Some?
  {
  }

  /** A crash loses the memory and nothing else; an unacknowledged write has taken effect, a lost one has not. */
  lemma CrashLosesMemory(c: Config, s: State)
    ensures var t := Step(c, s, Crash).value;
            && t.table == s.table && t.syncPoint == s.syncPoint && t.minted == s.minted
            && !t.up && t.agents == [] && t.scan == ScanIdle && t.batch == [] && t.stage == AtHead
  {
  }

  /** Only an insert, a mark and an advance that are not lost, and a first start, write the database. */
  lemma StepWrites(c: Config, s: State, e: Event)
    requires Step(c, s, e).Some?
    ensures var u := Step(c, s, e).value.table;
            if e.Insert? && e.fate != Lost
            then && s.scan.Scanned? && BlockDeposits(c.chain, s.scan.roster, s.scan.height).Some?
                 && u == InsertAll(s.table, BlockDeposits(c.chain, s.scan.roster, s.scan.height).value)
            else if e.Mark? && e.fate != Lost
            then s.batch != [] && s.stage.Marking? && u == SetStatus(s.table, s.batch[0].key, s.stage.status)
            else u == s.table
    ensures var p := Step(c, s, e).value.syncPoint;
            if e.Advance? && e.fate != Lost then s.scan.Inserted? && p == s.scan.height
            else if e.Boot? && e.fate != Lost && s.syncPoint == 0 then p == e.start
            else p == s.syncPoint
  {
  }

  /** The state after a sequence of events, if each is enabled in turn. */
  function Exec(c: Config, s: State, es: seq<Event>): Option<State> {
    if es == [] then Some(s)
    else
      match Exec(c, s, es[..|es| - 1])
      case None => None
      case Some(t) => Step(c, t, es[|es| - 1])
  }

  /** Some event loads this list of agents. */
  ghost predicate Listed(es: seq<Event>, roster: seq<Agent>) {
    exists i | 0 <= i < |es| :: Loads(es[i], roster)
  }

  predicate Loads(e: Event, roster: seq<Agent>) {
    (e.Boot? || e.Refresh?) && e.agents == roster
  }

  lemma ListedAppend(es: seq<Event>, e: Event, roster: seq<Agent>)
    requires Listed(es, roster) || Loads(e, roster)
    ensures Listed(es + [e], roster)
  {
    if Listed(es, roster) {
      var i :| 0 <= i < |es| && Loads(es[i], roster);
      assert Loads((es + [e])[i], roster);
    } else {
      assert Loads((es + [e])[|es|], roster);
    }
  }

  /** The agents held are none or were loaded during the run. */
  lemma {:induction false} AgentsAreListed(c: Config, s: State, es: seq<Event>)
    requires s.agents == [] && Exec(c, s, es).Some?
    ensures var roster := Exec(c, s, es).value.agents; roster == [] || Listed(es, roster)
  {
    if es != [] {
      var n := |es| - 1;
      AgentsAreListed(c, s, es[..n]);
      assert es == es[..n] + [es[n]];
      StepAgents(c, Exec(c, s, es[..n]).value, es[n]);
      var after := Exec(c, s, es).value.agents;
      if after != [] {
        ListedAppend(es[..n], es[n], after);
      }
    }
  }

  lemma StepAgents(c: Config, s: State, e: Event)
    requires Step(c, s, e).Some?
    ensures var t := Step(c, s, e).value; t.agents == [] || t.agents == s.agents || Loads(e, t.agents)
  {
  }

  /** A first installation: empty table, some stored sync point, process down. */
  predicate Init(s: State) {
    && !s.up && s.table == [] && s.agents == [] && s.scan == ScanIdle && s.batch == [] && s.stage == AtHead
    && s.base == s.syncPoint && s.committed == map[]
  }

  // ---------------------------------------------------------------------------
  // The invariant.

  /** The block at `height`, scanned with the list `roster`, has all its deposits in the table. */
  ghost predicate Recorded(c: Config, roster: seq<Agent>, height: uint64, t: seq<BtcRow>) {
    var ds := BlockDeposits(c.chain, roster, height);
    ds.Some? && forall i | 0 <= i < |ds.value| :: Has(t, ds.value[i].key)
  }

  /** A row holds what some scan of the block at its height produced. */
  ghost predicate FromScan(c: Config, r: BtcRow) {
    exists roster :: IsDepositOf(c, roster, r)
  }

  ghost predicate IsDepositOf(c: Config, roster: seq<Agent>, r: BtcRow) {
    var ds := BlockDeposits(c.chain, roster, r.data.height);
    ds.Some? && r.(status := Pending) in ds.value
  }

  lemma FromScanMeans(c: Config, r: BtcRow)
    ensures FromScan(c, r) <==>
            exists roster :: && BlockDeposits(c.chain, roster, r.data.height).Some?
                             && Row(r.key, r.data, Pending) in BlockDeposits(c.chain, roster, r.data.height).value
  {
    if FromScan(c, r) {
      var roster :| IsDepositOf(c, roster, r);
      assert r.(status := Pending) == Row(r.key, r.data, Pending);
      assert Row(r.key, r.data, Pending) in BlockDeposits(c.chain, roster, r.data.height).value;
    }
    if roster :| && BlockDeposits(c.chain, roster, r.data.height).Some?
                 && Row(r.key, r.data, Pending) in BlockDeposits(c.chain, roster, r.data.height).value {
      assert r.(status := Pending) == Row(r.key, r.data, Pending);
      assert IsDepositOf(c, roster, r);
    }
  }

  ghost predicate TableOk(c: Config, t: seq<BtcRow>, syncPoint: uint64) {
    && Unique(t)
    && forall i | 0 <= i < |t| :: t[i].data.height <= syncPoint + 1 && FromScan(c, t[i])
  }

  ghost predicate ScanOk(c: Config, s: State) {
    && (s.up || (s.scan == ScanIdle && s.batch == []))
    && (!s.scan.ScanIdle? ==> s.scan.height == s.syncPoint + 1)
    && (s.scan.Inserted? ==> Recorded(c, s.scan.roster, s.scan.height, s.table))
  }

  ghost predicate Covered(c: Config, s: State) {
    && s.base <= s.syncPoint
    && forall h: uint64 | s.base < h <= s.syncPoint :: h in s.committed && Recorded(c, s.committed[h], h, s.table)
  }

  /** Every row still in the batch is pending in the table, whatever happened since it was read. */
  ghost predicate BatchOk(s: State) {
    && Unique(s.batch)
    && (forall i | 0 <= i < |s.batch| :: Open(s.table, s.batch[i].key))
    && (s.stage != AtHead ==> s.batch != [])
    && (s.stage.Marking? ==> s.stage.status != Pending)
  }

  ghost predicate Truthful(s: State) {
    && (forall i | 0 <= i < |s.table| :: s.table[i].status == Success ==> s.table[i].key in s.minted)
    && (s.stage == Marking(Success) ==> s.batch != [] && s.batch[0].key in s.minted)
  }

  ghost predicate Inv(c: Config, s: State) {
    TableOk(c, s.table, s.syncPoint) && ScanOk(c, s) && Covered(c, s) && BatchOk(s) && Truthful(s)
  }

  // ---------------------------------------------------------------------------
  // One step: the table only moves forward.

  lemma StepEvolves(c: Config, s: State, e: Event)
    requires Unique(s.table) && BatchOk(s) && Step(c, s, e).Some?
    ensures Evolves(s.table, Step(c, s, e).value.table)
    ensures s.minted <= Step(c, s, e).value.minted
  {
    if e.Mark? {
      MarkEvolves(s.table, s.batch[0].key, s.stage.status);
    } else if e.Insert? {
      InsertEvolves(s.table, BlockDeposits(c.chain, s.scan.roster, s.scan.height).value);
    }
  }

  lemma RecordedEvolves(c: Config, roster: seq<Agent>, h: uint64, t: seq<BtcRow>, u: seq<BtcRow>)
    requires Evolves(t, u)
    ensures Recorded(c, roster, h, t) ==> Recorded(c, roster, h, u)
  {
    forall k | Has(t, k)
      ensures Has(u, k)
    {
      EvolvesHas(t, u, k);
    }
  }

  // ---------------------------------------------------------------------------
  // One step keeps each part of the invariant.

  lemma InsertTable(c: Config, roster: seq<Agent>, t: seq<BtcRow>, syncPoint: uint64, height: uint64)
    requires TableOk(c, t, syncPoint) && BlockDeposits(c.chain, roster, height).Some? && height == syncPoint + 1
    ensures TableOk(c, InsertAll(t, BlockDeposits(c.chain, roster, height).value), syncPoint)
  {
    var ds := BlockDeposits(c.chain, roster, height).value;
    InsertKeepsUnique(t, ds);
    InsertAddsOnly(t, ds);
    BlockRows(c.chain, roster, height);
    var u := InsertAll(t, ds);
    forall i | |t| <= i < |u|
      ensures u[i].data.height <= syncPoint + 1 && FromScan(c, u[i])
    {
      assert IsDepositOf(c, roster, u[i]);
    }
  }

  lemma MarkTable(c: Config, t: seq<BtcRow>, syncPoint: uint64, k: string, st: Status)
    requires TableOk(c, t, syncPoint)
    ensures TableOk(c, SetStatus(t, k, st), syncPoint)
  {
    var u := SetStatus(t, k, st);
    forall i | 0 <= i < |u|
      ensures FromScan(c, u[i])
    {
      var roster :| IsDepositOf(c, roster, t[i]);
      assert u[i].(status := Pending) == t[i].(status := Pending);
      assert IsDepositOf(c, roster, u[i]);
    }
  }

  lemma StepTable(c: Config, s: State, e: Event)
    requires TableOk(c, s.table, s.syncPoint) && ScanOk(c, s) && Step(c, s, e).Some?
    ensures TableOk(c, Step(c, s, e).value.table, Step(c, s, e).value.syncPoint)
  {
    if e.Insert? {
      InsertTable(c, s.scan.roster, s.table, s.syncPoint, s.scan.height);
    } else if e.Mark? {
      MarkTable(c, s.table, s.syncPoint, s.batch[0].key, s.stage.status);
    }
  }

  /** Only the scan loop and a crash touch the scan. */
  lemma StepKeepsScan(c: Config, s: State, e: Event)
    requires ScanOk(c, s) && Step(c, s, e).Some? && !IsScanEvent(e)
    ensures var t := Step(c, s, e).value;
            && (t.scan == ScanIdle || (t.scan == s.scan && t.syncPoint == s.syncPoint))
            && (t.up || (t.scan == ScanIdle && t.batch == []))
  {
  }

  lemma InsertRecords(c: Config, roster: seq<Agent>, height: uint64, t: seq<BtcRow>)
    requires BlockDeposits(c.chain, roster, height).Some?
    ensures Recorded(c, roster, height, InsertAll(t, BlockDeposits(c.chain, roster, height).value))
  {
    var ds := BlockDeposits(c.chain, roster, height).value;
    forall i | 0 <= i < |ds|
      ensures Has(InsertAll(t, ds), ds[i].key)
    {
      assert Has(ds, ds[i].key);
      InsertHas(t, ds, ds[i].key);
    }
  }

  lemma StepScan(c: Config, s: State, e: Event)
    requires Unique(s.table) && BatchOk(s) && ScanOk(c, s) && Step(c, s, e).Some?
    ensures ScanOk(c, Step(c, s, e).value)
  {
    var t := Step(c, s, e).value;
    if IsScanEvent(e) {
      if e.Insert? {
        InsertRecords(c, s.scan.roster, s.scan.height, s.table);
      }
    } else {
      StepKeepsScan(c, s, e);
      StepEvolves(c, s, e);
      if t.scan.Inserted? {
        RecordedEvolves(c, s.scan.roster, s.scan.height, s.table, t.table);
      }
    }
  }

  /** The sync point moves only over the block that was just inserted, or to start at installation. */
  ghost predicate SyncPointMoved(s: State, t: State) {
    || (t.syncPoint == s.syncPoint && t.base == s.base && t.committed == s.committed)
    || (s.syncPoint == 0 && t.base == t.syncPoint)
    || (&& s.scan.Inserted? && s.scan.height == t.syncPoint == s.syncPoint + 1 && t.base == s.base
        && t.committed == s.committed[t.syncPoint := s.scan.roster])
  }

  lemma StepSyncPoint(c: Config, s: State, e: Event)
    requires ScanOk(c, s) && Step(c, s, e).Some?
    ensures SyncPointMoved(s, Step(c, s, e).value)
  {
  }

  lemma CoveredNext(c: Config, s: State, t: State)
    requires ScanOk(c, s) && Covered(c, s) && Evolves(s.table, t.table) && SyncPointMoved(s, t)
    ensures Covered(c, t) && s.syncPoint <= t.syncPoint
  {
    forall h: uint64 | t.base < h <= t.syncPoint
      ensures h in t.committed && Recorded(c, t.committed[h], h, t.table)
    {
      if h <= s.syncPoint {
        RecordedEvolves(c, s.committed[h], h, s.table, t.table);
      } else {
        RecordedEvolves(c, s.scan.roster, h, s.table, t.table);
      }
    }
  }

  lemma StepCovered(c: Config, s: State, e: Event)
    requires Unique(s.table) && BatchOk(s) && ScanOk(c, s) && Covered(c, s) && Step(c, s, e).Some?
    ensures Covered(c, Step(c, s, e).value)
    ensures s.syncPoint <= Step(c, s, e).value.syncPoint
  {
    StepEvolves(c, s, e);
    StepSyncPoint(c, s, e);
    CoveredNext(c, s, Step(c, s, e).value);
  }

  lemma SelectedIsOpen(t: seq<BtcRow>, tip: uint64, b: seq<BtcRow>, i: nat)
    requires Unique(t) && IsBatch(t, tip, BATCH_HANDLE_NUM, b) && i < |b|
    ensures Open(t, b[i].key)
  {
    assert b[i] in t;
    var j :| 0 <= j < |t| && t[j] == b[i];
    TerminalNotPending(t, j);
  }

  lemma StepBatchOpen(c: Config, s: State, e: Event, i: nat)
    requires Unique(s.table) && BatchOk(s) && Step(c, s, e).Some? && i < |Step(c, s, e).value.batch|
    ensures Open(Step(c, s, e).value.table, Step(c, s, e).value.batch[i].key)
  {
    var k := Step(c, s, e).value.batch[i].key;
    if e.Select? {
      SelectedIsOpen(s.table, e.tip, e.batch, i);
    } else if e.Insert? {
      InsertKeepsOpen(s.table, BlockDeposits(c.chain, s.scan.roster, s.scan.height).value, k);
    } else if e.Mark? {
      assert k == s.batch[i + 1].key;
      MarkOthers(s.table, s.batch[0].key, s.stage.status, k);
    } else if IsSubmitEvent(e) {
      assert k == s.batch[i].key || k == s.batch[i + 1].key;
    }
  }

  lemma StepBatch(c: Config, s: State, e: Event)
    requires Unique(s.table) && BatchOk(s) && Step(c, s, e).Some?
    ensures BatchOk(Step(c, s, e).value)
  {
    var t := Step(c, s, e).value;
    assert Unique(t.batch);
    forall i | 0 <= i < |t.batch|
      ensures Open(t.table, t.batch[i].key)
    {
      StepBatchOpen(c, s, e, i);
    }
  }

  lemma StepTruthful(c: Config, s: State, e: Event)
    requires Truthful(s) && Step(c, s, e).Some?
    ensures Truthful(Step(c, s, e).value)
  {
    if e.Insert? {
      var ds := BlockDeposits(c.chain, s.scan.roster, s.scan.height).value;
      InsertAddsOnly(s.table, ds);
      BlockRows(c.chain, s.scan.roster, s.scan.height);
    }
  }

  lemma StepInv(c: Config, s: State, e: Event)
    requires Inv(c, s) && Step(c, s, e).Some?
    ensures Inv(c, Step(c, s, e).value)
  {
    StepTable(c, s, e);
    StepScan(c, s, e);
    StepCovered(c, s, e);
    StepBatch(c, s, e);
    StepTruthful(c, s, e);
  }

  // ---------------------------------------------------------------------------
  // Whole runs.

  lemma {:induction false} ExecInv(c: Config, s: State, es: seq<Event>)
    requires Inv(c, s) && Exec(c, s, es).Some?
    ensures Inv(c, Exec(c, s, es).value)
  {
    if es != [] {
      var n := |es| - 1;
      ExecInv(c, s, es[..n]);
      StepInv(c, Exec(c, s, es[..n]).value, es[n]);
    }
  }

  lemma {:induction false} ExecAppend(c: Config, s: State, a: seq<Event>, b: seq<Event>)
    requires Exec(c, s, a).Some?
    ensures Exec(c, s, a + b) == Exec(c, Exec(c, s, a).value, b)
  {
    if b == [] {
      assert a + b == a;
    } else {
      ExecAppend(c, s, a, b[..|b| - 1]);
      assert (a + b)[..|a + b| - 1] == a + b[..|b| - 1];
    }
  }

  lemma StepFetch(c: Config, s: State, tip: uint64)
    requires s.up && s.scan == ScanIdle && s.syncPoint + 1 + c.delay <= tip && s.syncPoint + 1 < TWO_64
    requires BlockDeposits(c.chain, s.agents, s.syncPoint + 1).Some?
    ensures Step(c, s, Fetch(tip)) == Some(s.(scan := Scanned(s.syncPoint + 1, s.agents)))
  {
  }

  /** The run through these states. */
  lemma {:induction false} PathRuns(c: Config, ss: seq<State>, es: seq<Event>)
    requires |ss| == |es| + 1
    requires forall i | 0 <= i < |es| :: Step(c, ss[i], es[i]) == Some(ss[i + 1])
    ensures Exec(c, ss[0], es) == Some(ss[|es|])
  {
    if es != [] {
      PathRuns(c, ss[..|es|], es[..|es| - 1]);
    }
  }

  /** Coverage. In every run from a first installation, each block in (initial sync point, sync point]
      was committed with some agent list, and every deposit the scan of that block with that list
      returned has exactly one row. No row lies above the block after the sync point, and every row
      holds what a scan of its block produced. */
  lemma EveryDepositHasOneRow(c: Config, s0: State, es: seq<Event>, h: uint64, d: BtcRow)
    requires Init(s0) && Exec(c, s0, es).Some?
    ensures var s := Exec(c, s0, es).value;
            && (s.base < h <= s.syncPoint ==>
                  && h in s.committed
                  && BlockDeposits(c.chain, s.committed[h], h).Some?
                  && (d in BlockDeposits(c.chain, s.committed[h], h).value ==>
                        exists i | 0 <= i < |s.table| :: s.table[i].key == d.key
                          && forall j | 0 <= j < |s.table| :: s.table[j].key == d.key ==> j == i))
            && (forall i | 0 <= i < |s.table| :: s.table[i].data.height <= s.syncPoint + 1 && FromScan(c, s.table[i]))
  {
    ExecInv(c, s0, es);
    var s := Exec(c, s0, es).value;
    if s.base < h <= s.syncPoint {
      var ds := BlockDeposits(c.chain, s.committed[h], h).value;
      assert Recorded(c, s.committed[h], h, s.table);
      if d in ds {
        var k :| 0 <= k < |ds| && ds[k] == d;
        var i := OneRow(s.table, d.key);
      }
    }
  }

  /** One-way statuses. Between any two states of a run rows are never removed or rewritten, a row
      leaves the pending state at most once and never comes back, the sync point never decreases,
      and once it is positive the start of the covered range is fixed. */
  lemma {:induction false} StatusesAreOneWay(c: Config, s: State, es: seq<Event>)
    requires Inv(c, s) && Exec(c, s, es).Some?
    ensures Evolves(s.table, Exec(c, s, es).value.table)
    ensures s.syncPoint <= Exec(c, s, es).value.syncPoint
    ensures s.minted <= Exec(c, s, es).value.minted
    ensures s.syncPoint > 0 ==> Exec(c, s, es).value.base == s.base
  {
    if es != [] {
      var n := |es| - 1;
      var t := Exec(c, s, es[..n]).value;
      StatusesAreOneWay(c, s, es[..n]);
      ExecInv(c, s, es[..n]);
      StepEvolves(c, t, es[n]);
      StepCovered(c, t, es[n]);
      StepSyncPoint(c, t, es[n]);
      EvolvesTrans(s.table, t.table, Step(c, t, es[n]).value.table);
    }
  }

  /** A row marked Success is minted, in every run, answers lost or not. */
  lemma SuccessIsMinted(c: Config, s0: State, es: seq<Event>, i: nat)
    requires Init(s0) && Exec(c, s0, es).Some?
    requires i < |Exec(c, s0, es).value.table| && Exec(c, s0, es).value.table[i].status == Success
    ensures Exec(c, s0, es).value.table[i].key in Exec(c, s0, es).value.minted
  {
    ExecInv(c, s0, es);
  }

  // ---------------------------------------------------------------------------
  // Why a row has its status.

  /** In state `s` event `e` decides that the row of `k` gets this status. */
  ghost predicate Causes(s: State, e: Event, k: string, status: Status) {
    && s.batch != [] && s.batch[0].key == k
    && match status
       case Pending => false
       case Success => e.RecordFound? || (e.Create? && e.answer.None?)
       case Invalid => e.BuildFailed? || (e.Create? && e.answer.Some? && !IsStakingMintTryAgainError(e.answer.value))
       case NotBelongToAgent => e.NoAgent? && AgentIdOf(s.agents, s.batch[0]).None?
  }

  /** Some event of the run decided it. */
  ghost predicate Caused(c: Config, s: State, es: seq<Event>, k: string, status: Status) {
    exists n | 0 <= n < |es| :: CausedAt(c, s, es, n, k, status)
  }

  ghost predicate CausedAt(c: Config, s: State, es: seq<Event>, n: nat, k: string, status: Status)
    requires n < |es|
  {
    Exec(c, s, es[..n]).Some? && Causes(Exec(c, s, es[..n]).value, es[n], k, status)
  }

  lemma CausedStays(c: Config, s: State, es: seq<Event>, e: Event, k: string, status: Status)
    requires Caused(c, s, es, k, status)
    ensures Caused(c, s, es + [e], k, status)
  {
    var n :| 0 <= n < |es| && CausedAt(c, s, es, n, k, status);
    assert (es + [e])[..n] == es[..n];
    assert CausedAt(c, s, es + [e], n, k, status);
  }

  lemma CausedNow(c: Config, s: State, es: seq<Event>, e: Event, k: string, status: Status)
    requires Exec(c, s, es).Some? && Causes(Exec(c, s, es).value, e, k, status)
    ensures Caused(c, s, es + [e], k, status)
  {
    assert (es + [e])[..|es|] == es;
    assert CausedAt(c, s, es + [e], |es|, k, status);
  }

  /** Where the status of a row can come from in one step. */
  ghost predicate Moved(s: State, u: seq<BtcRow>) {
    forall i | 0 <= i < |u| ::
      || u[i].status == Pending
      || (i < |s.table| && u[i] == s.table[i])
      || (s.batch != [] && u[i].key == s.batch[0].key && s.stage == Marking(u[i].status))
  }

  lemma StepMoved(c: Config, s: State, e: Event)
    requires Step(c, s, e).Some?
    ensures Moved(s, Step(c, s, e).value.table)
  {
    if e.Insert? {
      InsertAddsOnly(s.table, BlockDeposits(c.chain, s.scan.roster, s.scan.height).value);
      BlockRows(c.chain, s.scan.roster, s.scan.height);
    }
  }

  lemma StepStage(c: Config, s: State, e: Event)
    requires BatchOk(s) && Step(c, s, e).Some?
    ensures var t := Step(c, s, e).value;
            t.stage.Marking? ==> && t.batch == s.batch != []
                                 && (t.stage == s.stage || Causes(s, e, s.batch[0].key, t.stage.status))
  {
  }

  ghost predicate AllCaused(c: Config, s0: State, es: seq<Event>)
    requires Exec(c, s0, es).Some?
  {
    var s := Exec(c, s0, es).value;
    && (forall i | 0 <= i < |s.table| ::
          s.table[i].status != Pending ==> Caused(c, s0, es, s.table[i].key, s.table[i].status))
    && (s.stage.Marking? && s.batch != [] ==> Caused(c, s0, es, s.batch[0].key, s.stage.status))
  }

  lemma NextCaused(c: Config, s0: State, es: seq<Event>, e: Event)
    requires Exec(c, s0, es).Some? && AllCaused(c, s0, es)
    requires Exec(c, s0, es + [e]).Some? && Exec(c, s0, es + [e]) == Step(c, Exec(c, s0, es).value, e)
    requires BatchOk(Exec(c, s0, es).value)
    ensures AllCaused(c, s0, es + [e])
  {
    var s, t := Exec(c, s0, es).value, Exec(c, s0, es + [e]).value;
    StepMoved(c, s, e);
    StepStage(c, s, e);
    forall i | 0 <= i < |t.table| && t.table[i].status != Pending
      ensures Caused(c, s0, es + [e], t.table[i].key, t.table[i].status)
    {
      CausedStays(c, s0, es, e, t.table[i].key, t.table[i].status);
    }
    if t.stage.Marking? {
      if t.stage == s.stage {
        CausedStays(c, s0, es, e, s.batch[0].key, s.stage.status);
      } else {
        CausedNow(c, s0, es, e, s.batch[0].key, t.stage.status);
      }
    }
  }

  /** Statuses have causes in every run: a Success row was found recorded or its submission succeeded, an
      Invalid one had a proof that did not parse or a refusal that is not retryable, and a row that
      belongs to no agent had neither an agent of its own nor a listed one for its receiver. */
  lemma {:induction false} StatusesHaveCauses(c: Config, s0: State, es: seq<Event>)
    requires Init(s0) && Exec(c, s0, es).Some?
    ensures AllCaused(c, s0, es)
  {
    if es != [] {
      var n := |es| - 1;
      StatusesHaveCauses(c, s0, es[..n]);
      ExecInv(c, s0, es[..n]);
      assert es == es[..n] + [es[n]];
      NextCaused(c, s0, es[..n], es[n]);
    }
  }

  // ---------------------------------------------------------------------------
  // Rows without agent.

  predicate NonZero(agents: seq<Agent>) {
    forall i | 0 <= i < |agents| :: agents[i].id != 0
  }

  predicate Owned(rows: seq<BtcRow>) {
    forall i | 0 <= i < |rows| :: rows[i].data.agentId != 0
  }

  ghost predicate AllOwned(s: State) {
    && NonZero(s.agents) && Owned(s.table) && Owned(s.batch) && (!s.scan.ScanIdle? ==> NonZero(s.scan.roster))
    && s.stage != Marking(NotBelongToAgent)
    && forall i | 0 <= i < |s.table| :: s.table[i].status != NotBelongToAgent
  }

  lemma InsertOwned(c: Config, roster: seq<Agent>, height: uint64, t: seq<BtcRow>)
    requires BlockDeposits(c.chain, roster, height).Some? && NonZero(roster) && Owned(t)
    ensures Owned(InsertAll(t, BlockDeposits(c.chain, roster, height).value))
  {
    RowsNameAgents(c.chain, roster, height);
    InsertAddsOnly(t, BlockDeposits(c.chain, roster, height).value);
  }

  lemma StepTableOwned(c: Config, s: State, e: Event)
    requires AllOwned(s) && Step(c, s, e).Some?
    ensures Owned(Step(c, s, e).value.table)
  {
    if e.Insert? {
      InsertOwned(c, s.scan.roster, s.scan.height, s.table);
    }
  }

  lemma StepBatchOwned(c: Config, s: State, e: Event)
    requires AllOwned(s) && Step(c, s, e).Some?
    ensures Owned(Step(c, s, e).value.batch)
  {
    if e.Select? {
      forall i | 0 <= i < |e.batch|
        ensures e.batch[i].data.agentId != 0
      {
        assert e.batch[i] in s.table;
      }
    }
  }

  lemma StepStageOwned(c: Config, s: State, e: Event)
    requires AllOwned(s) && Step(c, s, e).Some?
    requires forall roster | Loads(e, roster) :: NonZero(roster)
    ensures var t := Step(c, s, e).value;
            && NonZero(t.agents) && (!t.scan.ScanIdle? ==> NonZero(t.scan.roster))
            && t.stage != Marking(NotBelongToAgent)
  {
    assert (e.Boot? || e.Refresh?) ==> Loads(e, e.agents);
  }

  /** If no agent the relayer ever lists has id 0, every row names its agent and none is ever marked
      as belonging to no agent. */
  lemma {:induction false} RowsKeepAgents(c: Config, s0: State, es: seq<Event>)
    requires Init(s0) && Exec(c, s0, es).Some?
    requires forall roster | Listed(es, roster) :: NonZero(roster)
    ensures AllOwned(Exec(c, s0, es).value)
  {
    if es != [] {
      var n := |es| - 1;
      assert es == es[..n] + [es[n]];
      forall roster | Listed(es[..n], roster) || Loads(es[n], roster)
        ensures NonZero(roster)
      {
        ListedAppend(es[..n], es[n], roster);
      }
      RowsKeepAgents(c, s0, es[..n]);
      var s := Exec(c, s0, es[..n]).value;
      StepTableOwned(c, s, es[n]);
      StepBatchOwned(c, s, es[n]);
      StepStageOwned(c, s, es[n]);
      StepMoved(c, s, es[n]);
    }
  }

  // ---------------------------------------------------------------------------
  // Minted and yet rejected?

  /** The row of `k` was given up: marked Invalid or NotBelongToAgent. */
  ghost predicate Rejected(t: seq<BtcRow>, k: string) {
    exists i | 0 <= i < |t| :: t[i].key == k && (t[i].status == Invalid || t[i].status == NotBelongToAgent)
  }

  /** The submit loop is past the record check of `k`, which found nothing. */
  ghost predicate PastCheck(s: State, k: string) {
    s.batch != [] && s.batch[0].key == k && s.stage != AtHead && s.stage != Marking(Success)
  }

  lemma MarkRejects(t: seq<BtcRow>, key: string, st: Status, k: string)
    requires !Rejected(t, k) && (key != k || st == Success)
    ensures !Rejected(SetStatus(t, key, st), k)
  {
  }

  lemma InsertRejects(t: seq<BtcRow>, ds: seq<BtcRow>, k: string)
    requires !Rejected(t, k) && AllPending(ds)
    ensures !Rejected(InsertAll(t, ds), k)
  {
    InsertAddsOnly(t, ds);
  }

  lemma StepKeepsMintedSafe(c: Config, s: State, e: Event, k: string)
    requires Step(c, s, e).Some?
    requires k in s.minted && !Rejected(s.table, k) && !PastCheck(s, k)
    ensures !Rejected(Step(c, s, e).value.table, k) && !PastCheck(Step(c, s, e).value, k)
  {
    if e.Insert? {
      BlockRows(c.chain, s.scan.roster, s.scan.height);
      InsertRejects(s.table, BlockDeposits(c.chain, s.scan.roster, s.scan.height).value, k);
    } else if e.Mark? {
      MarkRejects(s.table, s.batch[0].key, s.stage.status, k);
    }
  }

  lemma {:induction false} ExecKeepsMintedSafe(c: Config, s: State, es: seq<Event>, k: string)
    requires Inv(c, s) && Exec(c, s, es).Some?
    requires k in s.minted && !Rejected(s.table, k) && !PastCheck(s, k)
    ensures !Rejected(Exec(c, s, es).value.table, k) && !PastCheck(Exec(c, s, es).value, k)
  {
    if es != [] {
      var n := |es| - 1;
      ExecKeepsMintedSafe(c, s, es[..n], k);
      ExecInv(c, s, es[..n]);
      StatusesAreOneWay(c, s, es[..n]);
      StepKeepsMintedSafe(c, Exec(c, s, es[..n]).value, es[n], k);
    }
  }

  lemma Exec1(c: Config, s: State, e: Event)
    ensures Exec(c, s, [e]) == Step(c, s, e)
  {
    assert [e][..0] == [];
  }

  lemma MarkTerminates(s: State)
    requires BatchOk(s) && s.stage.Marking? && s.up
    ensures var t := SetStatus(s.table, s.batch[0].key, s.stage.status);
            exists i | 0 <= i < |t| :: t[i].key == s.batch[0].key && t[i].status == s.stage.status
  {
    assert Open(s.table, s.batch[0].key) && Has(s.table, s.batch[0].key);
    var i :| 0 <= i < |s.table| && s.table[i].key == s.batch[0].key;
    assert SetStatus(s.table, s.batch[0].key, s.stage.status)[i].status == s.stage.status;
  }

  /** Exactly when a minted txid can still be given up: its row already is, or the submit loop
      holds it past a record check that preceded the mint. In every other state no continuation,
      whatever Lorenzo answers, ever marks it anything but Success. */
  lemma MintedRejectedIff(c: Config, s: State, k: string)
    requires Inv(c, s) && k in s.minted
    ensures (exists es :: Exec(c, s, es).Some? && Rejected(Exec(c, s, es).value.table, k))
       <==> Rejected(s.table, k) || PastCheck(s, k)
  {
    if Rejected(s.table, k) {
      assert Exec(c, s, []) == Some(s);
    } else if PastCheck(s, k) {
      var es := RejectingRun(c, s, k);
    } else {
      forall es | Exec(c, s, es).Some?
        ensures !Rejected(Exec(c, s, es).value.table, k)
      {
        ExecKeepsMintedSafe(c, s, es, k);
      }
    }
  }

  lemma RejectingRun(c: Config, s: State, k: string) returns (es: seq<Event>)
    requires Inv(c, s) && PastCheck(s, k)
    ensures Exec(c, s, es).Some? && Rejected(Exec(c, s, es).value.table, k)
    decreases if s.stage.Checked? then 2 else if s.stage.Resolved? then 1 else 0
  {
    if s.stage.Marking? {
      es := [Mark(Applied)];
      Exec1(c, s, Mark(Applied));
      MarkTerminates(s);
    } else {
      var e := if s.stage.Resolved? then BuildFailed
               else if AgentIdOf(s.agents, s.batch[0]).Some? then Resolve else NoAgent;
      var t := Step(c, s, e).value;
      StepInv(c, s, e);
      var rest := RejectingRun(c, t, k);
      Exec1(c, s, e);
      ExecAppend(c, s, [e], rest);
      es := [e] + rest;
    }
  }

  /** While no one else mints, a minted txid is never given up, in any run. */
  lemma {:induction false} SoleMinterNeverRejectsMinted(c: Config, s: State, es: seq<Event>, k: string)
    requires Inv(c, s) && Exec(c, s, es).Some?
    requires forall i | 0 <= i < |es| :: !es[i].MintElsewhere?
    requires k in s.minted ==> !Rejected(s.table, k) && !PastCheck(s, k)
    ensures var t := Exec(c, s, es).value; k in t.minted ==> !Rejected(t.table, k) && !PastCheck(t, k)
  {
    if es != [] {
      var n := |es| - 1;
      var t := Exec(c, s, es[..n]).value;
      SoleMinterNeverRejectsMinted(c, s, es[..n], k);
      ExecInv(c, s, es[..n]);
      if k in t.minted {
        StepKeepsMintedSafe(c, t, es[n], k);
      } else if k in Step(c, t, es[n]).value.minted {
        FreshMintIsPending(c, t, es[n], k);
      }
    }
  }

  lemma FreshMintIsPending(c: Config, s: State, e: Event, k: string)
    requires Inv(c, s) && Step(c, s, e).Some? && !e.MintElsewhere?
    requires k !in s.minted && k in Step(c, s, e).value.minted
    ensures !Rejected(Step(c, s, e).value.table, k) && !PastCheck(Step(c, s, e).value, k)
  {
    assert e.Create? && e.landed && s.batch[0].key == k;
    var t := Step(c, s, e).value;
    assert t.table == s.table && !Terminal(s.table, k);
    if t.batch != [] && !t.stage.Marking? {
      assert t.stage == AtHead;
    }
  }
}
