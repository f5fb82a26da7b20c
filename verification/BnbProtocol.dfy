/** The BNB relayer as a transition system (txrelayer/bnb_txrelayer.go): windowed scanning and
    submission interleave in any order, writes may be lost or unacknowledged, the process may
    crash and restart anywhere, Lorenzo may lose answers and mint for others. A submission that
    succeeds leaves its row pending; the duplicate error of a later round marks it. */
module BnbProtocol {
  import opened Common
  import opened Table
  import opened BnbRepository
  import opened StakePlan
  import opened Hex

  const CHAIN_NAME := "bnb"
  const BATCH_PLAN_STAKE_BLOCK_SIZE_FETCH := 1000

  // ---------------------------------------------------------------------------
  // Scan windows.

  datatype Window = Window(start: uint64, end: uint64, tip: uint64)

  /** The cursor arithmetic of scanLoop in uint64. A tip query that fails is read as 0. */
  function NextWindow(syncPoint: uint64, tip: uint64, delay: uint64): Option<Window> {
    if Add64(syncPoint, delay) >= tip then None
    else
      var start := Add64(syncPoint, 1);
      var end := Sub64(tip, delay);
      if Add64(Sub64(end, start), 1) > BATCH_PLAN_STAKE_BLOCK_SIZE_FETCH
      then Some(Window(start, Sub64(Add64(start, BATCH_PLAN_STAKE_BLOCK_SIZE_FETCH), 1), tip))
      else Some(Window(start, end, tip))
  }

  predicate WindowOk(w: Window, delay: uint64) {
    w.start <= w.end < w.start + BATCH_PLAN_STAKE_BLOCK_SIZE_FETCH && w.end + delay <= w.tip
  }

  /** While syncPoint + delay does not wrap nothing else does: there is a window exactly when the
      tip is more than `delay` above the sync point (so never on a failed tip query), it starts right
      above the sync point, ends at least `delay` below the tip and has 1 to 1000 blocks, as many as it can. */
  lemma WindowIsExact(syncPoint: uint64, tip: uint64, delay: uint64)
    requires syncPoint + delay < TWO_64
    ensures NextWindow(syncPoint, tip, delay) ==
            if syncPoint + delay < tip
            then Some(Window(syncPoint + 1,
                             if syncPoint + 1000 <= tip - delay then syncPoint + 1000 else tip - delay, tip))
            else None
    ensures tip == 0 ==> NextWindow(syncPoint, tip, delay).None?
    ensures NextWindow(syncPoint, tip, delay).Some? ==> WindowOk(NextWindow(syncPoint, tip, delay).value, delay)
  {
    AddExact(syncPoint, delay);
    if syncPoint + delay < tip {
      var start, end := syncPoint + 1, tip - delay;
      AddExact(syncPoint, 1);
      SubExact(tip, delay);
      SubExact(end, start);
      AddExact(end - start, 1);
      if end - start + 1 > 1000 {
        AddExact(start, 1000);
        SubExact(start + 1000, 1);
      }
    }
  }

  // ---------------------------------------------------------------------------
  // States and steps.

  datatype ScanPc = ScanIdle | Fetched(window: Window, list: seq<ReceiptWithProof>) | Stored(window: Window)

  datatype Stage = AtHead | Marking(status: Status)

  datatype Config = Config(chain: Chain, delay: uint64)

  /** `base`, `windows` and `rejected` (refusals by Lorenzo: txid and error) are history. */
  datatype State = State(
    up: bool,
    table: seq<BnbRow>,
    syncPoint: uint64,
    minted: set<string>,
    scan: ScanPc,
    batch: seq<BnbRow>,
    stage: Stage,
    base: uint64,
    windows: seq<Window>,
    rejected: set<(string, string)>)

  datatype Event =
    | Crash
    | Boot(start: uint64, fate: Write)
    | MintElsewhere(txid: string)
    | Fetch(tip: uint64, list: seq<ReceiptWithProof>)
    | Insert(fate: Write)
    | Advance(fate: Write)
    | Select(tip: uint64, batch: seq<BnbRow>)
    | BadHex
    | Create(landed: bool, answer: Option<string>)
    | Mark(fate: Write)

  predicate IsBNBStakingRetryError(err: string) {
    || Contains(err, TIMEOUT_ERROR)
    || Contains(err, POST_FAILED_ERROR)
    || Contains(err, SEQUENCE_MISMATCH_ERROR)
  }

  predicate IsBNBStakingDuplicate(err: string) {
    Contains(err, DUPLICATE_EVENT_ERROR)
  }

  predicate IsRefusal(err: string) {
    !IsBNBStakingDuplicate(err) && !IsBNBStakingRetryError(err)
  }

  /** The error classes, by the texts an error may contain. */
  lemma ErrorTexts(err: string)
    ensures IsBNBStakingRetryError(err) <==>
            || Contains(err, "context deadline exceeded") || Contains(err, "post failed")
            || Contains(err, "account sequence mismatch")
    ensures IsBNBStakingDuplicate(err) <==> Contains(err, "duplicate event")
  {
  }

  /** What Lorenzo may do with a submission: it lands at once or never, success is answered only if
      it landed, a landed or already minted one is never refused, a minted one is never accepted
      again, and the duplicate error is given only for what is minted. */
  predicate LegalAnswer(minted: set<string>, txid: string, landed: bool, answer: Option<string>) {
    && (answer.None? ==> landed)
    && (txid in minted ==> !landed)
    && (landed || txid in minted ==> answer.None? || !IsRefusal(answer.value))
    && (answer.Some? && IsBNBStakingDuplicate(answer.value) ==> landed || txid in minted)
  }

  /** What Lorenzo may answer: anything, except that it accepts only what has just landed, that nothing minted lands
      again, that what landed or is minted is not refused, and that the duplicate error is for such only. */
  lemma LegalAnswers(minted: set<string>, txid: string, err: string)
    ensures LegalAnswer(minted, txid, true, None) <==> txid !in minted
    ensures !LegalAnswer(minted, txid, false, None)
    ensures LegalAnswer(minted, txid, false, Some(err)) <==>
            if txid in minted then !IsRefusal(err) else !IsBNBStakingDuplicate(err)
    ensures LegalAnswer(minted, txid, true, Some(err)) <==> txid !in minted && !IsRefusal(err)
  {
  }

  predicate HexOk(r: BnbRow) {
    Decode(r.data.receipt).Ok? && Decode(r.data.proof).Ok?
  }

  function EventsIn(c: Chain, start: nat, end: uint64): seq<StakeEvent>
    decreases end
  {
    if end < start then []
    else (if end == 0 then [] else EventsIn(c, start, end - 1)) + c.events(end)
  }

  function Pop(s: State): State
    requires s.batch != []
  {
    s.(batch := s.batch[1..], stage := AtHead)
  }

  function BootStep(s: State, start: uint64, fate: Write): State {
    if s.syncPoint != 0 then s.(up := true)
    else if fate == Lost then s
    else s.(syncPoint := start, base := start, up := fate == Applied)
  }

  predicate IsScanEvent(e: Event) {
    e.Fetch? || e.Insert? || e.Advance?
  }

  predicate IsSubmitEvent(e: Event) {
    e.BadHex? || e.Create? || e.Mark?
  }

  function ScanStep(c: Config, s: State, e: Event): Option<State>
    requires IsScanEvent(e)
  {
    match e
    case Fetch(tip, list) =>
      if !s.scan.ScanIdle? || s.syncPoint + c.delay >= TWO_64 then None
      else
        (match NextWindow(s.syncPoint, tip, c.delay)
         case None => None
         case Some(w) =>
           if IsReceiptList(c.chain, EventsIn(c.chain, w.start, w.end), list)
           then Some(s.(scan := Fetched(w, list))) else None)
    case Insert(fate) =>
      if !s.scan.Fetched? then None
      else Some(s.(table := if fate == Lost then s.table else InsertAll(s.table, ToRows(CHAIN_NAME, s.scan.list)),
                   scan := if fate == Applied then Stored(s.scan.window) else ScanIdle))
    case Advance(fate) =>
      if !s.scan.Stored? then None
      else if fate == Lost then Some(s.(scan := ScanIdle))
      else Some(s.(syncPoint := s.scan.window.end, windows := s.windows + [s.scan.window], scan := ScanIdle))
  }

  function SubmitStep(s: State, e: Event): Option<State>
    requires IsSubmitEvent(e) && s.batch != []
  {
    var tx := s.batch[0];
    match e
    case BadHex => if s.stage.AtHead? && !HexOk(tx) then Some(s.(stage := Marking(Invalid))) else None
    case Create(landed, answer) =>
      if !s.stage.AtHead? || !HexOk(tx) || !LegalAnswer(s.minted, tx.key.txid, landed, answer) then None
      else
        var t := s.(minted := if landed then s.minted + {tx.key.txid} else s.minted);
        if answer.None? then Some(Pop(t))
        else if IsBNBStakingDuplicate(answer.value) then Some(t.(stage := Marking(Success)))
        else if IsBNBStakingRetryError(answer.value) then Some(Pop(t))
        else Some(t.(stage := Marking(Invalid), rejected := s.rejected + {(tx.key.txid, answer.value)}))
    case Mark(fate) =>
      if !s.stage.Marking? then None
      else
        var key := ChainTxid(CHAIN_NAME, tx.key.txid);
        Some(Pop(s.(table := if fate == Lost then s.table else SetStatus(s.table, key, s.stage.status))))
  }

  function Step(c: Config, s: State, e: Event): Option<State> {
    if IsScanEvent(e) then
      if s.up then ScanStep(c, s, e) else None
    else if IsSubmitEvent(e) then
      if s.up && s.batch != [] then SubmitStep(s, e) else None
    else
      match e
      case Crash => Some(s.(up := false, scan := ScanIdle, batch := [], stage := AtHead))
      case Boot(start, fate) => if s.up then None else Some(BootStep(s, start, fate))
      case MintElsewhere(txid) => Some(s.(minted := s.minted + {txid}))
      case Select(tip, batch) =>
        if s.up && s.batch == [] && IsUnhandledList(s.table, tip, batch)
        then Some(s.(batch := batch, stage := AtHead)) else None
      case _ => None
  }

  /** Nothing is assumed of the environment: a crash is always possible, a start of a stopped process and mints
      too, every write may meet every fate, every legal answer may come. */
  lemma EnvironmentIsFree(c: Config, s: State, start: uint64, fate: Write, txid: string,
                          landed: bool, answer: Option<string>)
    ensures Step(c, s, Crash).Some? && Step(c, s, MintElsewhere(txid)).Some?
    ensures !s.up ==> Step(c, s, Boot(start, fate)).Some?
    ensures s.up && s.scan.Fetched? ==> Step(c, s, Event.Insert(fate)).Some?
    ensures s.up && s.scan.Stored? ==> Step(c, s, Advance(fate)).Some?
    ensures s.up && s.batch != [] && s.stage.Marking? ==> Step(c, s, Mark(fate)).Some?
    ensures && s.up && s.batch != [] && s.stage == AtHead && HexOk(s.batch[0])
            && LegalAnswer(s.minted, s.batch[0].key.txid, landed, answer) ==>
              Step(c, s, Create(landed, answer)).Some?
  {
  }

  /** A crash loses the memory and nothing else. */
  lemma CrashLosesMemory(c: Config, s: State)
    ensures var t := Step(c, s, Crash).value;
            && t.table == s.table && t.syncPoint == s.syncPoint && t.minted == s.minted
            && !t.up && t.scan == ScanIdle && t.batch == [] && t.stage == AtHead
  {
  }

  function Exec(c: Config, s: State, es: seq<Event>): Option<State> {
    if es == [] then Some(s)
    else
      match Exec(c, s, es[..|es| - 1])
      case None => None
      case Some(t) => Step(c, t, es[|es| - 1])
  }

  predicate Init(s: State) {
    && !s.up && s.table == [] && s.scan == ScanIdle && s.batch == [] && s.stage == AtHead
    && s.base == s.syncPoint && s.windows == [] && s.rejected == {}
  }

  // ---------------------------------------------------------------------------
  // The invariant.

  /** Up to its status the row is one the scanner wrote. */
  ghost predicate Written(r: BnbRow) {
    exists x :: r.(status := Pending) == ToRow(CHAIN_NAME, x)
  }

  ghost predicate EventsStored(c: Config, height: uint64, t: seq<BnbRow>) {
    var events := c.chain.events(height);
    forall k | 0 <= k < |events| :: Has(t, ChainTxid(CHAIN_NAME, Encode(events[k].txHash)))
  }

  ghost predicate WindowStored(c: Config, w: Window, t: seq<BnbRow>) {
    forall h: uint64 | w.start <= h <= w.end :: EventsStored(c, h, t)
  }

  /** Where the first `n` windows end. */
  function EndOf(base: uint64, windows: seq<Window>, n: nat): uint64
    requires n <= |windows|
  {
    if n == 0 then base else windows[n - 1].end
  }

  /** The windows tile (base, syncPoint]: no gap, no overlap, each within its bounds. */
  ghost predicate Tiles(windows: seq<Window>, base: uint64, syncPoint: uint64, delay: uint64) {
    && syncPoint == EndOf(base, windows, |windows|)
    && forall i {:trigger EndOf(base, windows, i)} | 0 <= i < |windows| ::
         WindowOk(windows[i], delay) && windows[i].start == EndOf(base, windows, i) + 1
  }

  ghost predicate Holds(w: Window, h: uint64) {
    w.start <= h <= w.end
  }

  lemma TileFacts(windows: seq<Window>, base: uint64, syncPoint: uint64, delay: uint64, i: nat)
    requires Tiles(windows, base, syncPoint, delay) && i < |windows|
    ensures WindowOk(windows[i], delay) && windows[i].start == EndOf(base, windows, i) + 1
  {
    var end := EndOf(base, windows, i);
  }

  /** The windows run from one end to the next. */
  ghost predicate Chained(windows: seq<Window>, ends: seq<int>) {
    && |ends| == |windows| + 1
    && forall i | 0 <= i < |windows| :: windows[i].start == ends[i] + 1 && windows[i].end == ends[i + 1] > ends[i]
  }

  lemma TilesChained(windows: seq<Window>, base: uint64, syncPoint: uint64, delay: uint64) returns (ends: seq<int>)
    requires Tiles(windows, base, syncPoint, delay)
    ensures Chained(windows, ends) && ends[0] == base && ends[|windows|] == syncPoint
  {
    ends := seq(|windows| + 1, i requires 0 <= i <= |windows| => EndOf(base, windows, i));
    forall i | 0 <= i < |windows|
      ensures windows[i].start == ends[i] + 1 && windows[i].end == ends[i + 1] > ends[i]
    {
      TileFacts(windows, base, syncPoint, delay, i);
    }
  }

  lemma {:induction false} EndsRise(windows: seq<Window>, ends: seq<int>, i: nat, j: nat)
    requires Chained(windows, ends) && i <= j <= |windows|
    ensures ends[i] <= ends[j]
  {
    if i < j {
      EndsRise(windows, ends, i, j - 1);
      assert windows[j - 1].end == ends[j];
    }
  }

  lemma {:induction false} WindowOf(windows: seq<Window>, ends: seq<int>, h: uint64, n: nat) returns (i: nat)
    requires Chained(windows, ends) && n <= |windows| && ends[0] < h <= ends[n]
    ensures i < n && Holds(windows[i], h)
  {
    if h > ends[n - 1] {
      i := n - 1;
    } else {
      i := WindowOf(windows, ends, h, n - 1);
    }
  }

  lemma OneWindow(windows: seq<Window>, ends: seq<int>, h: uint64, i: nat, j: nat)
    requires Chained(windows, ends) && i < |windows| && j < |windows|
    requires Holds(windows[i], h) && Holds(windows[j], h)
    ensures !(i < j)
  {
    if i < j {
      EndsRise(windows, ends, i + 1, j);
    }
  }

  /** What tiling means: every height above the first sync point up to the current one lies in exactly one window,
      no other height lies in any, and each window has 1 to 1000 heights ending at least `delay` below its tip. */
  lemma TilesMean(windows: seq<Window>, base: uint64, syncPoint: uint64, delay: uint64, h: uint64)
    requires Tiles(windows, base, syncPoint, delay)
    ensures base < h <= syncPoint <==> exists i | 0 <= i < |windows| :: Holds(windows[i], h)
    ensures forall i, j | 0 <= i < |windows| && 0 <= j < |windows| ::
              Holds(windows[i], h) && Holds(windows[j], h) ==> i == j
    ensures forall i | 0 <= i < |windows| ::
              1 <= windows[i].end - windows[i].start + 1 <= 1000 && windows[i].end + delay <= windows[i].tip
  {
    var ends := TilesChained(windows, base, syncPoint, delay);
    ChainMeans(windows, ends, h);
    forall i | 0 <= i < |windows|
      ensures WindowOk(windows[i], delay)
    {
      TileFacts(windows, base, syncPoint, delay, i);
    }
  }

  lemma ChainMeans(windows: seq<Window>, ends: seq<int>, h: uint64)
    requires Chained(windows, ends)
    ensures ends[0] < h <= ends[|windows|] <==> exists i | 0 <= i < |windows| :: Holds(windows[i], h)
    ensures forall i, j | 0 <= i < |windows| && 0 <= j < |windows| ::
              Holds(windows[i], h) && Holds(windows[j], h) ==> i == j
  {
    if ends[0] < h <= ends[|windows|] {
      var i := WindowOf(windows, ends, h, |windows|);
    }
    forall i | 0 <= i < |windows| && Holds(windows[i], h)
      ensures ends[0] < h <= ends[|windows|]
    {
      EndsRise(windows, ends, 0, i);
      EndsRise(windows, ends, i + 1, |windows|);
    }
    forall i, j | 0 <= i < |windows| && 0 <= j < |windows| && Holds(windows[i], h) && Holds(windows[j], h)
      ensures i == j
    {
      OneWindow(windows, ends, h, i, j);
      OneWindow(windows, ends, h, j, i);
    }
  }

  ghost predicate TableOk(t: seq<BnbRow>) {
    Unique(t) && forall i | 0 <= i < |t| :: Written(t[i])
  }

  ghost predicate ScanOk(c: Config, s: State) {
    && (s.up || (s.scan == ScanIdle && s.batch == []))
    && (!s.scan.ScanIdle? ==> s.scan.window.start == s.syncPoint + 1 && WindowOk(s.scan.window, c.delay))
    && (s.scan.Fetched? ==>
          IsReceiptList(c.chain, EventsIn(c.chain, s.scan.window.start, s.scan.window.end), s.scan.list))
    && (s.scan.Stored? ==> WindowStored(c, s.scan.window, s.table))
  }

  ghost predicate Covered(c: Config, s: State) {
    && s.base <= s.syncPoint
    && forall h: uint64 | s.base < h <= s.syncPoint :: EventsStored(c, h, s.table)
  }

  ghost predicate BatchOk(s: State) {
    && Unique(s.batch)
    && (forall i | 0 <= i < |s.batch| :: Written(s.batch[i]))
    && (forall i | 0 <= i < |s.batch| :: Open(s.table, s.batch[i].key))
    && (s.stage != AtHead ==> s.batch != [])
    && (s.stage.Marking? ==> s.stage.status != Pending)
  }

  ghost predicate Truthful(s: State) {
    && (forall i | 0 <= i < |s.table| :: s.table[i].status == Success ==> s.table[i].key.txid in s.minted)
    && (s.stage == Marking(Success) ==> s.batch != [] && s.batch[0].key.txid in s.minted)
  }

  ghost predicate Refused(s: State, txid: string) {
    exists err :: (txid, err) in s.rejected && IsRefusal(err)
  }

  ghost predicate Caused(s: State) {
    && (forall i | 0 <= i < |s.table| :: s.table[i].status == Invalid ==> Refused(s, s.table[i].key.txid))
    && (s.stage == Marking(Invalid) ==> s.batch != [] && Refused(s, s.batch[0].key.txid))
    && (forall i | 0 <= i < |s.table| :: s.table[i].status != NotBelongToAgent)
    && s.stage != Marking(NotBelongToAgent)
  }

  ghost predicate Inv(c: Config, s: State) {
    && TableOk(s.table) && ScanOk(c, s) && Tiles(s.windows, s.base, s.syncPoint, c.delay) && Covered(c, s)
    && BatchOk(s) && Truthful(s) && Caused(s)
  }

  // ---------------------------------------------------------------------------
  // Rows the scanner wrote.

  /** Their receipt and proof decode to the very bytes that were encoded. */
  lemma WrittenDecodes(chainName: string, x: ReceiptWithProof)
    ensures Decode(ToRow(chainName, x).data.receipt) == Ok(x.receipt.raw)
    ensures Decode(ToRow(chainName, x).data.proof) == Ok(x.proof)
  {
    EncodeDecode(x.receipt.raw);
    EncodeDecode(x.proof);
  }

  lemma WrittenIsHex(r: BnbRow)
    requires Written(r)
    ensures HexOk(r) && r.key.chain == CHAIN_NAME
  {
    var x :| r.(status := Pending) == ToRow(CHAIN_NAME, x);
    WrittenDecodes(CHAIN_NAME, x);
  }

  // ---------------------------------------------------------------------------
  // One step keeps each part of the invariant.

  lemma StepEvolves(c: Config, s: State, e: Event)
    requires Unique(s.table) && BatchOk(s) && Step(c, s, e).Some?
    ensures Evolves(s.table, Step(c, s, e).value.table)
    ensures s.minted <= Step(c, s, e).value.minted && s.rejected <= Step(c, s, e).value.rejected
  {
    StepGrows(c, s, e);
    StepTableIs(c, s, e);
    if e.Mark? && e.fate != Lost {
      WrittenIsHex(s.batch[0]);
      MarkEvolves(s.table, s.batch[0].key, s.stage.status);
    } else if e.Insert? && e.fate != Lost {
      InsertEvolves(s.table, ToRows(CHAIN_NAME, s.scan.list));
    }
  }

  lemma StepGrows(c: Config, s: State, e: Event)
    requires Step(c, s, e).Some?
    ensures s.minted <= Step(c, s, e).value.minted && s.rejected <= Step(c, s, e).value.rejected
  {
  }

  /** Only an insert and a mark that are not lost write the table. */
  lemma StepTableIs(c: Config, s: State, e: Event)
    requires Step(c, s, e).Some?
    ensures var u := Step(c, s, e).value.table;
            if e.Insert? && e.fate != Lost
            then s.scan.Fetched? && u == InsertAll(s.table, ToRows(CHAIN_NAME, s.scan.list))
            else if e.Mark? && e.fate != Lost
            then && s.batch != [] && s.stage.Marking?
                 && u == SetStatus(s.table, ChainTxid(CHAIN_NAME, s.batch[0].key.txid), s.stage.status)
            else u == s.table
  {
  }

  lemma InsertTable(t: seq<BnbRow>, l: seq<ReceiptWithProof>)
    requires TableOk(t)
    ensures TableOk(InsertAll(t, ToRows(CHAIN_NAME, l)))
  {
    var ds := ToRows(CHAIN_NAME, l);
    InsertKeepsUnique(t, ds);
    InsertAddsOnly(t, ds);
    forall i | |t| <= i < |InsertAll(t, ds)|
      ensures Written(InsertAll(t, ds)[i])
    {
      var j :| 0 <= j < |ds| && ds[j] == InsertAll(t, ds)[i];
      assert ds[j] == ToRow(CHAIN_NAME, l[j]);
    }
  }

  lemma MarkTable(t: seq<BnbRow>, k: ChainTxid, st: Status)
    requires TableOk(t)
    ensures TableOk(SetStatus(t, k, st))
  {
    var u := SetStatus(t, k, st);
    forall i | 0 <= i < |u|
      ensures Written(u[i])
    {
      var x :| t[i].(status := Pending) == ToRow(CHAIN_NAME, x);
      assert u[i].(status := Pending) == ToRow(CHAIN_NAME, x);
    }
  }

  lemma StepTable(c: Config, s: State, e: Event)
    requires TableOk(s.table) && Step(c, s, e).Some?
    ensures TableOk(Step(c, s, e).value.table)
  {
    if e.Insert? {
      InsertTable(s.table, s.scan.list);
    } else if e.Mark? {
      MarkTable(s.table, ChainTxid(CHAIN_NAME, s.batch[0].key.txid), s.stage.status);
    }
  }

  /** The events of a window are those of its heights, and no others. */
  lemma {:induction false} EventsInIff(c: Chain, start: nat, end: uint64, x: StakeEvent)
    ensures x in EventsIn(c, start, end) <==> exists h: uint64 :: start <= h <= end && x in c.events(h)
    decreases end
  {
    if end >= start && end > 0 {
      EventsInIff(c, start, end - 1, x);
      if h: uint64 :| start <= h <= end && x in c.events(h) {
        assert h == end || h <= end - 1;
      }
    }
  }

  lemma {:induction false} EventIsListed(c: Chain, start: nat, end: uint64, h: uint64, k: nat)
    requires start <= h <= end && k < |c.events(h)|
    ensures c.events(h)[k] in EventsIn(c, start, end)
    decreases end
  {
    if h < end {
      EventIsListed(c, start, end - 1, h, k);
    }
  }

  /** Inserting a receipt list of a window stores all its events. */
  lemma InsertStoresWindow(c: Config, w: Window, l: seq<ReceiptWithProof>, t: seq<BnbRow>)
    requires IsReceiptList(c.chain, EventsIn(c.chain, w.start, w.end), l)
    ensures WindowStored(c, w, InsertAll(t, ToRows(CHAIN_NAME, l)))
  {
    var all, ds := EventsIn(c.chain, w.start, w.end), ToRows(CHAIN_NAME, l);
    forall h: uint64, k | w.start <= h <= w.end && 0 <= k < |c.chain.events(h)|
      ensures Has(InsertAll(t, ds), ChainTxid(CHAIN_NAME, Encode(c.chain.events(h)[k].txHash)))
    {
      EventIsListed(c.chain, w.start, w.end, h, k);
      var j :| 0 <= j < |all| && all[j] == c.chain.events(h)[k];
      EventHasRow(c.chain, all, l, CHAIN_NAME, j);
      InsertHas(t, ds, ChainTxid(CHAIN_NAME, Encode(all[j].txHash)));
    }
  }

  lemma StoredEvolves(c: Config, h: uint64, t: seq<BnbRow>, u: seq<BnbRow>)
    requires Evolves(t, u)
    ensures EventsStored(c, h, t) ==> EventsStored(c, h, u)
  {
    forall k | Has(t, k)
      ensures Has(u, k)
    {
      EvolvesHas(t, u, k);
    }
  }

  /** Only the scan loop and a crash touch the scan. */
  lemma StepKeepsScan(c: Config, s: State, e: Event)
    requires ScanOk(c, s) && Step(c, s, e).Some? && !IsScanEvent(e)
    ensures var t := Step(c, s, e).value;
            && (t.scan == ScanIdle || (t.scan == s.scan && t.syncPoint == s.syncPoint))
            && (t.up || (t.scan == ScanIdle && t.batch == []))
  {
  }

  lemma StepScan(c: Config, s: State, e: Event)
    requires Unique(s.table) && BatchOk(s) && ScanOk(c, s) && Step(c, s, e).Some?
    ensures ScanOk(c, Step(c, s, e).value)
  {
    var t := Step(c, s, e).value;
    if IsScanEvent(e) {
      if e.Fetch? {
        WindowIsExact(s.syncPoint, e.tip, c.delay);
      } else if e.Insert? {
        InsertStoresWindow(c, s.scan.window, s.scan.list, s.table);
      }
    } else {
      StepKeepsScan(c, s, e);
      if t.scan.Stored? {
        assert Evolves(s.table, t.table) by { StepEvolves(c, s, e); }
        WindowEvolves(c, s.scan.window, s.table, t.table);
      }
    }
  }

  lemma WindowEvolves(c: Config, w: Window, t: seq<BnbRow>, u: seq<BnbRow>)
    requires Evolves(t, u) && WindowStored(c, w, t)
    ensures WindowStored(c, w, u)
  {
    forall h: uint64 | w.start <= h <= w.end
      ensures EventsStored(c, h, u)
    {
      StoredEvolves(c, h, t, u);
    }
  }

  /** The sync point moves only to the end of the window just stored, or to start at installation. */
  lemma StepSyncPoint(c: Config, s: State, e: Event)
    requires ScanOk(c, s) && Step(c, s, e).Some?
    ensures var t := Step(c, s, e).value;
            || (t.syncPoint == s.syncPoint && t.base == s.base && t.windows == s.windows)
            || (s.syncPoint == 0 && t.base == t.syncPoint && t.windows == s.windows)
            || (&& s.scan.Stored? && t.syncPoint == s.scan.window.end && t.base == s.base
                && t.windows == s.windows + [s.scan.window])
  {
  }

  lemma TileKept(windows: seq<Window>, base: uint64, w: Window, i: nat)
    requires i <= |windows|
    ensures EndOf(base, windows + [w], i) == EndOf(base, windows, i)
  {
  }

  lemma TileNext(windows: seq<Window>, base: uint64, syncPoint: uint64, delay: uint64, w: Window)
    requires Tiles(windows, base, syncPoint, delay) && WindowOk(w, delay) && w.start == syncPoint + 1
    ensures Tiles(windows + [w], base, w.end, delay)
  {
    var longer := windows + [w];
    forall i | 0 <= i < |longer|
      ensures WindowOk(longer[i], delay) && longer[i].start == EndOf(base, longer, i) + 1
    {
      TileAt(windows, base, syncPoint, delay, w, i);
    }
    assert EndOf(base, longer, |longer|) == w.end;
  }

  lemma TileAt(windows: seq<Window>, base: uint64, syncPoint: uint64, delay: uint64, w: Window, i: nat)
    requires Tiles(windows, base, syncPoint, delay) && WindowOk(w, delay) && w.start == syncPoint + 1
    requires i <= |windows|
    ensures var longer := windows + [w];
            WindowOk(longer[i], delay) && longer[i].start == EndOf(base, longer, i) + 1
  {
    TileKept(windows, base, w, i);
    if i < |windows| {
      TileFacts(windows, base, syncPoint, delay, i);
      assert (windows + [w])[i] == windows[i];
    }
  }

  /** A window was committed only if the sync point is positive, so a sync point of 0 may be set anew. */
  lemma TilesStay(windows: seq<Window>, base: uint64, syncPoint: uint64, delay: uint64,
                  newBase: uint64, newSyncPoint: uint64)
    requires Tiles(windows, base, syncPoint, delay)
    requires (newSyncPoint == syncPoint && newBase == base) || (syncPoint == 0 && newBase == newSyncPoint)
    ensures Tiles(windows, newBase, newSyncPoint, delay)
  {
    if windows != [] {
      TileFacts(windows, base, syncPoint, delay, |windows| - 1);
    }
  }

  lemma StepTiled(c: Config, s: State, e: Event)
    requires ScanOk(c, s) && Tiles(s.windows, s.base, s.syncPoint, c.delay) && Step(c, s, e).Some?
    ensures var t := Step(c, s, e).value; Tiles(t.windows, t.base, t.syncPoint, c.delay)
  {
    StepSyncPoint(c, s, e);
    var t := Step(c, s, e).value;
    if s.scan.Stored? && t.windows == s.windows + [s.scan.window] {
      TileNext(s.windows, s.base, s.syncPoint, c.delay, s.scan.window);
    } else {
      TilesStay(s.windows, s.base, s.syncPoint, c.delay, t.base, t.syncPoint);
    }
  }

  lemma StepCovered(c: Config, s: State, e: Event)
    requires Unique(s.table) && BatchOk(s) && ScanOk(c, s) && Covered(c, s) && Step(c, s, e).Some?
    ensures Covered(c, Step(c, s, e).value)
    ensures s.syncPoint <= Step(c, s, e).value.syncPoint
  {
    var t := Step(c, s, e).value;
    var tt := t.table;
    assert Evolves(s.table, tt) by { StepEvolves(c, s, e); }
    StepSyncPoint(c, s, e);
    forall h: uint64 | t.base < h <= t.syncPoint
      ensures EventsStored(c, h, tt)
    {
      StoredEvolves(c, h, s.table, tt);
    }
  }

  lemma SelectedIsOpen(t: seq<BnbRow>, tip: uint64, b: seq<BnbRow>, i: nat)
    requires Unique(t) && IsUnhandledList(t, tip, b) && i < |b|
    ensures Open(t, b[i].key)
  {
    assert b[i] in t;
    var j :| 0 <= j < |t| && t[j] == b[i];
    TerminalNotPending(t, j);
  }

  /** A batch is what was read or a rest of what it was. */
  lemma StepBatchRows(c: Config, s: State, e: Event)
    requires Step(c, s, e).Some?
    ensures var t := Step(c, s, e).value;
            || t.batch == [] || t.batch == s.batch || (e.Select? && t.batch == e.batch && t.table == s.table)
            || (IsSubmitEvent(e) && s.batch != [] && t.batch == s.batch[1..])
    ensures !e.Insert? && !e.Mark? ==> Step(c, s, e).value.table == s.table
    ensures e.Insert? ==> Step(c, s, e).value.batch == s.batch
    ensures e.Mark? ==> s.batch != [] && Step(c, s, e).value.batch == s.batch[1..]
  {
  }

  lemma StepBatchWritten(c: Config, s: State, e: Event, i: nat)
    requires TableOk(s.table) && Step(c, s, e).Some? && i < |Step(c, s, e).value.batch|
    requires forall j | 0 <= j < |s.batch| :: Written(s.batch[j])
    ensures Written(Step(c, s, e).value.batch[i])
  {
    StepBatchRows(c, s, e);
    var b := Step(c, s, e).value.batch;
    if e.Select? {
      assert b[i] in s.table;
    } else {
      assert b == s.batch || b[i] == s.batch[i + 1];
    }
  }

  lemma StepBatchOpen(c: Config, s: State, e: Event, i: nat)
    requires Unique(s.table) && BatchOk(s) && Step(c, s, e).Some? && i < |Step(c, s, e).value.batch|
    ensures Open(Step(c, s, e).value.table, Step(c, s, e).value.batch[i].key)
  {
    StepBatchRows(c, s, e);
    var k := Step(c, s, e).value.batch[i].key;
    if e.Select? {
      SelectedIsOpen(s.table, e.tip, e.batch, i);
    } else if e.Insert? {
      InsertKeepsOpen(s.table, ToRows(CHAIN_NAME, s.scan.list), k);
    } else if e.Mark? {
      assert k == s.batch[i + 1].key;
      WrittenIsHex(s.batch[0]);
      MarkOthers(s.table, s.batch[0].key, s.stage.status, k);
    } else {
      assert Step(c, s, e).value.batch == s.batch || k == s.batch[i + 1].key;
    }
  }

  lemma StepBatchUnique(c: Config, s: State, e: Event)
    requires Unique(s.batch) && Step(c, s, e).Some?
    ensures Unique(Step(c, s, e).value.batch)
  {
    StepBatchRows(c, s, e);
  }

  /** A status is pending to be written for the first row, and is not Pending. */
  lemma StepMarking(c: Config, s: State, e: Event)
    requires s.stage != AtHead ==> s.batch != []
    requires s.stage.Marking? ==> s.stage.status != Pending
    requires Step(c, s, e).Some?
    ensures var t := Step(c, s, e).value;
            (t.stage != AtHead ==> t.batch != []) && (t.stage.Marking? ==> t.stage.status != Pending)
  {
  }

  lemma StepBatch(c: Config, s: State, e: Event)
    requires TableOk(s.table) && BatchOk(s) && Step(c, s, e).Some?
    ensures BatchOk(Step(c, s, e).value)
  {
    var t := Step(c, s, e).value;
    var b, u := t.batch, t.table;
    StepBatchUnique(c, s, e);
    StepMarking(c, s, e);
    forall i | 0 <= i < |b|
      ensures Written(b[i])
    {
      StepBatchWritten(c, s, e, i);
    }
    forall i | 0 <= i < |b|
      ensures Open(u, b[i].key)
    {
      StepBatchOpen(c, s, e, i);
    }
  }

  /** Where the status of a row can come from in one step. */
  ghost predicate Moved(s: State, u: seq<BnbRow>) {
    forall i | 0 <= i < |u| ::
      || u[i].status == Pending
      || (i < |s.table| && u[i] == s.table[i])
      || (&& i < |s.table| && s.batch != [] && u[i].key == s.table[i].key == s.batch[0].key
          && s.stage.Marking? && u[i].status == s.stage.status)
  }

  lemma InsertMoved(s: State, l: seq<ReceiptWithProof>)
    ensures Moved(s, InsertAll(s.table, ToRows(CHAIN_NAME, l)))
  {
    InsertAddsOnly(s.table, ToRows(CHAIN_NAME, l));
  }

  lemma MarkMoved(s: State)
    requires BatchOk(s) && s.stage.Marking?
    ensures Moved(s, SetStatus(s.table, ChainTxid(CHAIN_NAME, s.batch[0].key.txid), s.stage.status))
  {
    WrittenIsHex(s.batch[0]);
  }

  lemma StepMoved(c: Config, s: State, e: Event)
    requires BatchOk(s) && Step(c, s, e).Some?
    ensures Moved(s, Step(c, s, e).value.table)
  {
    StepTableIs(c, s, e);
    if e.Insert? && e.fate != Lost {
      InsertMoved(s, s.scan.list);
    } else if e.Mark? && e.fate != Lost {
      MarkMoved(s);
    }
  }

  /** How the submit loop comes to write a status. */
  lemma StepStage(c: Config, s: State, e: Event)
    requires BatchOk(s) && Step(c, s, e).Some?
    ensures var t := Step(c, s, e).value;
            t.stage.Marking? ==>
              && t.batch == s.batch != []
              && (t.stage == s.stage
                  || (t.stage == Marking(Success) && s.batch[0].key.txid in t.minted)
                  || (&& t.stage == Marking(Invalid) && s.batch[0].key.txid !in s.minted
                      && Refused(t, s.batch[0].key.txid)))
    ensures var t := Step(c, s, e).value; s.minted <= t.minted && s.rejected <= t.rejected
  {
    if e.BadHex? {
      WrittenIsHex(s.batch[0]);
    } else if e.Create? && e.answer.Some? && IsRefusal(e.answer.value) {
      assert (s.batch[0].key.txid, e.answer.value) in Step(c, s, e).value.rejected;
    }
  }

  lemma TruthfulNext(s: State, t: State)
    requires Truthful(s) && Moved(s, t.table) && s.minted <= t.minted
    requires t.stage == Marking(Success) ==> t.batch != [] && t.batch[0].key.txid in t.minted
    ensures Truthful(t)
  {
  }

  lemma CausedNext(s: State, t: State)
    requires Caused(s) && Moved(s, t.table) && s.rejected <= t.rejected
    requires t.stage == Marking(Invalid) ==> t.batch != [] && Refused(t, t.batch[0].key.txid)
    requires t.stage != Marking(NotBelongToAgent)
    ensures Caused(t)
  {
    forall txid | Refused(s, txid)
      ensures Refused(t, txid)
    {
      var err :| (txid, err) in s.rejected && IsRefusal(err);
      assert (txid, err) in t.rejected;
    }
  }

  lemma RefusedGrows(s: State, t: State, txid: string)
    requires Refused(s, txid) && s.rejected <= t.rejected
    ensures Refused(t, txid)
  {
    var err :| (txid, err) in s.rejected && IsRefusal(err);
    assert (txid, err) in t.rejected;
  }

  lemma StepTruthfulCaused(c: Config, s: State, e: Event)
    requires BatchOk(s) && Truthful(s) && Caused(s) && Step(c, s, e).Some?
    ensures Truthful(Step(c, s, e).value) && Caused(Step(c, s, e).value)
  {
    var t := Step(c, s, e).value;
    StepMoved(c, s, e);
    StepStage(c, s, e);
    if t.stage == s.stage == Marking(Invalid) {
      RefusedGrows(s, t, s.batch[0].key.txid);
    }
    TruthfulNext(s, t);
    CausedNext(s, t);
  }

  lemma StepInv(c: Config, s: State, e: Event)
    requires Inv(c, s) && Step(c, s, e).Some?
    ensures Inv(c, Step(c, s, e).value)
  {
    StepTable(c, s, e);
    StepScan(c, s, e);
    StepTiled(c, s, e);
    StepCovered(c, s, e);
    StepBatch(c, s, e);
    StepTruthfulCaused(c, s, e);
  }

  // ---------------------------------------------------------------------------
  // Whole runs.

  lemma {:induction false} ExecInv(c: Config, s: State, es: seq<Event>)
    requires Inv(c, s) && Exec(c, s, es).Some?
    ensures Inv(c, Exec(c, s, es).value)
  {
    if es != [] {
      var n := |es| - 1;
      ExecInv(c, s, es[..n]);
      StepInv(c, Exec(c, s, es[..n]).value, es[n]);
    }
  }

  lemma {:induction false} ExecAppend(c: Config, s: State, a: seq<Event>, b: seq<Event>)
    requires Exec(c, s, a).Some?
    ensures Exec(c, s, a + b) == Exec(c, Exec(c, s, a).value, b)
  {
    if b == [] {
      assert a + b == a;
    } else {
      ExecAppend(c, s, a, b[..|b| - 1]);
      assert (a + b)[..|a + b| - 1] == a + b[..|b| - 1];
    }
  }

  lemma Exec1(c: Config, s: State, e: Event)
    ensures Exec(c, s, [e]) == Step(c, s, e)
  {
    assert [e][..0] == [];
  }

  /** The run through these states. */
  lemma {:induction false} PathRuns(c: Config, ss: seq<State>, es: seq<Event>)
    requires |ss| == |es| + 1
    requires forall i | 0 <= i < |es| :: Step(c, ss[i], es[i]) == Some(ss[i + 1])
    ensures Exec(c, ss[0], es) == Some(ss[|es|])
  {
    if es != [] {
      PathRuns(c, ss[..|es|], es[..|es| - 1]);
    }
  }

  /** Coverage. In every run from a first installation the committed windows tile
      (initial sync point, sync point], each has 1 to 1000 blocks ending at least `delay` below the tip
      it was computed from, and every stake event in that range has exactly one row for its transaction. */
  lemma EveryEventHasOneRow(c: Config, s0: State, es: seq<Event>, h: uint64, k: nat)
    requires Init(s0) && Exec(c, s0, es).Some?
    ensures var s := Exec(c, s0, es).value;
            && Tiles(s.windows, s.base, s.syncPoint, c.delay)
            && (s.base < h <= s.syncPoint && k < |c.chain.events(h)| ==>
                  exists i | 0 <= i < |s.table| ::
                    && s.table[i].key == ChainTxid("bnb", Encode(c.chain.events(h)[k].txHash))
                    && forall j | 0 <= j < |s.table| :: s.table[j].key == s.table[i].key ==> j == i)
  {
    ExecInv(c, s0, es);
    var s := Exec(c, s0, es).value;
    if s.base < h <= s.syncPoint && k < |c.chain.events(h)| {
      assert EventsStored(c, h, s.table);
      var i := OneRow(s.table, ChainTxid(CHAIN_NAME, Encode(c.chain.events(h)[k].txHash)));
    }
  }

  /** One-way statuses, a monotone sync point and a fixed start between any two states of a run. */
  lemma {:induction false} StatusesAreOneWay(c: Config, s: State, es: seq<Event>)
    requires Inv(c, s) && Exec(c, s, es).Some?
    ensures Evolves(s.table, Exec(c, s, es).value.table)
    ensures s.syncPoint <= Exec(c, s, es).value.syncPoint
    ensures s.minted <= Exec(c, s, es).value.minted
    ensures s.syncPoint > 0 ==> Exec(c, s, es).value.base == s.base
  {
    if es != [] {
      var n := |es| - 1;
      var t := Exec(c, s, es[..n]).value;
      StatusesAreOneWay(c, s, es[..n]);
      ExecInv(c, s, es[..n]);
      StepEvolves(c, t, es[n]);
      StepCovered(c, t, es[n]);
      StepSyncPoint(c, t, es[n]);
      EvolvesTrans(s.table, t.table, Step(c, t, es[n]).value.table);
    }
  }

  /** Statuses have causes in every run: a Success row is minted, an Invalid row was refused by Lorenzo
      with an error that is neither the duplicate nor a retryable one, and the decode failures of
      the submit loop never happen. */
  lemma StatusesHaveCauses(c: Config, s0: State, es: seq<Event>, i: nat)
    requires Init(s0) && Exec(c, s0, es).Some? && i < |Exec(c, s0, es).value.table|
    ensures var s := Exec(c, s0, es).value;
            && (s.table[i].status == Success ==> s.table[i].key.txid in s.minted)
            && (s.table[i].status == Invalid ==> Refused(s, s.table[i].key.txid))
            && Step(c, s, BadHex).None?
  {
    ExecInv(c, s0, es);
    var s := Exec(c, s0, es).value;
    if s.batch != [] {
      WrittenIsHex(s.batch[0]);
    }
  }

  // ---------------------------------------------------------------------------
  // Minted and yet Invalid?

  ghost predicate IsInvalid(t: seq<BnbRow>, txid: string) {
    exists i | 0 <= i < |t| :: t[i].key.txid == txid && t[i].status == Invalid
  }

  /** The refusal of `txid` was received but is not yet written. */
  ghost predicate BeingRefused(s: State, txid: string) {
    s.batch != [] && s.batch[0].key.txid == txid && s.stage == Marking(Invalid)
  }

  lemma StepKeepsMintedSafe(c: Config, s: State, e: Event, txid: string)
    requires BatchOk(s) && Step(c, s, e).Some?
    requires txid in s.minted && !IsInvalid(s.table, txid) && !BeingRefused(s, txid)
    ensures !IsInvalid(Step(c, s, e).value.table, txid) && !BeingRefused(Step(c, s, e).value, txid)
  {
    StepStage(c, s, e);
    StepMoved(c, s, e);
    SafeNext(s, Step(c, s, e).value.table, txid);
  }

  lemma SafeNext(s: State, u: seq<BnbRow>, txid: string)
    requires Moved(s, u) && !IsInvalid(s.table, txid) && !BeingRefused(s, txid)
    ensures !IsInvalid(u, txid)
  {
  }

  lemma {:induction false} ExecKeepsMintedSafe(c: Config, s: State, es: seq<Event>, txid: string)
    requires Inv(c, s) && Exec(c, s, es).Some?
    requires txid in s.minted && !IsInvalid(s.table, txid) && !BeingRefused(s, txid)
    ensures !IsInvalid(Exec(c, s, es).value.table, txid)
    ensures !BeingRefused(Exec(c, s, es).value, txid)
  {
    if es != [] {
      var n := |es| - 1;
      ExecKeepsMintedSafe(c, s, es[..n], txid);
      ExecInv(c, s, es[..n]);
      StatusesAreOneWay(c, s, es[..n]);
      StepKeepsMintedSafe(c, Exec(c, s, es[..n]).value, es[n], txid);
    }
  }

  lemma WriteRefusal(c: Config, s: State, txid: string)
    requires Inv(c, s) && BeingRefused(s, txid)
    ensures Exec(c, s, [Mark(Applied)]).Some? && IsInvalid(Exec(c, s, [Mark(Applied)]).value.table, txid)
  {
    Exec1(c, s, Mark(Applied));
    WrittenIsHex(s.batch[0]);
    MarkedIsInvalid(s.table, s.batch[0].key);
  }

  lemma MarkedIsInvalid(t: seq<BnbRow>, k: ChainTxid)
    requires Open(t, k)
    ensures IsInvalid(SetStatus(t, k, Invalid), k.txid)
  {
    assert Has(t, k);
    var i :| 0 <= i < |t| && t[i].key == k;
    assert SetStatus(t, k, Invalid)[i].status == Invalid;
  }

  /** Exactly when a minted txid can still end up Invalid: it already is, or its refusal was received
      before someone else minted it and only remains to be written. */
  lemma MintedInvalidIff(c: Config, s: State, txid: string)
    requires Inv(c, s) && txid in s.minted
    ensures (exists es :: Exec(c, s, es).Some? && IsInvalid(Exec(c, s, es).value.table, txid))
       <==> IsInvalid(s.table, txid) || BeingRefused(s, txid)
  {
    if IsInvalid(s.table, txid) {
      assert Exec(c, s, []) == Some(s);
    } else if BeingRefused(s, txid) {
      WriteRefusal(c, s, txid);
      var es := [Mark(Applied)];
      assert Exec(c, s, es).Some? && IsInvalid(Exec(c, s, es).value.table, txid);
    } else {
      forall es | Exec(c, s, es).Some?
        ensures !IsInvalid(Exec(c, s, es).value.table, txid)
      {
        ExecKeepsMintedSafe(c, s, es, txid);
      }
    }
  }

  /** What the relayer itself mints is neither Invalid nor refused. */
  lemma FreshMintIsPending(c: Config, s: State, e: Event, txid: string)
    requires Inv(c, s) && Step(c, s, e).Some? && !e.MintElsewhere?
    requires txid !in s.minted && txid in Step(c, s, e).value.minted
    ensures !IsInvalid(Step(c, s, e).value.table, txid) && !BeingRefused(Step(c, s, e).value, txid)
  {
    StepMints(c, s, e, txid);
    WrittenIsHex(s.batch[0]);
    PendingIsNotInvalid(s.table, s.batch[0].key);
  }

  /** The relayer mints only the first row of its batch, and then does not refuse it. */
  lemma StepMints(c: Config, s: State, e: Event, txid: string)
    requires Step(c, s, e).Some? && !e.MintElsewhere?
    requires txid !in s.minted && txid in Step(c, s, e).value.minted
    ensures s.batch != [] && s.batch[0].key.txid == txid
    ensures Step(c, s, e).value.table == s.table && Step(c, s, e).value.stage != Marking(Invalid)
  {
  }

  lemma PendingIsNotInvalid(t: seq<BnbRow>, k: ChainTxid)
    requires TableOk(t) && Open(t, k) && k.chain == CHAIN_NAME
    ensures !IsInvalid(t, k.txid)
  {
    forall i | 0 <= i < |t| && t[i].key.txid == k.txid
      ensures t[i].status != Invalid
    {
      WrittenIsHex(t[i]);
      assert t[i].key == k;
    }
  }

  /** While no one else mints, a minted txid is never marked Invalid, in any run. */
  lemma {:induction false} SoleMinterNeverInvalidatesMinted(c: Config, s: State, es: seq<Event>, txid: string)
    requires Inv(c, s) && Exec(c, s, es).Some?
    requires forall i | 0 <= i < |es| :: !es[i].MintElsewhere?
    requires txid in s.minted ==> !IsInvalid(s.table, txid) && !BeingRefused(s, txid)
    ensures var t := Exec(c, s, es).value; txid in t.minted ==> !IsInvalid(t.table, txid) && !BeingRefused(t, txid)
  {
    if es != [] {
      var n := |es| - 1;
      var t := Exec(c, s, es[..n]).value;
      SoleMinterNeverInvalidatesMinted(c, s, es[..n], txid);
      ExecInv(c, s, es[..n]);
      if txid in t.minted {
        StepKeepsMintedSafe(c, t, es[n], txid);
      } else if txid in Step(c, t, es[n]).value.minted {
        FreshMintIsPending(c, t, es[n], txid);
      }
    }
  }
}
