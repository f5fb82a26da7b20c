/** The loop bodies of txrelayer/bnb_txrelayer.go as methods, proved to perform only enabled
    events of the transition system while the other loop acts between any two actions. */
module BnbRelayer {
  import opened Common
  import opened Table
  import opened BnbRepository
  import opened StakePlan
  import opened Hex
  import opened BnbProtocol
  import BnbDrain
  import opened BnbHistory

  datatype Thread = ScanThread | SubmitThread

  predicate OwnedBy(e: Event, me: Thread) {
    match me
    case ScanThread => IsScanEvent(e)
    case SubmitThread => IsSubmitEvent(e) || e.Select?
  }

  predicate IsOther(e: Event, me: Thread) {
    !e.Crash? && !e.Boot? && !OwnedBy(e, me)
  }

  /** What one event of another thread leaves alone. */
  lemma OtherEvent(c: Config, s: State, e: Event, me: Thread, h: History)
    requires s.up && Step(c, s, e).Some? && IsOther(e, me)
    ensures var t := Step(c, s, e).value;
            && t.up && s.minted <= t.minted
            && (me == ScanThread ==> t.scan == s.scan && t.syncPoint == s.syncPoint)
            && (me == SubmitThread ==> t.batch == s.batch && t.stage == s.stage && Note(s, e, h) == h)
  {
  }

  /** Hence what any run of them leaves alone: the contract of `Others` below assumes nothing more. */
  lemma {:induction false} OtherEvents(c: Config, s: State, a: seq<Event>, b: seq<Event>, me: Thread)
    requires Exec(c, s, a).Some? && Exec(c, s, a).value.up && Exec(c, s, a + b).Some?
    requires forall i | 0 <= i < |b| :: IsOther(b[i], me)
    ensures var m, t := Exec(c, s, a).value, Exec(c, s, a + b).value;
            && t.up && m.minted <= t.minted
            && (me == ScanThread ==> t.scan == m.scan && t.syncPoint == m.syncPoint)
            && (me == SubmitThread ==> t.batch == m.batch && t.stage == m.stage)
    ensures me == SubmitThread ==> HistoryOf(c, s, a + b) == HistoryOf(c, s, a)
    decreases |b|
  {
    if b == [] {
      assert a + b == a;
    } else {
      var front, last := b[..|b| - 1], b[|b| - 1];
      var es := a + front;
      assert a + b == es + [last] && (es + [last])[..|es|] == es;
      OtherEvents(c, s, a, front, me);
      OtherEvent(c, Exec(c, s, es).value, last, me, HistoryOf(c, s, es));
    }
  }

  class Lorenzo {
    var minted: set<string>
    /** The submissions of this relayer, in order. */
    ghost var submissions: seq<Submission>

    constructor (minted: set<string>)
      ensures this.minted == minted && submissions == []
    {
      this.minted := minted;
      this.submissions := [];
    }

    /** Any legal fate of the submission of `x`, which Lorenzo identifies by its receipt's
        transaction; `answer` is the error, if any. */
    method CreateBTCBStaking(msg: MsgCreateBTCBStaking, ghost x: ReceiptWithProof, txid: string)
      returns (answer: Option<string>, ghost landed: bool)
      requires msg == MessageOf(x) && txid == Encode(x.receipt.txHash)
      modifies this
      ensures LegalAnswer(old(minted), txid, landed, answer)
      ensures minted == if landed then old(minted) + {txid} else old(minted)
      ensures submissions == old(submissions) + [Submission(txid, msg, landed, answer)]
    {
      ContainsItself(DUPLICATE_EVENT_ERROR);
      assert LegalAnswer(minted, txid, txid !in minted, if txid in minted then Some(DUPLICATE_EVENT_ERROR) else None);
      var lands: bool;
      lands, answer :| LegalAnswer(minted, txid, lands, answer);
      landed := lands;
      submissions := submissions + [Submission(txid, msg, lands, answer)];
      if lands {
        minted := minted + {txid};
      }
    }
  }

  class BNBTxRelayer {
    const config: Config
    const repository: Repository
    const lorenzo: Lorenzo

    ghost const start: State
    ghost var trace: seq<Event>

    ghost predicate IsRun()
      reads this
    {
      Init(start) && Exec(config, start, trace).Some?
    }

    ghost function World(): State
      reads this
      requires IsRun()
    {
      Exec(config, start, trace).value
    }

    /** What the run sent out. */
    ghost function Log(): History
      reads this
      requires IsRun()
    {
      HistoryOf(config, start, trace)
    }

    /** The run agrees with the database and Lorenzo, and what it sent out is exactly what Lorenzo and
        the database received. */
    ghost predicate Valid()
      reads this, repository, repository.config, lorenzo
    {
      && IsRun()
      && repository.Valid()
      && repository.chainName == CHAIN_NAME
      && World().table == repository.rows
      && World().syncPoint == repository.SyncPoint()
      && World().minted == lorenzo.minted
      && Log().submissions == lorenzo.submissions
      && Log().writes == repository.writes
    }

    constructor (config: Config, repository: Repository, lorenzo: Lorenzo)
      requires repository.Valid() && repository.rows == [] && repository.chainName == CHAIN_NAME
      requires repository.writes == [] && lorenzo.submissions == []
      ensures Valid() && !World().up && trace == []
      ensures this.config == config && this.repository == repository && this.lorenzo == lorenzo
    {
      this.config := config;
      this.repository := repository;
      this.lorenzo := lorenzo;
      this.start := State(false, [], repository.SyncPoint(), lorenzo.minted, ScanIdle, [], AtHead,
                          repository.SyncPoint(), [], {});
      this.trace := [];
    }

    ghost predicate Extended(before: seq<Event>)
      reads this
    {
      before <= trace
    }

    ghost method Record(e: Event)
      requires IsRun() && Step(config, World(), e).Some?
      modifies this`trace
      ensures IsRun() && World() == Step(config, old(World()), e).value
      ensures trace == old(trace) + [e]
      ensures Log() == Note(old(World()), e, old(Log()))
    {
      trace := trace + [e];
      assert trace[..|trace| - 1] == old(trace);
    }

    /** The other loop and the rest of the world act, any number of times; callers are verified
        against this contract alone. */
    method Others(ghost me: Thread)
      requires Valid() && World().up
      modifies this`trace, repository, repository.config, lorenzo
      ensures Valid() && World().up && Extended(old(trace))
      ensures forall i | |old(trace)| <= i < |trace| :: IsOther(trace[i], me)
      ensures me == ScanThread ==> World().scan == old(World().scan) && World().syncPoint == old(World().syncPoint)
      ensures me == SubmitThread ==> World().batch == old(World().batch) && World().stage == old(World().stage)
      ensures old(World().minted) <= World().minted
      ensures me == SubmitThread ==> Log() == old(Log())
    {
    }

    /** NewBnbTxRelayer on a stopped process. */
    method Boot(startHeight: uint64, readFails: bool, fate: Write) returns (ok: bool)
      requires Valid() && !World().up
      modifies this`trace, repository.config
      ensures Valid() && Extended(old(trace)) && ok == World().up
      ensures repository.SyncPoint() == if old(repository.SyncPoint()) == 0 && !readFails && fate != Lost
                                        then startHeight else old(repository.SyncPoint())
      ensures ok <==> !readFails && (old(repository.SyncPoint()) == 0 ==> fate == Applied)
    {
      var height := repository.GetSyncPoint(readFails);
      if height.None? {
        return false;
      }
      if height.value == 0 {
        var updated := repository.UpdateSyncPoint(startHeight, false, fate);
        if !updated {
          if fate != Lost {
            RecordBoot(startHeight, AppliedUnacked);
          }
          return false;
        }
      }
      RecordBoot(startHeight, Applied);
      ok := true;
    }

    /** The start, after its write to the sync point. */
    ghost method RecordBoot(startHeight: uint64, fate: Write)
      requires IsRun() && repository.Valid() && repository.chainName == CHAIN_NAME && !World().up
      requires World().table == repository.rows && World().minted == lorenzo.minted
      requires Log().submissions == lorenzo.submissions && Log().writes == repository.writes
      requires fate == Applied || (World().syncPoint == 0 && fate == AppliedUnacked)
      requires repository.SyncPoint() == if World().syncPoint == 0 then startHeight else World().syncPoint
      modifies this`trace
      ensures Valid() && Extended(old(trace))
      ensures World().up <==> fate == Applied
    {
      Record(Event.Boot(startHeight, fate));
    }

    /** One iteration of scanLoop. A tip query that fails leaves the tip 0, as in Go. The
        precondition excludes wrap-around of syncPoint + delayBlocks. */
    method ScanWindow(tip: Option<uint64>, syncReadFails: bool, logsFail: bool, fails: Hash -> bool,
                      failAt: Option<nat>, commit: Write, advanceReadFails: bool, advance: Write)
      returns (done: bool)
      requires Valid() && World().up && World().scan == ScanIdle
      requires repository.SyncPoint() + config.delay < TWO_64
      modifies this`trace, repository, repository.config, lorenzo
      ensures Valid() && Extended(old(trace)) && World().up && World().scan == ScanIdle
      ensures var w := NextWindow(old(repository.SyncPoint()), if tip.Some? then tip.value else 0, config.delay);
              && (|| repository.SyncPoint() == old(repository.SyncPoint())
                  || (w.Some? && repository.SyncPoint() == w.value.end))
              && (done ==> && w.Some? && repository.SyncPoint() == w.value.end
                           && WindowStored(config, w.value, repository.rows))
              && (&& w.Some? && AllServed(config.chain, EventsIn(config.chain, w.value.start, w.value.end), fails)
                  && !syncReadFails && !logsFail && failAt.None? && commit == Applied
                  && !advanceReadFails && advance == Applied
                  ==> done)
    {
      done := false;
      Others(ScanThread);
      var syncPoint := repository.GetSyncPoint(syncReadFails);
      if syncPoint.None? {
        return;
      }
      var bnbChainTipNumber: uint64 := if tip.Some? then tip.value else 0;
      if Add64(syncPoint.value, config.delay) >= bnbChainTipNumber {
        return;
      }
      var start := Add64(syncPoint.value, 1);
      var end := Sub64(bnbChainTipNumber, config.delay);
      if Add64(Sub64(end, start), 1) > BATCH_PLAN_STAKE_BLOCK_SIZE_FETCH {
        end := Sub64(Add64(start, BATCH_PLAN_STAKE_BLOCK_SIZE_FETCH), 1);
      }
      if logsFail {
        return;
      }
      var w := Window(start, end, bnbChainTipNumber);
      var list := FetchWindow(w, fails);
      if list.Some? {
        done := CommitWindow(w, list.value, failAt, commit, advanceReadFails, advance);
      }
    }

    method FetchWindow(w: Window, fails: Hash -> bool) returns (list: Option<seq<ReceiptWithProof>>)
      requires Valid() && World().up && World().scan == ScanIdle
      requires World().syncPoint + config.delay < TWO_64
      requires NextWindow(World().syncPoint, w.tip, config.delay) == Some(w)
      modifies this`trace
      ensures Valid() && Extended(old(trace)) && World().up && World().syncPoint == old(World().syncPoint)
      ensures World().scan == if list.Some? then Fetched(w, list.value) else ScanIdle
      ensures list.Some? <==> AllServed(config.chain, EventsIn(config.chain, w.start, w.end), fails)
    {
      list := GetReceiptsWithProof(config.chain, EventsIn(config.chain, w.start, w.end), fails);
      if list.Some? {
        Record(Fetch(w.tip, list.value));
      }
    }

    method CommitWindow(w: Window, list: seq<ReceiptWithProof>, failAt: Option<nat>, commit: Write,
                        advanceReadFails: bool, advance: Write) returns (done: bool)
      requires Valid() && World().up && World().scan == Fetched(w, list)
      modifies this`trace, repository, repository.config, lorenzo
      ensures Valid() && Extended(old(trace)) && World().up && World().scan == ScanIdle
      ensures World().syncPoint == old(World().syncPoint) || World().syncPoint == w.end
      ensures done ==> World().syncPoint == w.end && WindowStored(config, w, repository.rows)
      ensures failAt.None? && commit == Applied && !advanceReadFails && advance == Applied ==> done
    {
      Others(ScanThread);
      var inserted := Insert(list, failAt, commit);
      if !inserted {
        return false;
      }
      Others(ScanThread);
      ExecInv(config, start, trace);
      done := Advance(w, advanceReadFails, advance);
    }

    method Insert(list: seq<ReceiptWithProof>, failAt: Option<nat>, commit: Write) returns (ok: bool)
      requires Valid() && World().up && World().scan.Fetched? && World().scan.list == list
      modifies this`trace, repository
      ensures Valid() && Extended(old(trace)) && World().up
      ensures World().scan == if ok then Stored(old(World().scan).window) else ScanIdle
      ensures World().syncPoint == old(World().syncPoint)
      ensures failAt.None? && commit == Applied ==> ok
    {
      var txs := ToWrappedBTCDepositTxList(CHAIN_NAME, list);
      ok := repository.InsertWrappedBTCDepositTxs(txs, failAt, commit);
      RecordInsert(list, if Aborts(old(repository.rows), txs, failAt) then Lost else commit);
    }

    /** The step of the run for an insert the repository has performed. */
    ghost method RecordInsert(list: seq<ReceiptWithProof>, fate: Write)
      requires IsRun() && repository.Valid() && repository.chainName == CHAIN_NAME
      requires World().up && World().scan.Fetched? && World().scan.list == list
      requires repository.rows == if fate == Lost then World().table
                                  else InsertAll(World().table, ToRows(CHAIN_NAME, list))
      requires World().syncPoint == repository.SyncPoint() && World().minted == lorenzo.minted
      requires Log().submissions == lorenzo.submissions && Log().writes == repository.writes
      modifies this`trace
      ensures Valid() && World().up && Extended(old(trace)) && World().syncPoint == old(World().syncPoint)
      ensures World().scan == if fate == Applied then Stored(old(World().scan).window) else ScanIdle
    {
      Record(Event.Insert(fate));
    }

    method Advance(w: Window, readFails: bool, fate: Write) returns (ok: bool)
      requires Valid() && World().up && World().scan == Stored(w)
      modifies this`trace, repository.config
      ensures Valid() && Extended(old(trace)) && World().up && World().scan == ScanIdle
      ensures World().syncPoint == old(World().syncPoint) || World().syncPoint == w.end
      ensures ok ==> World().syncPoint == w.end
      ensures ok <==> !readFails && fate == Applied
    {
      ok := repository.UpdateSyncPoint(w.end, readFails, fate);
      Record(Event.Advance(if readFails then Lost else fate));
    }

    /** One iteration of submitLoop, on the Lorenzo tip if it was fetched. If the query succeeds, event `at`
        of the run read the unhandled rows for this tip, `handled` says what was sent out for each of them,
        nothing else was sent, and the run since then is a round in the sense of BnbDrain that hinders exactly
        the hindered rows. `fates` says what becomes of the status write of each row. */
    method Submit(tip: Option<uint64>, selectFails: bool, fates: string -> Write)
      returns (ghost at: nat, ghost handled: seq<Handling>)
      requires Valid() && World().up && World().batch == []
      modifies this`trace, repository, repository.config, lorenzo
      ensures Valid() && Extended(old(trace)) && World().up && World().batch == []
      ensures Evolves(old(repository.rows), repository.rows)
      ensures forall i | 0 <= i < |repository.rows| ::
                repository.rows[i].status == Success ==> repository.rows[i].key.txid in lorenzo.minted
      ensures tip.None? || selectFails ==> handled == []
      ensures tip.Some? && !selectFails ==> |old(trace)| <= at && PerformedRound(at, tip.value, fates, handled)
      ensures tip.Some? && !selectFails ==>
                BnbDrain.Leads(config, old(World()), Exec(config, start, trace[..at]).value)
      ensures lorenzo.submissions == old(lorenzo.submissions) + SubmissionsOf(handled)
      ensures repository.writes == old(repository.writes) + WritesOf(handled)
    {
      ghost var before := World();
      at, handled := 0, [];
      if tip.Some? && !selectFails {
        Others(SubmitThread);
        ghost var waited := trace;
        at, handled := SubmitRound(tip.value, fates);
        assert trace[..at] == waited;
        BnbDrain.RunLeads(config, start, old(trace), waited);
      }
      RunFacts(old(trace), before);
    }

    /** Event `at` read the rows unhandled at the tip, they were handled, and the run since then is a
        round that hinders the hindered ones. */
    ghost predicate PerformedRound(at: nat, tip: uint64, fates: string -> Write, handled: seq<Handling>)
      reads this
      requires IsRun()
    {
      && at < |trace| && trace[at].Select? && trace[at].tip == tip
      && BatchHandled(trace[at].batch, fates, handled)
      && (forall i | 0 <= i < |trace[at].batch| ::
            trace[at].batch[i].status == Pending && trace[at].batch[i].data.height <= tip)
      && Exec(config, start, trace[..at]).Some?
      && BnbDrain.Round(config, Exec(config, start, trace[..at]).value, tip, World(),
                        HinderedIn(trace[at].batch, handled))
    }

    /** Read the unhandled rows and work through them. */
    method SubmitRound(tip: uint64, fates: string -> Write) returns (ghost at: nat, ghost handled: seq<Handling>)
      requires Valid() && World().up && World().batch == []
      modifies this`trace, repository, repository.config, lorenzo
      ensures Valid() && Extended(old(trace)) && World().up && World().batch == []
      ensures at == |old(trace)| && PerformedRound(at, tip, fates, handled)
      ensures lorenzo.submissions == old(lorenzo.submissions) + SubmissionsOf(handled)
      ensures repository.writes == old(repository.writes) + WritesOf(handled)
    {
      var txs := repository.GetUnhandledWrappedBTCDepositTxs(tip);
      at := |trace|;
      Record(Select(tip, txs));
      ghost var selected := trace;
      handled := SubmitAll(txs, fates);
      RoundFacts(selected, at, tip, txs, handled);
    }

    /** The loop of submit. */
    method SubmitAll(txs: seq<BnbRow>, fates: string -> Write) returns (ghost handled: seq<Handling>)
      requires Valid() && World().up && World().batch == txs && World().stage == AtHead
      modifies this`trace, repository, repository.config, lorenzo
      ensures Valid() && Extended(old(trace)) && World().up && World().batch == []
      ensures BatchHandled(txs, fates, handled) && AddsAll(old(Log()), Log(), txs, handled)
    {
      handled := [];
      for i := 0 to |txs|
        invariant Valid() && Extended(old(trace)) && World().up
        invariant World().batch == txs[i..] && World().stage == AtHead
        invariant BatchHandled(txs[..i], fates, handled) && AddsAll(old(Log()), Log(), txs[..i], handled)
      {
        ghost var before := Log();
        ghost var h := SubmitTx(txs[i], fates(txs[i].key.txid));
        AddsNext(old(Log()), before, Log(), txs[..i], handled, txs[i], h);
        handled := handled + [h];
        assert txs[i..][1..] == txs[i + 1..] && txs[..i + 1] == txs[..i] + [txs[i]];
      }
      assert txs[..|txs|] == txs;
    }

    ghost method RoundFacts(selected: seq<Event>, at: nat, tip: uint64, txs: seq<BnbRow>, handled: seq<Handling>)
      requires IsRun() && selected <= trace && |selected| == at + 1 && selected[at] == Select(tip, txs)
      requires World().batch == [] && Exec(config, start, selected).Some?
      requires |handled| == |txs| && AddsAll(HistoryOf(config, start, selected), Log(), txs, handled)
      ensures Exec(config, start, trace[..at]).Some?
      ensures BnbDrain.Round(config, Exec(config, start, trace[..at]).value, tip, World(), HinderedIn(txs, handled))
    {
      var before, es := trace[..at], trace[at + 1..];
      assert selected == before + [Select(tip, txs)] && trace == selected + es;
      RoundOfHistory(config, start, before, tip, txs, es, HinderedIn(txs, handled));
    }

    ghost method RunFacts(earlier: seq<Event>, before: State)
      requires IsRun() && earlier <= trace && Exec(config, start, earlier) == Some(before)
      ensures Evolves(before.table, World().table) && Truthful(World())
    {
      ExecInv(config, start, earlier);
      ExecInv(config, start, trace);
      assert trace == earlier + trace[|earlier|..];
      ExecAppend(config, start, earlier, trace[|earlier|..]);
      StatusesAreOneWay(config, before, trace[|earlier|..]);
    }

    /** The body of the loop for one row. */
    method SubmitTx(tx: BnbRow, fate: Write) returns (ghost h: Handling)
      requires Valid() && World().up && World().batch != [] && World().batch[0] == tx && World().stage == AtHead
      modifies this`trace, repository, repository.config, lorenzo
      ensures Valid() && Extended(old(trace)) && World().up
      ensures World().batch == old(World().batch)[1..] && World().stage == AtHead
      ensures RowHandled(tx, fate, h) && Adds(old(Log()), Log(), tx.key.txid, h)
    {
      Others(SubmitThread);
      var receiptRaw := Decode(tx.data.receipt);
      var proofRaw := Decode(tx.data.proof);
      if receiptRaw.Err? || proofRaw.Err? {
        Record(BadHex);
        h := MarkTx(tx.key.txid, Invalid, fate);
        return;
      }
      h := CreateTx(tx, receiptRaw.value, proofRaw.value, fate);
    }

    /** The submission of the receipt and the proof the scanner stored, and the mark its answer decides. */
    method CreateTx(tx: BnbRow, receiptRaw: seq<byte>, proofRaw: seq<byte>, fate: Write) returns (ghost h: Handling)
      requires Valid() && World().up && World().batch != [] && World().batch[0] == tx && World().stage == AtHead
      requires Decode(tx.data.receipt) == Ok(receiptRaw) && Decode(tx.data.proof) == Ok(proofRaw)
      modifies this`trace, repository, repository.config, lorenzo
      ensures Valid() && Extended(old(trace)) && World().up
      ensures World().batch == old(World().batch)[1..] && World().stage == AtHead
      ensures Adds(old(Log()), Log(), tx.key.txid, h)
      ensures Submitted(tx.key.txid, MsgCreateBTCBStaking(tx.data.height, receiptRaw, proofRaw), fate, h)
    {
      var answer, sent := Send(tx, receiptRaw, proofRaw);
      if answer.Some? {
        HandleError(tx.key.txid, answer.value, fate);
      }
      h := Sends(sent, fate);
    }

    /** The switch over the error classes, duplicates first. */
    method HandleError(txid: string, err: string, fate: Write)
      requires Valid() && World().up
      requires !BnbDrain.Retried(Some(err)) ==>
                 && World().batch != [] && World().batch[0].key.txid == txid
                 && World().stage == Marking(if IsBNBStakingDuplicate(err) then Success else Invalid)
      modifies this`trace, repository, repository.config, lorenzo
      ensures Valid() && Extended(old(trace)) && World().up
      ensures BnbDrain.Retried(Some(err)) ==> World() == old(World()) && Log() == old(Log())
      ensures !BnbDrain.Retried(Some(err)) ==>
                && World().batch == old(World().batch)[1..] && World().stage == AtHead
                && var status := if IsBNBStakingDuplicate(err) then Success else Invalid;
                   Adds(old(Log()), Log(), txid, Marks(txid, status, fate))
    {
      if IsBNBStakingDuplicate(err) {
        ghost var h := MarkTx(txid, Success, fate);
      } else if !IsBNBStakingRetryError(err) {
        ghost var h := MarkTx(txid, Invalid, fate);
      }
    }

    method Send(tx: BnbRow, receiptRaw: seq<byte>, proofRaw: seq<byte>)
      returns (answer: Option<string>, ghost sent: Submission)
      requires Valid() && World().up && World().batch != [] && World().batch[0] == tx && World().stage == AtHead
      requires Decode(tx.data.receipt) == Ok(receiptRaw) && Decode(tx.data.proof) == Ok(proofRaw)
      modifies this`trace, lorenzo
      ensures Valid() && Extended(old(trace)) && World().up
      ensures sent.txid == tx.key.txid && sent.msg == MsgCreateBTCBStaking(tx.data.height, receiptRaw, proofRaw)
      ensures sent.answer == answer
      ensures Adds(old(Log()), Log(), tx.key.txid, Handling([sent], [], BnbDrain.Retried(answer)))
      ensures World().batch == if answer.None? || BnbDrain.Retried(answer) then old(World().batch)[1..]
                               else old(World().batch)
      ensures World().stage == if answer.None? || BnbDrain.Retried(answer) then AtHead
                               else Marking(if IsBNBStakingDuplicate(answer.value) then Success else Invalid)
    {
      var msg := MsgCreateBTCBStaking(tx.data.height, receiptRaw, proofRaw);
      ghost var x := ScannedAs(tx, receiptRaw, proofRaw);
      ghost var landed;
      answer, landed := lorenzo.CreateBTCBStaking(msg, x, tx.key.txid);
      sent := Submission(tx.key.txid, msg, landed, answer);
      Record(Create(landed, answer));
    }

    /** The receipt and proof the row at the head of the batch was written from. */
    ghost method ScannedAs(tx: BnbRow, receiptRaw: seq<byte>, proofRaw: seq<byte>) returns (x: ReceiptWithProof)
      requires IsRun() && World().batch != [] && World().batch[0] == tx
      requires Decode(tx.data.receipt) == Ok(receiptRaw) && Decode(tx.data.proof) == Ok(proofRaw)
      ensures MsgCreateBTCBStaking(tx.data.height, receiptRaw, proofRaw) == MessageOf(x)
      ensures tx.key.txid == Encode(x.receipt.txHash)
    {
      ExecInv(config, start, trace);
      x :| tx.(status := Pending) == ToRow(CHAIN_NAME, x);
      WrittenDecodes(CHAIN_NAME, x);
    }

    /** markDepositTxSuccess and markDepositTxInvalid: one write, whose failure is only logged; unless it
        is lost the row has the status afterwards. */
    method MarkTx(txid: string, status: Status, fate: Write) returns (ghost h: Handling)
      requires Valid() && World().up && World().batch != [] && World().batch[0].key.txid == txid
      requires World().stage == Marking(status)
      modifies this`trace, repository, repository.config, lorenzo
      ensures Valid() && Extended(old(trace)) && World().up
      ensures World().batch == old(World().batch)[1..] && World().stage == AtHead
      ensures Adds(old(Log()), Log(), txid, h) && h == Marks(txid, status, fate)
      ensures fate != Lost ==>
                forall i | 0 <= i < |repository.rows| ::
                  repository.rows[i].key == ChainTxid(CHAIN_NAME, txid) ==> repository.rows[i].status == status
    {
      Others(SubmitThread);
      h := WriteStatus(txid, status, fate);
    }

    method WriteStatus(txid: string, status: Status, fate: Write) returns (ghost h: Handling)
      requires Valid() && World().up && World().batch != [] && World().batch[0].key.txid == txid
      requires World().stage == Marking(status)
      modifies this`trace, repository
      ensures Valid() && Extended(old(trace)) && World().up
      ensures World().batch == old(World().batch)[1..] && World().stage == AtHead
      ensures Adds(old(Log()), Log(), txid, h) && h == Marks(txid, status, fate)
      ensures fate != Lost ==>
                forall i | 0 <= i < |repository.rows| ::
                  repository.rows[i].key == ChainTxid(CHAIN_NAME, txid) ==> repository.rows[i].status == status
    {
      var ok := repository.Mark(txid, status, fate);
      Record(Mark(fate));
      h := Marks(txid, status, fate);
    }
  }
}
