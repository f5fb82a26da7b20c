/** The loop bodies of txrelayer/tx_relayer.go as methods over the repository, the agent list
    and Lorenzo. `trace` is the run of the transition system performed so far; each method is
    proved to extend it by enabled events only, with the other loops acting between any two
    of its own actions. Every theorem about runs therefore holds of these methods. */
module BtcRelayer {
  import opened Common
  import opened Table
  import opened BtcRepository
  import opened BlockScan
  import opened BtcProtocol
  import BtcDrain
  import opened BtcHistory

  datatype Thread = ScanThread | SubmitThread

  predicate OwnedBy(e: Event, me: Thread) {
    match me
    case ScanThread => IsScanEvent(e)
    case SubmitThread => IsSubmitEvent(e) || e.Select?
  }

  /** An event of some thread other than `me`. */
  predicate IsOther(e: Event, me: Thread) {
    !e.Crash? && !e.Boot? && !OwnedBy(e, me)
  }

  /** What one event of another thread leaves alone. */
  lemma OtherEvent(c: Config, s: State, e: Event, me: Thread, h: History)
    requires s.up && Step(c, s, e).Some? && IsOther(e, me)
    ensures var t := Step(c, s, e).value;
            && t.up && s.minted <= t.minted
            && (me == ScanThread ==> t.scan == s.scan && t.syncPoint == s.syncPoint)
            && (me == SubmitThread ==> t.batch == s.batch && t.stage == s.stage && Note(s, e, h) == h)
  {
  }

  /** Hence what any run of them leaves alone: the contract of `Others` below assumes nothing more. */
  lemma {:induction false} OtherEvents(c: Config, s: State, a: seq<Event>, b: seq<Event>, me: Thread)
    requires Exec(c, s, a).Some? && Exec(c, s, a).value.up && Exec(c, s, a + b).Some?
    requires forall i | 0 <= i < |b| :: IsOther(b[i], me)
    ensures var m, t := Exec(c, s, a).value, Exec(c, s, a + b).value;
            && t.up && m.minted <= t.minted
            && (me == ScanThread ==> t.scan == m.scan && t.syncPoint == m.syncPoint)
            && (me == SubmitThread ==> t.batch == m.batch && t.stage == m.stage)
    ensures me == SubmitThread ==> HistoryOf(c, s, a + b) == HistoryOf(c, s, a)
    decreases |b|
  {
    if b == [] {
      assert a + b == a;
    } else {
      var front, last := b[..|b| - 1], b[|b| - 1];
      var es := a + front;
      assert a + b == es + [last] && (es + [last])[..|es|] == es;
      OtherEvents(c, s, a, front, me);
      OtherEvent(c, Exec(c, s, es).value, last, me, HistoryOf(c, s, es));
    }
  }

  class Lorenzo {
    var minted: set<string>
    /** The submissions of this relayer, in order. */
    ghost var submissions: seq<Submission>

    constructor (minted: set<string>)
      ensures this.minted == minted && submissions == []
    {
      this.minted := minted;
      this.submissions := [];
    }

    method GetBTCStakingRecord(txid: string, fails: bool) returns (found: Option<bool>)
      ensures found == if fails then None else Some(txid in minted)
    {
      found := if fails then None else Some(txid in minted);
    }

    /** Any legal fate of a submission; `answer` is the error, if any. */
    method CreateBTCStaking(msg: MsgCreateBTCStaking) returns (answer: Option<string>, ghost landed: bool)
      modifies this
      ensures LegalAnswer(old(minted), msg.txid, landed, answer)
      ensures minted == if landed then old(minted) + {msg.txid} else old(minted)
      ensures submissions == old(submissions) + [Submission(msg, landed, answer)]
    {
      var txid := msg.txid;
      DuplicateIsRetryable();
      assert LegalAnswer(minted, txid, txid !in minted, if txid in minted then Some(DUPLICATE_TX_ERROR) else None);
      var lands: bool;
      lands, answer :| LegalAnswer(minted, txid, lands, answer);
      landed := lands;
      submissions := submissions + [Submission(msg, lands, answer)];
      if lands {
        minted := minted + {txid};
      }
    }
  }

  class TxRelayer {
    const config: Config
    const repository: Repository
    const lorenzo: Lorenzo
    var agents: seq<Agent>

    ghost const start: State
    ghost var trace: seq<Event>

    ghost predicate IsRun()
      reads this
    {
      Init(start) && Exec(config, start, trace).Some?
    }

    ghost function World(): State
      reads this
      requires IsRun()
    {
      Exec(config, start, trace).value
    }

    /** What the run sent out. */
    ghost function Log(): History
      reads this
      requires IsRun()
    {
      HistoryOf(config, start, trace)
    }

    /** The run agrees with the database, the memory and Lorenzo, and what it sent out is exactly what
        Lorenzo and the database received. */
    ghost predicate Valid()
      reads this, repository, repository.config, lorenzo
    {
      && IsRun()
      && repository.Valid()
      && World().table == repository.rows
      && World().syncPoint == repository.SyncPoint()
      && World().agents == agents
      && World().minted == lorenzo.minted
      && Log().submissions == lorenzo.submissions
      && Log().writes == repository.writes
    }

    constructor (config: Config, repository: Repository, lorenzo: Lorenzo)
      requires repository.Valid() && repository.rows == [] && repository.writes == [] && lorenzo.submissions == []
      ensures Valid() && !World().up && trace == []
      ensures this.config == config && this.repository == repository && this.lorenzo == lorenzo
    {
      this.config := config;
      this.repository := repository;
      this.lorenzo := lorenzo;
      this.agents := [];
      this.start := State(false, [], repository.SyncPoint(), [], lorenzo.minted, ScanIdle, [], AtHead,
                          repository.SyncPoint(), map[]);
      this.trace := [];
    }

    ghost predicate Extended(before: seq<Event>)
      reads this
    {
      before <= trace
    }

    /** Append one enabled event to the run. */
    ghost method Record(e: Event)
      requires IsRun() && Step(config, World(), e).Some?
      modifies this`trace
      ensures IsRun() && World() == Step(config, old(World()), e).value
      ensures trace == old(trace) + [e]
      ensures Log() == Note(old(World()), e, old(Log()))
    {
      trace := trace + [e];
      assert trace[..|trace| - 1] == old(trace);
    }

    /** The other threads act, any number of times. Nothing is known afterwards except that they
        performed events of their own; callers are verified against this contract alone. */
    method Others(ghost me: Thread)
      requires Valid() && World().up
      modifies this`trace, this`agents, repository, repository.config, lorenzo
      ensures Valid() && World().up && Extended(old(trace))
      ensures forall i | |old(trace)| <= i < |trace| :: IsOther(trace[i], me)
      ensures me == ScanThread ==> World().scan == old(World().scan) && World().syncPoint == old(World().syncPoint)
      ensures me == SubmitThread ==> World().batch == old(World().batch) && World().stage == old(World().stage)
      ensures old(World().minted) <= World().minted
      ensures me == SubmitThread ==> Log() == old(Log())
    {
    }

    /** NewTxRelayer on a stopped process: initialise the sync point if it is 0, load the agents. */
    method Boot(startHeight: uint64, fetched: Option<seq<Agent>>, readFails: bool, fate: Write) returns (ok: bool)
      requires Valid() && !World().up
      modifies this, repository.config
      ensures Valid() && Extended(old(trace)) && ok == World().up
      ensures repository.SyncPoint() == if old(repository.SyncPoint()) == 0 && !readFails && fate != Lost
                                        then startHeight else old(repository.SyncPoint())
      ensures ok <==> !readFails && fetched.Some? && (old(repository.SyncPoint()) == 0 ==> fate == Applied)
      ensures ok ==> agents == fetched.value
    {
      var height := repository.GetSyncPoint(readFails);
      if height.None? {
        return false;
      }
      if height.value == 0 {
        var updated := repository.UpdateSyncPoint(startHeight, false, fate);
        if !updated || fetched.None? {
          if fate != Lost {
            RecordBoot(startHeight, [], AppliedUnacked);
          }
          return false;
        }
      }
      if fetched.None? {
        return false;
      }
      RecordBoot(startHeight, fetched.value, Applied);
      ok := true;
    }

    /** The start, after its write to the sync point. */
    method RecordBoot(startHeight: uint64, list: seq<Agent>, ghost fate: Write)
      requires IsRun() && repository.Valid() && !World().up
      requires World().table == repository.rows && World().minted == lorenzo.minted
      requires Log().submissions == lorenzo.submissions && Log().writes == repository.writes
      requires fate == Applied || (World().syncPoint == 0 && list == [] && fate == AppliedUnacked)
      requires repository.SyncPoint() == if World().syncPoint == 0 then startHeight else World().syncPoint
      modifies this
      ensures Valid() && Extended(old(trace)) && agents == list
      ensures World().up <==> fate == Applied
    {
      Record(Event.Boot(startHeight, list, fate));
      agents := list;
    }

    /** updateAgentsList: replace the list if it was fetched. */
    method UpdateAgentsList(fetched: Option<seq<Agent>>)
      requires Valid() && World().up
      modifies this
      ensures Valid() && World().up && Extended(old(trace))
      ensures agents == if fetched.Some? then fetched.value else old(agents)
    {
      if fetched.Some? && fetched.value != agents {
        Record(Refresh(fetched.value));
        agents := fetched.value;
      }
    }

    /** One iteration of scanBlockLoop. The precondition excludes uint64 wrap-around of the
        height comparison. `at` is the height of the block, if it comes to that; `crashed` reports that
        its scan panicked, with the agents `roster`. */
    method ScanBlock(tip: Option<uint64>, syncReadFails: bool, blockFails: bool,
                     failAt: Option<nat>, commit: Write, advanceReadFails: bool, advance: Write)
      returns (done: bool, crashed: bool, ghost at: uint64, ghost roster: seq<Agent>)
      requires Valid() && World().up && World().scan == ScanIdle
      requires repository.SyncPoint() + 1 + config.delay < TWO_64
      modifies this, repository, repository.config, lorenzo
      ensures Valid() && Extended(old(trace)) && World().scan == ScanIdle && World().up == !crashed
      ensures old(repository.SyncPoint()) <= repository.SyncPoint() <= old(repository.SyncPoint()) + 1
      ensures (&& tip.Some? && old(repository.SyncPoint()) + 1 + config.delay <= tip.value
               && !syncReadFails && !blockFails && failAt.None? && commit == Applied
               && !advanceReadFails && advance == Applied)
              ==> done || crashed
      ensures crashed ==> at == old(repository.SyncPoint()) + 1 && Panicked(at, roster)
      ensures done ==> && tip.Some? && old(repository.SyncPoint()) + 1 + config.delay <= tip.value
                       && repository.SyncPoint() == old(repository.SyncPoint()) + 1 == at && Stored(at)
    {
      done, crashed, at, roster := false, false, 0, [];
      if tip.None? {
        return;
      }
      done, crashed, at, roster :=
        ScanAt(tip.value, syncReadFails, blockFails, failAt, commit, advanceReadFails, advance);
    }

    /** The iteration once the tip is known. */
    method ScanAt(tip: uint64, syncReadFails: bool, blockFails: bool,
                  failAt: Option<nat>, commit: Write, advanceReadFails: bool, advance: Write)
      returns (done: bool, crashed: bool, ghost at: uint64, ghost roster: seq<Agent>)
      requires Valid() && World().up && World().scan == ScanIdle
      requires World().syncPoint + 1 + config.delay < TWO_64
      modifies this, repository, repository.config, lorenzo
      ensures Valid() && Extended(old(trace)) && World().scan == ScanIdle && World().up == !crashed
      ensures World().syncPoint == old(World().syncPoint) || World().syncPoint == old(World().syncPoint) + 1
      ensures (&& old(World().syncPoint) + 1 + config.delay <= tip
               && !syncReadFails && !blockFails && failAt.None? && commit == Applied
               && !advanceReadFails && advance == Applied)
              ==> done || crashed
      ensures crashed ==> at == old(World().syncPoint) + 1 && Panicked(at, roster)
      ensures done ==> && old(World().syncPoint) + 1 + config.delay <= tip
                       && World().syncPoint == old(World().syncPoint) + 1 == at && Stored(at)
    {
      done, crashed, at, roster := false, false, 0, [];
      Others(ScanThread);
      var nextBlockHeightToFetch := NextHeight(tip, syncReadFails);
      if nextBlockHeightToFetch.Some? && !blockFails {
        done, crashed, at, roster :=
          ScanNext(tip, nextBlockHeightToFetch.value, failAt, commit, advanceReadFails, advance);
      }
    }

    /** The height above the sync point, if that can be read and the block is deep enough. */
    method NextHeight(tip: uint64, syncReadFails: bool) returns (height: Option<uint64>)
      requires repository.Valid() && repository.SyncPoint() + 1 + config.delay < TWO_64
      ensures height == if syncReadFails || tip < repository.SyncPoint() + 1 + config.delay then None
                        else Some(repository.SyncPoint() + 1)
    {
      var syncPoint := repository.GetSyncPoint(syncReadFails);
      if syncPoint.None? {
        return None;
      }
      AddExact(syncPoint.value, 1);
      AddExact(syncPoint.value + 1, config.delay);
      var nextBlockHeightToFetch := Add64(syncPoint.value, 1);
      if tip < Add64(nextBlockHeightToFetch, config.delay) {
        return None;
      }
      height := Some(nextBlockHeightToFetch);
    }

    /** The next block, once it has been downloaded. */
    method ScanNext(tip: uint64, height: uint64, failAt: Option<nat>, commit: Write,
                    advanceReadFails: bool, advance: Write)
      returns (done: bool, crashed: bool, ghost at: uint64, ghost roster: seq<Agent>)
      requires Valid() && World().up && World().scan == ScanIdle
      requires height == World().syncPoint + 1 && height + config.delay <= tip
      modifies this, repository, repository.config, lorenzo
      ensures Valid() && Extended(old(trace)) && World().scan == ScanIdle && World().up == !crashed
      ensures World().syncPoint == old(World().syncPoint) || World().syncPoint == height
      ensures failAt.None? && commit == Applied && !advanceReadFails && advance == Applied ==> done || crashed
      ensures crashed ==> at == old(World().syncPoint) + 1 && Panicked(at, roster)
      ensures at == height && (done ==> World().syncPoint == height && Stored(at))
    {
      Others(ScanThread);
      at := height;
      done, crashed, roster := HandleBlock(tip, height, failAt, commit, advanceReadFails, advance);
    }

    /** Scan, insert, advance. */
    method HandleBlock(tip: uint64, height: uint64, failAt: Option<nat>, commit: Write,
                       advanceReadFails: bool, advance: Write)
      returns (done: bool, crashed: bool, ghost roster: seq<Agent>)
      requires Valid() && World().up && World().scan == ScanIdle
      requires height == World().syncPoint + 1 && height + config.delay <= tip
      modifies this, repository, repository.config, lorenzo
      ensures Valid() && Extended(old(trace)) && World().scan == ScanIdle && World().up == !crashed
      ensures World().syncPoint == old(World().syncPoint) || World().syncPoint == height
      ensures failAt.None? && commit == Applied && !advanceReadFails && advance == Applied ==> done || crashed
      ensures roster == old(agents) && (crashed <==> BlockDeposits(config.chain, roster, height).None?)
      ensures crashed ==> Panicked(height, roster)
      ensures done ==> World().syncPoint == height && Stored(height)
    {
      roster := agents;
      var depositTxs := FetchBlock(tip, height);
      if depositTxs.None? {
        return false, true, roster;
      }
      crashed := false;
      done := CommitBlock(height, depositTxs.value, failAt, commit, advanceReadFails, advance);
    }

    /** The deposits of the block for some list of agents are in the table. */
    ghost predicate Stored(height: nat)
      reads this, repository
    {
      height < TWO_64 && exists roster :: Recorded(config, roster, height, repository.rows)
    }

    /** The scan of the block panics with this list of agents, which the relayer has loaded. */
    ghost predicate Panicked(height: nat, roster: seq<Agent>)
      reads this
    {
      height < TWO_64 && Listed(trace, roster) && BlockDeposits(config.chain, roster, height).None?
    }

    /** Scan the block with the agents held; a panic of the scan stops the process. */
    method FetchBlock(tip: uint64, height: uint64) returns (depositTxs: Option<seq<BtcRow>>)
      requires Valid() && World().up && World().scan == ScanIdle
      requires height == World().syncPoint + 1 && height + config.delay <= tip
      modifies this
      ensures Valid() && Extended(old(trace)) && World().syncPoint == old(World().syncPoint)
      ensures depositTxs == BlockDeposits(config.chain, old(agents), height)
      ensures depositTxs.None? ==> World().scan == ScanIdle && !World().up && Panicked(height, old(agents))
      ensures depositTxs.Some? ==> World().up && World().scan == Scanned(height, old(agents))
    {
      depositTxs := GetValidDepositTxs(config.chain, agents, height);
      if depositTxs.None? {
        Panic(height);
      } else {
        RecordFetch(tip, height);
      }
    }

    ghost method RecordFetch(tip: uint64, height: uint64)
      requires Valid() && World().up && World().scan == ScanIdle
      requires height == World().syncPoint + 1 && height + config.delay <= tip
      requires BlockDeposits(config.chain, agents, height).Some?
      modifies this`trace
      ensures Valid() && Extended(old(trace)) && World().up && World().syncPoint == old(World().syncPoint)
      ensures World().scan == Scanned(height, agents)
    {
      StepFetch(config, World(), tip);
      Record(Fetch(tip));
    }

    /** The scan of the block panics with the agents held. */
    method Panic(height: uint64)
      requires Valid() && World().up && BlockDeposits(config.chain, agents, height).None?
      modifies this
      ensures Valid() && Extended(old(trace)) && World().syncPoint == old(World().syncPoint)
      ensures World().scan == ScanIdle && !World().up && Panicked(height, old(agents))
    {
      EmptyNeverPanics(config.chain, height);
      AgentsAreListed(config, start, trace);
      ListedAppend(trace, Crash, agents);
      Record(Crash);
      agents := [];
    }

    method CommitBlock(height: uint64, depositTxs: seq<BtcRow>, failAt: Option<nat>, commit: Write,
                       advanceReadFails: bool, advance: Write)
      returns (done: bool)
      requires Valid() && World().up && World().scan.Scanned? && World().scan.height == height == World().syncPoint + 1
      requires BlockDeposits(config.chain, World().scan.roster, height) == Some(depositTxs)
      modifies this, repository, repository.config, lorenzo
      ensures Valid() && Extended(old(trace)) && World().scan == ScanIdle && World().up
      ensures World().syncPoint == old(World().syncPoint) || World().syncPoint == height
      ensures failAt.None? && commit == Applied && !advanceReadFails && advance == Applied ==> done
      ensures done ==> && World().syncPoint == height
                       && Recorded(config, old(World().scan).roster, height, repository.rows)
    {
      Others(ScanThread);
      var inserted := Insert(depositTxs, failAt, commit);
      if !inserted {
        return false;
      }
      Others(ScanThread);
      ExecInv(config, start, trace);
      done := Advance(height, advanceReadFails, advance);
    }

    /** The insert transaction of the scan loop. */
    method Insert(depositTxs: seq<BtcRow>, failAt: Option<nat>, commit: Write) returns (ok: bool)
      requires Valid() && World().up && World().scan.Scanned?
      requires BlockDeposits(config.chain, World().scan.roster, World().scan.height) == Some(depositTxs)
      modifies this`trace, repository
      ensures Valid() && World().up && Extended(old(trace))
      ensures World().scan == if ok then Inserted(old(World().scan).height, old(World().scan).roster) else ScanIdle
      ensures World().syncPoint == old(World().syncPoint)
      ensures failAt.None? && commit == Applied ==> ok
    {
      ok := repository.InsertBtcDepositTxs(depositTxs, failAt, commit);
      ghost var fate := InsertFate(old(repository.rows), depositTxs, failAt, commit);
      InsertOutcome(old(repository.rows), depositTxs, failAt, commit);
      RecordInsert(depositTxs, fate);
    }

    /** The step of the run for an insert the repository has performed. */
    ghost method RecordInsert(depositTxs: seq<BtcRow>, fate: Write)
      requires IsRun() && repository.Valid() && World().up && World().scan.Scanned?
      requires BlockDeposits(config.chain, World().scan.roster, World().scan.height) == Some(depositTxs)
      requires repository.rows == if fate == Lost then World().table else InsertAll(World().table, depositTxs)
      requires World().syncPoint == repository.SyncPoint() && World().agents == agents
      requires World().minted == lorenzo.minted
      requires Log().submissions == lorenzo.submissions && Log().writes == repository.writes
      modifies this`trace
      ensures Valid() && World().up && Extended(old(trace)) && World().syncPoint == old(World().syncPoint)
      ensures World().scan == if fate == Applied then Inserted(old(World().scan).height, old(World().scan).roster)
                              else ScanIdle
    {
      Record(Event.Insert(fate));
    }

    /** The sync point update of the scan loop. */
    method Advance(height: uint64, readFails: bool, fate: Write) returns (ok: bool)
      requires Valid() && World().up && World().scan.Inserted? && World().scan.height == height
      modifies this`trace, repository.config
      ensures Valid() && World().up && Extended(old(trace)) && World().scan == ScanIdle
      ensures World().syncPoint == old(World().syncPoint) || World().syncPoint == height
      ensures ok ==> World().syncPoint == height
      ensures ok <==> !readFails && fate == Applied
    {
      ok := repository.UpdateSyncPoint(height, readFails, fate);
      Record(Event.Advance(if readFails then Lost else fate));
    }

    /** One iteration of submitLoop, on the Lorenzo tip if it was fetched. If the query succeeds, event `at`
        of the run read a batch for this tip, `handled` says what was sent out for each of its rows, nothing
        else was sent, and the run since then is a round in the sense of BtcDrain that hinders exactly the
        hindered rows. */
    method Submit(tip: Option<uint64>, selectFails: bool, outcomes: string -> Outcomes)
      returns (ghost at: nat, ghost handled: seq<Handling>)
      requires Valid() && World().up && World().batch == []
      modifies this, repository, repository.config, lorenzo
      ensures Valid() && Extended(old(trace)) && World().up && World().batch == []
      ensures Evolves(old(repository.rows), repository.rows)
      ensures forall i | 0 <= i < |repository.rows| ::
                repository.rows[i].status == Success ==> repository.rows[i].key in lorenzo.minted
      ensures tip.None? || selectFails ==> handled == []
      ensures tip.Some? && !selectFails ==> |old(trace)| <= at && PerformedRound(at, tip.value, outcomes, handled)
      ensures tip.Some? && !selectFails ==>
                BtcDrain.Leads(config, old(World()), Exec(config, start, trace[..at]).value)
      ensures lorenzo.submissions == old(lorenzo.submissions) + SubmissionsOf(handled)
      ensures repository.writes == old(repository.writes) + WritesOf(handled)
    {
      ghost var before := World();
      at, handled := 0, [];
      if tip.Some? && !selectFails {
        Others(SubmitThread);
        ghost var waited := trace;
        at, handled := SubmitRound(tip.value, outcomes);
        assert trace[..at] == waited;
        BtcDrain.RunLeads(config, start, old(trace), waited);
      }
      RunFacts(old(trace), before);
    }

    /** Event `at` read a batch for the tip, its rows were handled, and the run since then is a round that
        hinders the hindered ones. */
    ghost predicate PerformedRound(at: nat, tip: uint64, outcomes: string -> Outcomes, handled: seq<Handling>)
      reads this
      requires IsRun()
    {
      && at < |trace| && trace[at].Select? && trace[at].tip == tip
      && |trace[at].batch| <= 50 && BatchHandled(trace[at].batch, outcomes, handled)
      && (forall i | 0 <= i < |trace[at].batch| :: Selected(trace[at].batch[i], tip))
      && Exec(config, start, trace[..at]).Some?
      && BtcDrain.Round(config, Exec(config, start, trace[..at]).value, tip, World(),
                        HinderedIn(trace[at].batch, handled))
    }

    /** Read a batch and work through it. */
    method SubmitRound(tip: uint64, outcomes: string -> Outcomes) returns (ghost at: nat, ghost handled: seq<Handling>)
      requires Valid() && World().up && World().batch == []
      modifies this, repository, repository.config, lorenzo
      ensures Valid() && Extended(old(trace)) && World().up && World().batch == []
      ensures at == |old(trace)| && PerformedRound(at, tip, outcomes, handled)
      ensures lorenzo.submissions == old(lorenzo.submissions) + SubmissionsOf(handled)
      ensures repository.writes == old(repository.writes) + WritesOf(handled)
    {
      var txs := repository.GetUnhandledBtcDepositTxs(tip);
      at := |trace|;
      Record(Select(tip, txs));
      ghost var selected := trace;
      handled := SubmitAll(txs, outcomes);
      RoundFacts(selected, at, tip, txs, handled);
    }

    /** The inner loop over one batch. */
    method SubmitAll(txs: seq<BtcRow>, outcomes: string -> Outcomes) returns (ghost handled: seq<Handling>)
      requires Valid() && World().up && World().batch == txs && World().stage == AtHead
      modifies this, repository, repository.config, lorenzo
      ensures Valid() && Extended(old(trace)) && World().up && World().batch == []
      ensures BatchHandled(txs, outcomes, handled) && AddsAll(old(Log()), Log(), txs, handled)
    {
      handled := [];
      for i := 0 to |txs|
        invariant Valid() && Extended(old(trace)) && World().up
        invariant World().batch == txs[i..] && World().stage == AtHead
        invariant BatchHandled(txs[..i], outcomes, handled) && AddsAll(old(Log()), Log(), txs[..i], handled)
      {
        assert txs[i..][0] == txs[i] && txs[i..][1..] == txs[i + 1..];
        assert txs[..i + 1] == txs[..i] + [txs[i]];
        handled := SubmitNext(txs[..i], txs[i], outcomes, old(Log()), handled);
      }
      assert txs[..|txs|] == txs;
    }

    /** One more row of the batch, after the rows `done`. */
    method SubmitNext(ghost done: seq<BtcRow>, tx: BtcRow, outcomes: string -> Outcomes, ghost g: History,
                      ghost handled: seq<Handling>) returns (ghost more: seq<Handling>)
      requires Valid() && World().up && World().batch != [] && World().batch[0] == tx && World().stage == AtHead
      requires BatchHandled(done, outcomes, handled) && AddsAll(g, Log(), done, handled)
      modifies this, repository, repository.config, lorenzo
      ensures Valid() && Extended(old(trace)) && World().up
      ensures World().batch == old(World().batch)[1..] && World().stage == AtHead
      ensures BatchHandled(done + [tx], outcomes, more) && AddsAll(g, Log(), done + [tx], more)
    {
      ghost var h := SubmitTx(tx, outcomes(tx.key));
      AddsNext(g, old(Log()), Log(), done, handled, tx, h);
      more := handled + [h];
    }

    ghost method RoundFacts(selected: seq<Event>, at: nat, tip: uint64, txs: seq<BtcRow>, handled: seq<Handling>)
      requires IsRun() && selected <= trace && |selected| == at + 1 && selected[at] == Select(tip, txs)
      requires World().batch == [] && Exec(config, start, selected).Some?
      requires |handled| == |txs| && AddsAll(HistoryOf(config, start, selected), Log(), txs, handled)
      ensures Exec(config, start, trace[..at]).Some?
      ensures BtcDrain.Round(config, Exec(config, start, trace[..at]).value, tip, World(), HinderedIn(txs, handled))
    {
      var before, es := trace[..at], trace[at + 1..];
      assert selected == before + [Select(tip, txs)] && trace == selected + es;
      RoundOfHistory(config, start, before, tip, txs, es, HinderedIn(txs, handled));
    }

    /** The run since `before` in terms of the theorems about runs. */
    ghost method RunFacts(earlier: seq<Event>, before: State)
      requires IsRun() && earlier <= trace && Exec(config, start, earlier) == Some(before)
      ensures Evolves(before.table, World().table) && Truthful(World())
    {
      ExecInv(config, start, earlier);
      ExecInv(config, start, trace);
      assert trace == earlier + trace[|earlier|..];
      ExecAppend(config, start, earlier, trace[|earlier|..]);
      StatusesAreOneWay(config, before, trace[|earlier|..]);
    }

    /** The body of the submit loop for one row. Proof and bytes may fail to load, the proof may not parse. */
    method SubmitTx(tx: BtcRow, o: Outcomes) returns (ghost h: Handling)
      requires Valid() && World().up && World().batch != [] && World().batch[0] == tx && World().stage == AtHead
      modifies this, repository, repository.config, lorenzo
      ensures Valid() && Extended(old(trace)) && World().up
      ensures World().batch == old(World().batch)[1..] && World().stage == AtHead
      ensures RowHandled(tx, o, h) && Adds(old(Log()), Log(), tx.key, h)
    {
      var found := CheckRecord(tx, o);
      if found.None? {
        h := SKIPPED;
      } else if found.value {
        h := MarkTx(tx.key, Success, o.mark);
      } else {
        h := SubmitUnrecorded(tx, o);
      }
    }

    /** The record check; a failed query gives the row up for this round. */
    method CheckRecord(tx: BtcRow, o: Outcomes) returns (found: Option<bool>)
      requires Valid() && World().up && World().batch != [] && World().batch[0] == tx && World().stage == AtHead
      modifies this, repository, repository.config, lorenzo
      ensures Valid() && Extended(old(trace)) && World().up && (found.None? <==> o.recordFails)
      ensures Log() == if found.None? then old(Log()).(hindered := old(Log()).hindered + [tx.key]) else old(Log())
      ensures World().batch == if found.None? then old(World().batch)[1..] else old(World().batch)
      ensures World().stage == if found.None? then AtHead else if found.value then Marking(Success) else Checked
      ensures found == Some(true) ==> tx.key in lorenzo.minted
    {
      Others(SubmitThread);
      found := lorenzo.GetBTCStakingRecord(tx.key, o.recordFails);
      Record(if found.None? then QueryFailed else if found.value then RecordFound else RecordAbsent);
    }

    method SubmitUnrecorded(tx: BtcRow, o: Outcomes) returns (ghost h: Handling)
      requires Valid() && World().up && World().batch != [] && World().batch[0] == tx && World().stage == Checked
      modifies this, repository, repository.config, lorenzo
      ensures Valid() && Extended(old(trace)) && World().up
      ensures World().batch == old(World().batch)[1..] && World().stage == AtHead
      ensures UnrecordedHandled(tx, o, h) && Adds(old(Log()), Log(), tx.key, h)
    {
      Others(SubmitThread);
      if o.loadFails {
        h := SKIPPED;
        Record(QueryFailed);
        return;
      }
      var agentId := ResolveAgent(tx);
      if agentId.None? {
        h := MarkTx(tx.key, NotBelongToAgent, o.mark);
        return;
      }
      h := SubmitResolved(tx, agentId.value, o);
    }

    method ResolveAgent(tx: BtcRow) returns (agentId: Option<uint64>)
      requires Valid() && World().up && World().batch != [] && World().batch[0] == tx && World().stage == Checked
      modifies this`trace
      ensures Valid() && Extended(old(trace)) && World().up && World().batch == old(World().batch)
      ensures agentId == AgentIdOf(agents, tx) && Log() == old(Log())
      ensures World().stage == if agentId.Some? then Resolved(agentId.value) else Marking(NotBelongToAgent)
    {
      agentId := Some(tx.data.agentId);
      if tx.data.agentId == 0 {
        var agent := GetAgentByAddress(agents, tx.data.receiverAddress);
        agentId := if agent.Some? then Some(agent.value.id) else None;
      }
      Record(if agentId.Some? then Resolve else NoAgent);
    }

    method SubmitResolved(tx: BtcRow, agentId: uint64, o: Outcomes) returns (ghost h: Handling)
      requires Valid() && World().up && World().batch != [] && World().batch[0] == tx
      requires World().stage == Resolved(agentId)
      modifies this, repository, repository.config, lorenzo
      ensures Valid() && Extended(old(trace)) && World().up
      ensures World().batch == old(World().batch)[1..] && World().stage == AtHead
      ensures Adds(old(Log()), Log(), tx.key, h)
      ensures if o.parseFails then h == Marks(tx.key, Invalid, o.mark)
              else && |h.submissions| == 1 && h == Sends(h.submissions[0], o.mark)
                   && h.submissions[0].msg == MsgCreateBTCStaking(agentId, tx.key)
    {
      Others(SubmitThread);
      if o.parseFails {
        h := RejectUnparsable(tx, o.mark);
      } else {
        h := CreateTx(tx, agentId, o.mark);
      }
    }

    method RejectUnparsable(tx: BtcRow, fate: Write) returns (ghost h: Handling)
      requires Valid() && World().up && World().batch != [] && World().batch[0] == tx && World().stage.Resolved?
      modifies this, repository, repository.config, lorenzo
      ensures Valid() && Extended(old(trace)) && World().up
      ensures World().batch == old(World().batch)[1..] && World().stage == AtHead
      ensures Adds(old(Log()), Log(), tx.key, h) && h == Marks(tx.key, Invalid, fate)
    {
      Record(BuildFailed);
      h := MarkTx(tx.key, Invalid, fate);
    }

    /** The submission, with the agent resolved for the row, and the mark its answer decides. */
    method CreateTx(tx: BtcRow, agentId: uint64, fate: Write) returns (ghost h: Handling)
      requires Valid() && World().up && World().batch != [] && World().batch[0] == tx
      requires World().stage == Resolved(agentId)
      modifies this, repository, repository.config, lorenzo
      ensures Valid() && Extended(old(trace)) && World().up
      ensures World().batch == old(World().batch)[1..] && World().stage == AtHead
      ensures Adds(old(Log()), Log(), tx.key, h)
      ensures |h.submissions| == 1 && h == Sends(h.submissions[0], fate)
      ensures h.submissions[0].msg == MsgCreateBTCStaking(agentId, tx.key)
    {
      var answer, sent := Send(tx, agentId);
      if answer.Some? {
        if !IsStakingMintTryAgainError(answer.value) {
          h := MarkTx(tx.key, Invalid, fate);
        }
      } else {
        h := MarkTx(tx.key, Success, fate);
      }
      h := Sends(sent, fate);
    }

    method Send(tx: BtcRow, agentId: uint64) returns (answer: Option<string>, ghost sent: Submission)
      requires Valid() && World().up && World().batch != [] && World().batch[0] == tx
      requires World().stage == Resolved(agentId)
      modifies this`trace, lorenzo
      ensures Valid() && Extended(old(trace)) && World().up
      ensures sent.msg == MsgCreateBTCStaking(agentId, tx.key) && sent.answer == answer
      ensures Adds(old(Log()), Log(), tx.key, Handling([sent], [], Retried(answer)))
      ensures World().batch == if Retried(answer) then old(World().batch)[1..] else old(World().batch)
      ensures World().stage == if Retried(answer) then AtHead else Marking(if answer.None? then Success else Invalid)
    {
      var msg := MsgCreateBTCStaking(agentId, tx.key);
      ghost var landed;
      answer, landed := lorenzo.CreateBTCStaking(msg);
      sent := Submission(msg, landed, answer);
      Record(Create(landed, answer));
    }

    /** markDepositTxSuccess, markDepositTxInvalid and markDepositTxNotBelongToAgent: one write, whose
        failure is only logged; unless it is lost the row has the status afterwards. */
    method MarkTx(txid: string, status: Status, fate: Write) returns (ghost h: Handling)
      requires Valid() && World().up && World().batch != [] && World().batch[0].key == txid
      requires World().stage == Marking(status)
      modifies this, repository, repository.config, lorenzo
      ensures Valid() && Extended(old(trace)) && World().up
      ensures World().batch == old(World().batch)[1..] && World().stage == AtHead
      ensures Adds(old(Log()), Log(), txid, h) && h == Marks(txid, status, fate)
      ensures fate != Lost ==>
                forall i | 0 <= i < |repository.rows| ::
                  repository.rows[i].key == txid ==> repository.rows[i].status == status
    {
      Others(SubmitThread);
      h := WriteStatus(txid, status, fate);
    }

    method WriteStatus(txid: string, status: Status, fate: Write) returns (ghost h: Handling)
      requires Valid() && World().up && World().batch != [] && World().batch[0].key == txid
      requires World().stage == Marking(status)
      modifies this`trace, repository
      ensures Valid() && Extended(old(trace)) && World().up
      ensures World().batch == old(World().batch)[1..] && World().stage == AtHead
      ensures Adds(old(Log()), Log(), txid, h) && h == Marks(txid, status, fate)
      ensures fate != Lost ==>
                forall i | 0 <= i < |repository.rows| ::
                  repository.rows[i].key == txid ==> repository.rows[i].status == status
    {
      var ok := repository.UpdateTxStatus(txid, status, fate);
      Record(Mark(fate));
      h := Marks(txid, status, fate);
    }
  }
}
