/** Progress of the Bitcoin submit loop under its limit of 50 rows a round. */
module BtcDrain {
  import opened Common
  import opened Table
  import opened BtcRepository
  import opened BlockScan
  import opened BtcProtocol

  // ---------------------------------------------------------------------------
  // Rounds.

  /** Not a crash, a start or another batch. */
  predicate Calm(e: Event) {
    !e.Crash? && !e.Boot? && !e.Select?
  }

  /** A failed query, a retryable answer or a lost status write: the row stays pending. */
  predicate Hinders(e: Event) {
    match e
    case QueryFailed => true
    case Create(_, answer) => answer.Some? && IsStakingMintTryAgainError(answer.value)
    case Mark(fate) => fate == Lost
    case _ => false
  }

  lemma HindersIff(e: Event)
    ensures Hinders(e) <==>
            || e == QueryFailed
            || (e.Create? && e.answer.Some? && IsStakingMintTryAgainError(e.answer.value))
            || e == Mark(Lost)
  {
  }

  function HinderedBy(s: State, e: Event): seq<string> {
    if s.batch != [] && Hinders(e) then [s.batch[0].key] else []
  }

  /** The keys of the rows hindered during a run, in order. */
  function Hindered(c: Config, s: State, es: seq<Event>): seq<string>
    requires Exec(c, s, es).Some?
  {
    if es == [] then []
    else
      var n := |es| - 1;
      Hindered(c, s, es[..n]) + HinderedBy(Exec(c, s, es[..n]).value, es[n])
  }

  /** From `s` to `t` the submit loop reads batch `b` and works through it, interleaved with whatever
      scanning, agent refreshes and mints by others; the rows of these keys are hindered. */
  ghost predicate RoundOf(c: Config, s: State, tip: uint64, b: seq<BtcRow>, es: seq<Event>, t: State,
                          hindered: seq<string>) {
    && s.batch == [] && t.batch == []
    && Step(c, s, Select(tip, b)).Some?
    && (forall i | 0 <= i < |es| :: Calm(es[i]))
    && Exec(c, Step(c, s, Select(tip, b)).value, es) == Some(t)
    && Hindered(c, Step(c, s, Select(tip, b)).value, es) == hindered
  }

  ghost predicate Round(c: Config, s: State, tip: uint64, t: State, hindered: seq<string>) {
    exists b, es :: RoundOf(c, s, tip, b, es, t, hindered)
  }

  predicate NoInsert(es: seq<Event>) {
    forall i | 0 <= i < |es| :: !es[i].Insert?
  }

  /** A round during which the scan loop inserts nothing. */
  ghost predicate QuietRound(c: Config, s: State, tip: uint64, t: State, hindered: seq<string>) {
    exists b, es :: RoundOf(c, s, tip, b, es, t, hindered) && NoInsert(es)
  }

  // ---------------------------------------------------------------------------
  // What a round does.

  /** Each row of the batch is still to come, terminal, or was hindered. */
  ghost predicate Handled(b: seq<BtcRow>, s: State, hindered: seq<string>) {
    forall i | 0 <= i < |b| :: b[i] in s.batch || Terminal(s.table, b[i].key) || b[i].key in hindered
  }

  /** A batch only loses its first row, by a status write or a hindrance. */
  lemma OnlyPops(c: Config, s: State, e: Event)
    requires Calm(e) && Step(c, s, e).Some? && Step(c, s, e).value.batch != s.batch
    ensures s.batch != [] && Step(c, s, e).value.batch == s.batch[1..] && (e.Mark? || Hinders(e))
  {
  }

  /** The first row leaves the batch only when it is finished or hindered. */
  lemma HeadLeaves(c: Config, s: State, e: Event)
    requires Inv(c, s) && Calm(e) && Step(c, s, e).Some? && Step(c, s, e).value.batch != s.batch
    ensures var t := Step(c, s, e).value;
            && s.batch != [] && t.batch == s.batch[1..]
            && (Terminal(t.table, s.batch[0].key) || HinderedBy(s, e) == [s.batch[0].key])
  {
    OnlyPops(c, s, e);
    if !Hinders(e) {
      MarkTerminates(s);
    }
  }

  lemma HandledNext(b: seq<BtcRow>, s: State, t: State, hindered: seq<string>, more: seq<string>)
    requires Handled(b, s, hindered) && Evolves(s.table, t.table)
    requires t.batch == s.batch
             || (&& s.batch != [] && t.batch == s.batch[1..]
                 && (Terminal(t.table, s.batch[0].key) || s.batch[0].key in more))
    ensures Handled(b, t, hindered + more)
  {
    forall i | 0 <= i < |b|
      ensures b[i] in t.batch || Terminal(t.table, b[i].key) || b[i].key in hindered + more
    {
      EvolvesHas(s.table, t.table, b[i].key);
      assert b[i] in s.batch && t.batch != s.batch ==> b[i] == s.batch[0] || b[i] in s.batch[1..];
    }
  }

  lemma StepHandled(c: Config, s: State, e: Event, b: seq<BtcRow>, hindered: seq<string>)
    requires Inv(c, s) && Calm(e) && Step(c, s, e).Some? && Handled(b, s, hindered)
    ensures Handled(b, Step(c, s, e).value, hindered + HinderedBy(s, e))
  {
    var t := Step(c, s, e).value;
    StepEvolves(c, s, e);
    if t.batch != s.batch {
      HeadLeaves(c, s, e);
    }
    HandledNext(b, s, t, hindered, HinderedBy(s, e));
  }

  /** What a calm stretch of a run does to a batch read before it. */
  lemma {:induction false} CalmStretch(c: Config, s: State, es: seq<Event>, b: seq<BtcRow>)
    requires Inv(c, s) && Handled(b, s, []) && Exec(c, s, es).Some?
    requires forall i | 0 <= i < |es| :: Calm(es[i])
    ensures Handled(b, Exec(c, s, es).value, Hindered(c, s, es))
  {
    if es != [] {
      var n := |es| - 1;
      CalmStretch(c, s, es[..n], b);
      ExecInv(c, s, es[..n]);
      StepHandled(c, Exec(c, s, es[..n]).value, es[n], b, Hindered(c, s, es[..n]));
    }
  }

  ghost predicate NewAbove(t: seq<BtcRow>, u: seq<BtcRow>, height: nat) {
    |t| <= |u| && forall i | |t| <= i < |u| :: u[i].data.height > height
  }

  lemma StepNewAbove(c: Config, s: State, e: Event)
    requires Inv(c, s) && Step(c, s, e).Some?
    ensures NewAbove(s.table, Step(c, s, e).value.table, s.syncPoint)
    ensures !e.Insert? ==> |Step(c, s, e).value.table| == |s.table|
  {
    if e.Insert? {
      var ds := BlockDeposits(c.chain, s.scan.roster, s.scan.height).value;
      InsertAddsOnly(s.table, ds);
      BlockRows(c.chain, s.scan.roster, s.scan.height);
    }
  }

  lemma NewAboveTrans(t: seq<BtcRow>, u: seq<BtcRow>, v: seq<BtcRow>, low: nat, high: nat)
    requires NewAbove(t, u, low) && NewAbove(u, v, high) && low <= high && Evolves(u, v)
    ensures NewAbove(t, v, low)
  {
    forall i | |t| <= i < |v|
      ensures v[i].data.height > low
    {
      assert i < |u| ==> v[i].data == u[i].data;
    }
  }

  /** Whatever happens, rows inserted later lie above the sync point. */
  lemma {:induction false} RunNewAbove(c: Config, s: State, es: seq<Event>)
    requires Inv(c, s) && Exec(c, s, es).Some?
    ensures NewAbove(s.table, Exec(c, s, es).value.table, s.syncPoint)
    ensures NoInsert(es) ==> |Exec(c, s, es).value.table| == |s.table|
  {
    if es != [] {
      var n := |es| - 1;
      var m := Exec(c, s, es[..n]).value;
      RunNewAbove(c, s, es[..n]);
      ExecInv(c, s, es[..n]);
      StatusesAreOneWay(c, s, es[..n]);
      StepNewAbove(c, m, es[n]);
      StepEvolves(c, m, es[n]);
      NewAboveTrans(s.table, m.table, Step(c, m, es[n]).value.table, s.syncPoint, m.syncPoint);
    }
  }

  lemma RoundEffect(c: Config, s: State, tip: uint64, b: seq<BtcRow>, es: seq<Event>, t: State, hindered: seq<string>)
    requires Inv(c, s) && RoundOf(c, s, tip, b, es, t, hindered)
    ensures Inv(c, t) && s.syncPoint <= t.syncPoint
    ensures IsBatch(s.table, tip, BATCH_HANDLE_NUM, b)
    ensures forall i | 0 <= i < |b| :: Terminal(t.table, b[i].key) || b[i].key in hindered
    ensures Evolves(s.table, t.table) && NewAbove(s.table, t.table, s.syncPoint)
    ensures NoInsert(es) ==> |t.table| == |s.table|
  {
    var m := Step(c, s, Select(tip, b)).value;
    StepInv(c, s, Select(tip, b));
    CalmStretch(c, m, es, b);
    RunNewAbove(c, m, es);
    ExecInv(c, m, es);
    StatusesAreOneWay(c, m, es);
  }

  /** A row outside the batch is untouched while the batch is worked through. */
  lemma {:induction false} OutsideStays(c: Config, s: State, es: seq<Event>, j: nat)
    requires Inv(c, s) && Exec(c, s, es).Some? && forall i | 0 <= i < |es| :: Calm(es[i])
    requires j < |s.table| && forall i | 0 <= i < |s.batch| :: s.batch[i].key != s.table[j].key
    ensures var t := Exec(c, s, es).value;
            && j < |t.table| && t.table[j] == s.table[j]
            && forall i | 0 <= i < |t.batch| :: t.batch[i].key != s.table[j].key
  {
    if es != [] {
      var n := |es| - 1;
      OutsideStays(c, s, es[..n], j);
      ExecInv(c, s, es[..n]);
      StepOutside(c, Exec(c, s, es[..n]).value, es[n], j);
    }
  }

  lemma StepOutside(c: Config, s: State, e: Event, j: nat)
    requires Inv(c, s) && Calm(e) && Step(c, s, e).Some?
    requires j < |s.table| && forall i | 0 <= i < |s.batch| :: s.batch[i].key != s.table[j].key
    ensures var t := Step(c, s, e).value;
            && j < |t.table| && t.table[j] == s.table[j]
            && forall i | 0 <= i < |t.batch| :: t.batch[i].key != s.table[j].key
  {
    var t := Step(c, s, e).value;
    StepWrites(c, s, e);
    if e.Insert? && e.fate != Lost {
      InsertAddsOnly(s.table, BlockDeposits(c.chain, s.scan.roster, s.scan.height).value);
    }
    if t.batch != s.batch {
      OnlyPops(c, s, e);
    }
  }

  lemma KeyNotInBatch(t: seq<BtcRow>, tip: uint64, b: seq<BtcRow>, j: nat)
    requires Unique(t) && IsBatch(t, tip, BATCH_HANDLE_NUM, b) && j < |t| && t[j] !in b
    ensures forall i | 0 <= i < |b| :: b[i].key != t[j].key
  {
    forall i | 0 <= i < |b|
      ensures b[i].key != t[j].key
    {
      assert b[i] in t;
      var k :| 0 <= k < |t| && t[k] == b[i];
      assert k != j;
      assert k < j || j < k;
    }
  }

  /** A round at a tip touches no row that is too shallow for it: no status of such a row changes. */
  lemma ShallowRowStays(c: Config, s: State, tip: uint64, t: State, hindered: seq<string>, j: nat)
    requires Inv(c, s) && Round(c, s, tip, t, hindered)
    requires j < |s.table| && !Selected(s.table[j], tip)
    ensures j < |t.table| && t.table[j] == s.table[j]
  {
    var b: seq<BtcRow>, es :| RoundOf(c, s, tip, b, es, t, hindered);
    SelectKeeps(c, s, tip, b);
    KeyNotInBatch(s.table, tip, b, j);
    OutsideStays(c, Step(c, s, Select(tip, b)).value, es, j);
  }

  lemma SelectKeeps(c: Config, s: State, tip: uint64, b: seq<BtcRow>)
    requires Inv(c, s) && Step(c, s, Select(tip, b)).Some?
    ensures var m := Step(c, s, Select(tip, b)).value;
            && Inv(c, m) && m.table == s.table && m.batch == b && IsBatch(s.table, tip, BATCH_HANDLE_NUM, b)
  {
    StepInv(c, s, Select(tip, b));
  }

  // ---------------------------------------------------------------------------
  // Rounds over a whole run.

  /** Some run leads from `s` to `t`. */
  ghost predicate Leads(c: Config, s: State, t: State) {
    exists es :: Exec(c, s, es) == Some(t)
  }

  lemma RunLeads(c: Config, s: State, a: seq<Event>, b: seq<Event>)
    requires a <= b && Exec(c, s, a).Some? && Exec(c, s, b).Some?
    ensures Leads(c, Exec(c, s, a).value, Exec(c, s, b).value)
  {
    assert b == a + b[|a|..];
    ExecAppend(c, s, a, b[|a|..]);
  }

  lemma LeadsFacts(c: Config, s: State, t: State)
    requires Inv(c, s) && Leads(c, s, t)
    ensures Inv(c, t) && Evolves(s.table, t.table) && s.syncPoint <= t.syncPoint
    ensures NewAbove(s.table, t.table, s.syncPoint)
  {
    var es :| Exec(c, s, es) == Some(t);
    ExecInv(c, s, es);
    StatusesAreOneWay(c, s, es);
    RunNewAbove(c, s, es);
  }

  datatype RoundRecord = RoundRecord(start: State, tip: uint64, end: State, hindered: seq<string>)

  /** From `s` to `u` these rounds take place; before, between and after them anything may happen:
      scanning, failed or abandoned rounds, crashes and restarts. */
  ghost predicate Rounds(c: Config, s: State, rs: seq<RoundRecord>, u: State)
    decreases |rs|
  {
    if rs == [] then Leads(c, s, u)
    else
      && Leads(c, s, rs[0].start)
      && Round(c, rs[0].start, rs[0].tip, rs[0].end, rs[0].hindered)
      && Rounds(c, rs[0].end, rs[1..], u)
  }

  lemma RoundMovesForward(c: Config, r: RoundRecord)
    requires Inv(c, r.start) && Round(c, r.start, r.tip, r.end, r.hindered)
    ensures Inv(c, r.end) && Evolves(r.start.table, r.end.table) && r.start.syncPoint <= r.end.syncPoint
  {
    var b, es :| RoundOf(c, r.start, r.tip, b, es, r.end, r.hindered);
    RoundEffect(c, r.start, r.tip, b, es, r.end, r.hindered);
  }

  /** A row that is terminal stays so. */
  lemma {:induction false} TerminalStays(c: Config, s: State, rs: seq<RoundRecord>, u: State, j: nat)
    requires Inv(c, s) && Rounds(c, s, rs, u)
    requires j < |s.table| && s.table[j].status != Pending
    ensures j < |u.table| && u.table[j].status != Pending
    decreases |rs|
  {
    if rs == [] {
      LeadsFacts(c, s, u);
    } else {
      LeadsFacts(c, s, rs[0].start);
      RoundMovesForward(c, rs[0]);
      TerminalStays(c, rs[0].end, rs[1..], u, j);
    }
  }

  // ---------------------------------------------------------------------------
  // No starvation.

  ghost function PendingUpTo(t: seq<BtcRow>, height: nat): set<string> {
    set i | 0 <= i < |t| && t[i].status == Pending && t[i].data.height <= height :: t[i].key
  }

  lemma PendingShrinks(t: seq<BtcRow>, u: seq<BtcRow>, height: nat)
    requires Evolves(t, u) && NewAbove(t, u, height)
    ensures |PendingUpTo(u, height)| <= |PendingUpTo(t, height)|
  {
    assert PendingUpTo(u, height) <= PendingUpTo(t, height) by {
      forall i | 0 <= i < |u| && u[i].status == Pending && u[i].data.height <= height
        ensures u[i].key in PendingUpTo(t, height)
      {
        assert i < |t| && t[i].key == u[i].key;
      }
    }
    SubsetSize(PendingUpTo(u, height), PendingUpTo(t, height));
  }

  lemma {:induction false} DistinctAtMost(ks: seq<string>)
    ensures |set k | k in ks| <= |ks|
  {
    if ks != [] {
      var front, last := ks[..|ks| - 1], ks[|ks| - 1];
      DistinctAtMost(front);
      assert (set k | k in ks) == (set k | k in front) + {last};
    }
  }

  /** A full batch loses at most the hindered rows. */
  lemma FinishedKeys(b: seq<BtcRow>, hindered: seq<string>)
    requires Unique(b)
    ensures |b| - |hindered| <= |Keys(b) - set k | k in hindered|
  {
    var all, bad := Keys(b), set k | k in hindered;
    KeysSize(b);
    DistinctAtMost(hindered);
    assert all == (all - bad) + (all * bad);
    SubsetSize(all * bad, bad);
  }

  /** A full batch of rows at or below `height` shortens the queue by 50 less the hindered ones. */
  lemma QueueShrinks(t: seq<BtcRow>, u: seq<BtcRow>, tip: uint64, b: seq<BtcRow>, height: nat, hindered: seq<string>)
    requires IsBatch(t, tip, BATCH_HANDLE_NUM, b) && |b| == 50
    requires forall i | 0 <= i < |b| :: b[i].data.height <= height && (Terminal(u, b[i].key) || b[i].key in hindered)
    requires Evolves(t, u) && NewAbove(t, u, height) && Unique(u)
    ensures |PendingUpTo(u, height)| + 50 - |hindered| <= |PendingUpTo(t, height)|
  {
    var p, q, k := PendingUpTo(t, height), PendingUpTo(u, height), Keys(b) - set k | k in hindered;
    FinishedKeys(b, hindered);
    assert k <= p by {
      forall i | 0 <= i < |b| ensures b[i].key in p {
        assert b[i] in t;
      }
    }
    assert q <= p - k by {
      forall i | 0 <= i < |u| && u[i].status == Pending && u[i].data.height <= height
        ensures u[i].key in p && u[i].key !in k
      {
        assert i < |t| && t[i].key == u[i].key;
        TerminalNotPending(u, i);
      }
    }
    SubsetSize(q, p - k);
  }

  /** One round finishes a given ripe row, or hinders it, or shortens the queue in front of it by 50
      less the rows it hinders. */
  lemma RoundAdvances(c: Config, s: State, tip: uint64, t: State, hindered: seq<string>, j: nat)
    requires Inv(c, s) && Round(c, s, tip, t, hindered)
    requires j < |s.table| && Selected(s.table[j], tip) && s.table[j].data.height <= s.syncPoint
    ensures Inv(c, t) && Evolves(s.table, t.table) && s.syncPoint <= t.syncPoint
    ensures var height := s.table[j].data.height;
            || t.table[j].status != Pending
            || s.table[j].key in hindered
            || |PendingUpTo(t.table, height)| + 50 - |hindered| <= |PendingUpTo(s.table, height)|
  {
    var b, es :| RoundOf(c, s, tip, b, es, t, hindered);
    RoundEffect(c, s, tip, b, es, t, hindered);
    assert t.table[j].key == s.table[j].key;
    if s.table[j] in b {
      TerminalNotPending(t.table, j);
    } else {
      QueueShrinks(s.table, t.table, tip, b, s.table[j].data.height, hindered);
    }
  }

  /** How many rows the rounds can finish for sure. */
  function Capacity(rs: seq<RoundRecord>): int {
    if rs == [] then 0 else 50 - |rs[0].hindered| + Capacity(rs[1..])
  }

  /** Over rounds with anything in between, a row of a committed block that is ripe at their tips and is not
      hindered itself is terminal as soon as 50 a round, less the rows hindered, reaches the number of
      pending rows at or below its height. Without hindered rows that is after ceil(n / 50) rounds. */
  lemma {:induction false} NoStarvation(c: Config, s: State, rs: seq<RoundRecord>, u: State, j: nat)
    requires Inv(c, s) && Rounds(c, s, rs, u)
    requires j < |s.table| && s.table[j].status == Pending && s.table[j].data.height <= s.syncPoint
    requires forall i | 0 <= i < |rs| :: Selected(s.table[j], rs[i].tip) && s.table[j].key !in rs[i].hindered
    requires Capacity(rs) >= |PendingUpTo(s.table, s.table[j].data.height)|
    ensures j < |u.table| && u.table[j].status != Pending
    decreases |rs|
  {
    var height := s.table[j].data.height;
    assert s.table[j].key in PendingUpTo(s.table, height);
    if rs != [] {
      var r := rs[0];
      LeadsFacts(c, s, r.start);
      PendingShrinks(s.table, r.start.table, height);
      if r.start.table[j].status == Pending {
        RoundAdvances(c, r.start, r.tip, r.end, r.hindered, j);
      } else {
        RoundMovesForward(c, r);
      }
      if r.end.table[j].status == Pending {
        NoStarvation(c, r.end, rs[1..], u, j);
      } else {
        TerminalStays(c, r.end, rs[1..], u, j);
      }
    }
  }

  // ---------------------------------------------------------------------------
  // Starvation.

  ghost function LowerRipe(t: seq<BtcRow>, tip: uint64, height: nat): set<string> {
    set i | 0 <= i < |t| && Selected(t[i], tip) && t[i].data.height < height :: t[i].key
  }

  lemma LowerIsSelected(t: seq<BtcRow>, tip: uint64, b: seq<BtcRow>, j: nat, i: nat)
    requires IsBatch(t, tip, BATCH_HANDLE_NUM, b) && j < |t| && t[j] in b
    requires i < |t| && Selected(t[i], tip) && t[i].data.height < t[j].data.height
    ensures t[i].key in Keys(b)
  {
    var q :| 0 <= q < |b| && b[q] == t[j];
    assert t[i] in b;
  }

  /** With 50 ripe rows strictly below it a row is in no batch. */
  lemma Starved(t: seq<BtcRow>, tip: uint64, b: seq<BtcRow>, j: nat)
    requires Unique(t) && IsBatch(t, tip, BATCH_HANDLE_NUM, b) && j < |t|
    requires |LowerRipe(t, tip, t[j].data.height)| >= 50
    ensures t[j] !in b
  {
    if t[j] in b {
      var lower := LowerRipe(t, tip, t[j].data.height);
      forall i | 0 <= i < |t| && Selected(t[i], tip) && t[i].data.height < t[j].data.height
        ensures t[i].key in Keys(b) && t[i].key != t[j].key
      {
        LowerIsSelected(t, tip, b, j, i);
      }
      KeysSize(b);
      assert t[j].key in Keys(b);
      SubsetSize(lower, Keys(b) - {t[j].key});
      assert false;
    }
  }

  lemma HinderedAppend(c: Config, s: State, a: seq<Event>, b: seq<Event>)
    requires Exec(c, s, a).Some? && Exec(c, s, a + b).Some?
    ensures Exec(c, Exec(c, s, a).value, b).Some?
    ensures Hindered(c, s, a + b) == Hindered(c, s, a) + Hindered(c, Exec(c, s, a).value, b)
    decreases |b|
  {
    ExecAppend(c, s, a, b);
    if b == [] {
      assert a + b == a;
    } else {
      var front, last := b[..|b| - 1], b[|b| - 1];
      assert (a + b)[..|a + b| - 1] == a + front;
      HinderedAppend(c, s, a, front);
      ExecAppend(c, s, a, front);
    }
  }

  /** The first row can always be hindered: with a retryable answer if it can be submitted, else by a failed query. */
  lemma HinderHead(c: Config, s: State) returns (es: seq<Event>)
    requires s.up && s.batch != [] && s.stage == AtHead
    ensures Exec(c, s, es) == Some(Pop(s))
    ensures NoInsert(es) && forall i | 0 <= i < |es| :: Calm(es[i])
    ensures Hindered(c, s, es) == [s.batch[0].key]
    ensures s.batch[0].key !in s.minted && AgentIdOf(s.agents, s.batch[0]).Some? ==>
              exists i | 0 <= i < |es| :: es[i].Create? && es[i].answer.Some?
  {
    if s.batch[0].key !in s.minted && AgentIdOf(s.agents, s.batch[0]).Some? {
      var err := SomeRetryError();
      es := RefuseHead(c, s, err);
    } else {
      es := [QueryFailed];
      Exec1(c, s, QueryFailed);
      HinderedOne(c, s, QueryFailed);
    }
  }

  lemma HinderedOne(c: Config, s: State, e: Event)
    requires Step(c, s, e).Some?
    ensures Exec(c, s, [e]) == Step(c, s, e) && Hindered(c, s, [e]) == HinderedBy(s, e)
  {
    Exec1(c, s, e);
    assert [e][..0] == [];
    assert Hindered(c, s, [e][..0]) == [];
  }

  lemma SomeRetryError() returns (err: string)
    ensures IsStakingMintTryAgainError(err)
  {
    err := NOT_CONFIRMED_ERROR;
    ContainsItself(err);
  }

  lemma RefuseHead(c: Config, s: State, err: string) returns (es: seq<Event>)
    requires IsStakingMintTryAgainError(err)
    requires s.up && s.batch != [] && s.stage == AtHead
    requires s.batch[0].key !in s.minted && AgentIdOf(s.agents, s.batch[0]).Some?
    ensures Exec(c, s, es) == Some(Pop(s))
    ensures NoInsert(es) && (forall i | 0 <= i < |es| :: Calm(es[i]))
    ensures Hindered(c, s, es) == [s.batch[0].key]
    ensures exists i | 0 <= i < |es| :: es[i].Create? && es[i].answer.Some?
  {
    var refusal := Create(false, Some(err));
    var m := s.(stage := Checked);
    var n := s.(stage := Resolved(AgentIdOf(s.agents, s.batch[0]).value));
    es := [RecordAbsent, Resolve, refusal];
    RefusalSteps(c, s, err);
    HinderedThree(c, s, m, n, Pop(s), RecordAbsent, Resolve, refusal);
    RefusalEvents(err);
  }

  lemma RefusalEvents(err: string)
    ensures var es := [RecordAbsent, Resolve, Create(false, Some(err))];
            && NoInsert(es) && (forall i | 0 <= i < |es| :: Calm(es[i]))
            && exists i | 0 <= i < |es| :: es[i].Create? && es[i].answer.Some?
  {
    var es := [RecordAbsent, Resolve, Create(false, Some(err))];
    assert es[2] == Create(false, Some(err));
  }

  lemma RefusalSteps(c: Config, s: State, err: string)
    requires IsStakingMintTryAgainError(err) && s.up && s.batch != [] && s.stage == AtHead
    requires s.batch[0].key !in s.minted && AgentIdOf(s.agents, s.batch[0]).Some?
    ensures var n := s.(stage := Resolved(AgentIdOf(s.agents, s.batch[0]).value));
            && Step(c, s, RecordAbsent) == Some(s.(stage := Checked))
            && Step(c, s.(stage := Checked), Resolve) == Some(n)
            && Step(c, n, Create(false, Some(err))) == Some(Pop(s))
  {
  }

  lemma HinderedThree(c: Config, s: State, m: State, n: State, t: State, e: Event, f: Event, g: Event)
    requires Step(c, s, e) == Some(m) && Step(c, m, f) == Some(n) && Step(c, n, g) == Some(t)
    ensures Exec(c, s, [e, f, g]) == Some(t)
    ensures Hindered(c, s, [e, f, g]) == HinderedBy(s, e) + HinderedBy(m, f) + HinderedBy(n, g)
  {
    HinderedOne(c, s, e);
    HinderedNext(c, s, [e], m, f, n);
    assert [e] + [f] == [e, f];
    HinderedNext(c, s, [e, f], n, g, t);
    assert [e, f] + [g] == [e, f, g];
  }

  lemma HinderedNext(c: Config, s: State, es: seq<Event>, m: State, e: Event, t: State)
    requires Exec(c, s, es) == Some(m) && Step(c, m, e) == Some(t)
    ensures Exec(c, s, es + [e]) == Some(t) && Hindered(c, s, es + [e]) == Hindered(c, s, es) + HinderedBy(m, e)
  {
    assert (es + [e])[..|es|] == es;
  }

  lemma JoinedRuns(c: Config, s: State, a: seq<Event>, m: State, b: seq<Event>, t: State)
    requires Exec(c, s, a) == Some(m) && Exec(c, m, b) == Some(t)
    ensures Exec(c, s, a + b) == Some(t) && Hindered(c, s, a + b) == Hindered(c, s, a) + Hindered(c, m, b)
  {
    ExecAppend(c, s, a, b);
    HinderedAppend(c, s, a, b);
  }

  function KeySeq(b: seq<BtcRow>): seq<string> {
    seq(|b|, i requires 0 <= i < |b| => b[i].key)
  }

  lemma KeySeqSplit(b: seq<BtcRow>)
    requires b != []
    ensures KeySeq(b) == [b[0].key] + KeySeq(b[1..])
  {
  }

  predicate CalmAndQuiet(es: seq<Event>) {
    NoInsert(es) && forall i | 0 <= i < |es| :: Calm(es[i])
  }

  lemma JoinedCalm(a: seq<Event>, b: seq<Event>)
    requires CalmAndQuiet(a) && CalmAndQuiet(b)
    ensures CalmAndQuiet(a + b)
  {
  }

  /** So can all rows of the batch. */
  lemma {:induction false} HinderBatch(c: Config, s: State) returns (es: seq<Event>)
    requires s.up && s.stage == AtHead
    ensures Exec(c, s, es) == Some(s.(batch := [])) && CalmAndQuiet(es) && Hindered(c, s, es) == KeySeq(s.batch)
    decreases |s.batch|
  {
    if s.batch == [] {
      es := [];
    } else {
      var head := HinderHead(c, s);
      var rest := HinderBatch(c, Pop(s));
      es := HinderJoin(c, s, head, rest);
    }
  }

  lemma HinderJoin(c: Config, s: State, head: seq<Event>, rest: seq<Event>) returns (es: seq<Event>)
    requires s.stage == AtHead && s.batch != [] && CalmAndQuiet(head) && CalmAndQuiet(rest)
    requires Exec(c, s, head) == Some(Pop(s)) && Hindered(c, s, head) == [s.batch[0].key]
    requires Exec(c, Pop(s), rest) == Some(s.(batch := [])) && Hindered(c, Pop(s), rest) == KeySeq(s.batch[1..])
    ensures Exec(c, s, es) == Some(s.(batch := [])) && CalmAndQuiet(es) && Hindered(c, s, es) == KeySeq(s.batch)
  {
    JoinedRuns(c, s, head, Pop(s), rest, s.(batch := []));
    JoinedCalm(head, rest);
    KeySeqSplit(s.batch);
    es := head + rest;
  }

  /** The relayer can be starved: from a state with 50 ripe rows strictly below row `j` a round leads back to
      that very state, hindering each row of its batch and leaving `j` out. */
  lemma StarvingRound(c: Config, s: State, tip: uint64, j: nat) returns (hindered: seq<string>)
    requires Inv(c, s) && s.up && s.batch == [] && j < |s.table|
    requires |LowerRipe(s.table, tip, s.table[j].data.height)| >= 50
    ensures QuietRound(c, s, tip, s, hindered) && |hindered| <= 50 && s.table[j].key !in hindered
  {
    var b := BatchExists(s.table, tip, BATCH_HANDLE_NUM);
    Starved(s.table, tip, b, j);
    var m := Step(c, s, Select(tip, b)).value;
    var es := HinderBatch(c, m);
    assert m.(batch := []) == s;
    hindered := KeySeq(b);
    assert RoundOf(c, s, tip, b, es, s, hindered);
    KeyNotInBatch(s.table, tip, b, j);
  }

  /** Hence for ever: any number of such rounds, and row `j` is as pending as before. */
  lemma {:induction false} StarvedForever(c: Config, s: State, tip: uint64, j: nat, n: nat)
    returns (rs: seq<RoundRecord>)
    requires Inv(c, s) && s.up && s.batch == [] && j < |s.table|
    requires |LowerRipe(s.table, tip, s.table[j].data.height)| >= 50
    ensures |rs| == n && Rounds(c, s, rs, s)
    ensures forall i | 0 <= i < n :: rs[i].tip == tip && s.table[j].key !in rs[i].hindered
  {
    assert Exec(c, s, []) == Some(s);
    if n == 0 {
      rs := [];
    } else {
      var hindered := StarvingRound(c, s, tip, j);
      var b, es :| RoundOf(c, s, tip, b, es, s, hindered) && NoInsert(es);
      assert Round(c, s, tip, s, hindered);
      var rest := StarvedForever(c, s, tip, j, n - 1);
      rs := [RoundRecord(s, tip, s, hindered)] + rest;
      assert rs[1..] == rest;
    }
  }

  // ---------------------------------------------------------------------------
  // Draining at a fixed tip.

  ghost function RipeKeys(t: seq<BtcRow>, tip: uint64): set<string> {
    set i | 0 <= i < |t| && Selected(t[i], tip) :: t[i].key
  }

  lemma RipeQueueShrinks(t: seq<BtcRow>, u: seq<BtcRow>, tip: uint64, b: seq<BtcRow>, hindered: seq<string>)
    requires IsBatch(t, tip, BATCH_HANDLE_NUM, b) && Unique(u)
    requires forall i | 0 <= i < |b| :: Terminal(u, b[i].key) || b[i].key in hindered
    requires Evolves(t, u) && |t| == |u|
    ensures || RipeKeys(u, tip) <= (set k | k in hindered)
            || |RipeKeys(u, tip)| + 50 - |hindered| <= |RipeKeys(t, tip)|
  {
    var p, q, k := RipeKeys(t, tip), RipeKeys(u, tip), Keys(b) - set k | k in hindered;
    FinishedKeys(b, hindered);
    assert k <= p by {
      forall i | 0 <= i < |b| ensures b[i].key in p {
        assert b[i] in t;
      }
    }
    forall i | 0 <= i < |u| && Selected(u[i], tip)
      ensures u[i].key in p - k && (|b| == 50 || u[i].key in hindered)
    {
      assert Selected(t[i], tip) && t[i].key == u[i].key;
      TerminalNotPending(u, i);
    }
    SubsetSize(q, p - k);
  }

  /** One round without inserts leaves at most the hindered rows ripe, or shrinks the ripe set by 50
      less the hindered rows. */
  lemma QuietRoundDrains(c: Config, s: State, tip: uint64, t: State, hindered: seq<string>)
    requires Inv(c, s) && QuietRound(c, s, tip, t, hindered)
    ensures Inv(c, t)
    ensures || RipeKeys(t.table, tip) <= (set k | k in hindered)
            || |RipeKeys(t.table, tip)| + 50 - |hindered| <= |RipeKeys(s.table, tip)|
  {
    var b, es :| RoundOf(c, s, tip, b, es, t, hindered) && NoInsert(es);
    RoundEffect(c, s, tip, b, es, t, hindered);
    RipeQueueShrinks(s.table, t.table, tip, b, hindered);
  }

  /** Some run without inserts leads from `s` to `t`. */
  ghost predicate QuietlyLeads(c: Config, s: State, t: State) {
    exists es :: Exec(c, s, es) == Some(t) && NoInsert(es)
  }

  lemma RipeStays(c: Config, s: State, t: State, tip: uint64)
    requires Inv(c, s) && QuietlyLeads(c, s, t)
    ensures Inv(c, t) && RipeKeys(t.table, tip) <= RipeKeys(s.table, tip)
    ensures |RipeKeys(t.table, tip)| <= |RipeKeys(s.table, tip)|
  {
    var es :| Exec(c, s, es) == Some(t) && NoInsert(es);
    ExecInv(c, s, es);
    StatusesAreOneWay(c, s, es);
    RunNewAbove(c, s, es);
    forall i | 0 <= i < |t.table| && Selected(t.table[i], tip)
      ensures t.table[i].key in RipeKeys(s.table, tip)
    {
      assert Selected(s.table[i], tip) && s.table[i].key == t.table[i].key;
    }
    SubsetSize(RipeKeys(t.table, tip), RipeKeys(s.table, tip));
  }

  /** From `s` to `u` these rounds take place at one tip; they hinder nothing, and nothing is inserted in
      or between them. */
  ghost predicate QuietRounds(c: Config, s: State, tip: uint64, rs: seq<RoundRecord>, u: State)
    decreases |rs|
  {
    if rs == [] then QuietlyLeads(c, s, u)
    else
      && QuietlyLeads(c, s, rs[0].start)
      && QuietRound(c, rs[0].start, tip, rs[0].end, [])
      && QuietRounds(c, rs[0].end, tip, rs[1..], u)
  }

  lemma QuietStretchDrains(c: Config, s: State, tip: uint64, r: RoundRecord)
    requires Inv(c, s) && QuietlyLeads(c, s, r.start) && QuietRound(c, r.start, tip, r.end, [])
    ensures Inv(c, r.end)
    ensures || RipeKeys(r.end.table, tip) == {}
            || |RipeKeys(r.end.table, tip)| + 50 <= |RipeKeys(s.table, tip)|
  {
    RipeStays(c, s, r.start, tip);
    QuietRoundDrains(c, r.start, tip, r.end, []);
  }

  /** So n ripe rows are all terminal after ceil(n / 50) such rounds. */
  lemma {:induction false} RipeRowsDrain(c: Config, s: State, tip: uint64, rs: seq<RoundRecord>, u: State)
    requires Inv(c, s) && QuietRounds(c, s, tip, rs, u)
    requires 50 * |rs| >= |RipeKeys(s.table, tip)|
    ensures RipeKeys(u.table, tip) == {}
    decreases |rs|
  {
    if rs == [] {
      RipeStays(c, s, u, tip);
    } else {
      QuietStretchDrains(c, s, tip, rs[0]);
      RipeRowsDrain(c, rs[0].end, tip, rs[1..], u);
    }
  }

  // ---------------------------------------------------------------------------
  // Such rounds exist: the loop is never stuck.

  /** Neither an interruption nor a hindrance nor an insert. */
  predicate Clear(e: Event) {
    Calm(e) && !Hinders(e) && !e.Insert?
  }

  lemma {:induction false} ClearIsUnhindered(c: Config, s: State, es: seq<Event>)
    requires Exec(c, s, es).Some? && forall i | 0 <= i < |es| :: Clear(es[i])
    ensures Hindered(c, s, es) == []
  {
    if es != [] {
      ClearIsUnhindered(c, s, es[..|es| - 1]);
    }
  }

  lemma FinishMinted(c: Config, s: State) returns (t: State)
    requires s.up && s.batch != [] && s.stage == AtHead && s.batch[0].key in s.minted
    ensures Exec(c, s, [RecordFound] + [Mark(Applied)]) == Some(t)
    ensures t.up && t.stage == AtHead && t.batch == s.batch[1..]
  {
    Exec2(c, s, RecordFound, Mark(Applied));
    t := Step(c, Step(c, s, RecordFound).value, Mark(Applied)).value;
  }

  /** The events that finish an unminted row: it is submitted, or belongs to no agent. */
  function Finishing(s: State): seq<Event>
    requires s.batch != []
  {
    if AgentIdOf(s.agents, s.batch[0]).Some?
    then [RecordAbsent, Resolve, Create(true, None), Mark(Applied)]
    else [RecordAbsent, NoAgent, Mark(Applied)]
  }

  lemma FinishUnminted(c: Config, s: State) returns (t: State)
    requires s.up && s.batch != [] && s.stage == AtHead && s.batch[0].key !in s.minted
    ensures Exec(c, s, Finishing(s)) == Some(t)
    ensures t.up && t.stage == AtHead && t.batch == s.batch[1..]
  {
    var key := s.batch[0].key;
    var m := s.(stage := Checked);
    if AgentIdOf(s.agents, s.batch[0]).Some? {
      var n := s.(stage := Resolved(AgentIdOf(s.agents, s.batch[0]).value));
      var k := s.(minted := s.minted + {key}, stage := Marking(Success));
      t := Pop(k.(table := SetStatus(s.table, key, Success)));
      assert Step(c, n, Create(true, None)) == Some(k);
      PathRuns(c, [s, m, n, k, t], [RecordAbsent, Resolve, Create(true, None), Mark(Applied)]);
    } else {
      var n := s.(stage := Marking(NotBelongToAgent));
      t := Pop(n.(table := SetStatus(s.table, key, NotBelongToAgent)));
      PathRuns(c, [s, m, n, t], [RecordAbsent, NoAgent, Mark(Applied)]);
    }
  }

  /** Events that finish the first row when Lorenzo answers and the database works. */
  lemma FinishHead(c: Config, s: State) returns (es: seq<Event>, t: State)
    requires s.up && s.batch != [] && s.stage == AtHead
    ensures Exec(c, s, es) == Some(t) && forall i | 0 <= i < |es| :: Clear(es[i])
    ensures t.up && t.stage == AtHead && t.batch == s.batch[1..]
  {
    if s.batch[0].key in s.minted {
      t := FinishMinted(c, s);
      es := [RecordFound] + [Mark(Applied)];
    } else {
      t := FinishUnminted(c, s);
      es := Finishing(s);
    }
  }

  lemma Exec2(c: Config, s: State, e: Event, f: Event)
    requires Step(c, s, e).Some?
    ensures Exec(c, s, [e] + [f]) == Step(c, Step(c, s, e).value, f)
  {
    Exec1(c, s, e);
    ExecAppend(c, s, [e], [f]);
    Exec1(c, Step(c, s, e).value, f);
  }

  lemma {:induction false} FinishBatch(c: Config, s: State) returns (es: seq<Event>)
    requires s.up && s.stage == AtHead
    ensures Exec(c, s, es).Some? && forall i | 0 <= i < |es| :: Clear(es[i])
    ensures Exec(c, s, es).value.batch == []
    decreases |s.batch|
  {
    if s.batch == [] {
      es := [];
    } else {
      var head, t := FinishHead(c, s);
      var rest := FinishBatch(c, t);
      ExecAppend(c, s, head, rest);
      es := head + rest;
    }
  }

  /** From every state between batches a quiet round that hinders nothing is possible at every tip. */
  lemma RoundIsPossible(c: Config, s: State, tip: uint64) returns (t: State)
    requires Inv(c, s) && s.up && s.batch == []
    ensures QuietRound(c, s, tip, t, [])
  {
    var b := BatchExists(s.table, tip, BATCH_HANDLE_NUM);
    StepInv(c, s, Select(tip, b));
    var m := Step(c, s, Select(tip, b)).value;
    var es := FinishBatch(c, m);
    t := Exec(c, m, es).value;
    ClearIsUnhindered(c, m, es);
    assert RoundOf(c, s, tip, b, es, t, []);
  }
}
