/** Progress of the BNB submit loop: a success leaves the row pending, so a row needs two rounds. */
module BnbDrain {
  import opened Common
  import opened Table
  import opened BnbRepository
  import opened StakePlan
  import opened BnbProtocol

  // ---------------------------------------------------------------------------
  // Rounds.

  /** Not a crash, a start or another read of the table. */
  predicate Calm(e: Event) {
    !e.Crash? && !e.Boot? && !e.Select?
  }

  predicate Retried(answer: Option<string>) {
    answer.Some? && !IsBNBStakingDuplicate(answer.value) && IsBNBStakingRetryError(answer.value)
  }

  /** A retryable answer or a lost status write: the row stays as it was. */
  predicate Hinders(e: Event) {
    match e
    case Create(_, answer) => Retried(answer)
    case Mark(fate) => fate == Lost
    case _ => false
  }

  lemma HindersIff(e: Event)
    ensures Hinders(e) <==>
            || (&& e.Create? && e.answer.Some? && !IsBNBStakingDuplicate(e.answer.value)
                && IsBNBStakingRetryError(e.answer.value))
            || e == Mark(Lost)
  {
  }

  function HinderedBy(s: State, e: Event): seq<string> {
    if s.batch != [] && Hinders(e) then [s.batch[0].key.txid] else []
  }

  /** The txids of the rows hindered during a run, in order. */
  function Hindered(c: Config, s: State, es: seq<Event>): seq<string>
    requires Exec(c, s, es).Some?
  {
    if es == [] then []
    else
      var n := |es| - 1;
      Hindered(c, s, es[..n]) + HinderedBy(Exec(c, s, es[..n]).value, es[n])
  }

  /** From `s` to `t` the submit loop reads the rows `b` and works through them, interleaved with whatever
      scanning and mints by others; the rows of these txids are hindered. */
  ghost predicate RoundOf(c: Config, s: State, tip: uint64, b: seq<BnbRow>, es: seq<Event>, t: State,
                          hindered: seq<string>) {
    && s.batch == [] && t.batch == []
    && Step(c, s, Select(tip, b)).Some?
    && (forall i | 0 <= i < |es| :: Calm(es[i]))
    && Exec(c, Step(c, s, Select(tip, b)).value, es) == Some(t)
    && Hindered(c, Step(c, s, Select(tip, b)).value, es) == hindered
  }

  ghost predicate Round(c: Config, s: State, tip: uint64, t: State, hindered: seq<string>) {
    exists b, es :: RoundOf(c, s, tip, b, es, t, hindered)
  }

  predicate NoInsert(es: seq<Event>) {
    forall i | 0 <= i < |es| :: !es[i].Insert?
  }

  /** A round during which the scan loop inserts nothing. */
  ghost predicate QuietRound(c: Config, s: State, tip: uint64, t: State, hindered: seq<string>) {
    exists b, es :: RoundOf(c, s, tip, b, es, t, hindered) && NoInsert(es)
  }

  // ---------------------------------------------------------------------------
  // What a round does.

  /** A row is finished by a round if it is terminal or newly minted. */
  ghost predicate Finished(r: BnbRow, before: set<string>, s: State) {
    Terminal(s.table, r.key) || (r.key.txid in s.minted && r.key.txid !in before)
  }

  /** Each row read is still to come, finished, or was hindered. */
  ghost predicate Handled(b: seq<BnbRow>, before: set<string>, s: State, hindered: seq<string>) {
    forall i | 0 <= i < |b| :: b[i] in s.batch || Finished(b[i], before, s) || b[i].key.txid in hindered
  }

  /** A batch only loses its first row, by a status write, an accepted submission or a hindrance. */
  lemma OnlyPops(c: Config, s: State, e: Event)
    requires Calm(e) && Step(c, s, e).Some? && Step(c, s, e).value.batch != s.batch
    ensures s.batch != [] && Step(c, s, e).value.batch == s.batch[1..]
    ensures e.Mark? || (e.Create? && e.answer.None?) || Hinders(e)
  {
  }

  lemma AcceptedIsMinted(c: Config, s: State, e: Event)
    requires Step(c, s, e).Some? && s.batch != [] && e.Create? && e.answer.None?
    ensures s.batch[0].key.txid in Step(c, s, e).value.minted && s.batch[0].key.txid !in s.minted
  {
  }

  /** The first row leaves the batch only when it is finished or hindered. */
  lemma HeadLeaves(c: Config, s: State, e: Event, before: set<string>)
    requires Inv(c, s) && Calm(e) && Step(c, s, e).Some? && before <= s.minted
    requires Step(c, s, e).value.batch != s.batch
    ensures var t := Step(c, s, e).value;
            && s.batch != [] && t.batch == s.batch[1..]
            && (Finished(s.batch[0], before, t) || HinderedBy(s, e) == [s.batch[0].key.txid])
  {
    OnlyPops(c, s, e);
    if e.Create? && e.answer.None? {
      AcceptedIsMinted(c, s, e);
    } else if !Hinders(e) {
      MarkFinishes(c, s, e);
    }
  }

  lemma MarkTerminates(s: State)
    requires BatchOk(s) && s.stage.Marking?
    ensures Terminal(SetStatus(s.table, s.batch[0].key, s.stage.status), s.batch[0].key)
  {
    assert Open(s.table, s.batch[0].key) && Has(s.table, s.batch[0].key);
    var i :| 0 <= i < |s.table| && s.table[i].key == s.batch[0].key;
    assert SetStatus(s.table, s.batch[0].key, s.stage.status)[i].status == s.stage.status;
  }

  lemma MarkFinishes(c: Config, s: State, e: Event)
    requires BatchOk(s) && Step(c, s, e).Some? && e.Mark? && !Hinders(e)
    ensures s.batch != [] && Terminal(Step(c, s, e).value.table, s.batch[0].key)
  {
    WrittenIsHex(s.batch[0]);
    MarkTerminates(s);
  }

  lemma HandledNext(b: seq<BnbRow>, before: set<string>, s: State, t: State, hindered: seq<string>, more: seq<string>)
    requires Handled(b, before, s, hindered) && Evolves(s.table, t.table) && s.minted <= t.minted
    requires t.batch == s.batch
             || (&& s.batch != [] && t.batch == s.batch[1..]
                 && (Finished(s.batch[0], before, t) || s.batch[0].key.txid in more))
    ensures Handled(b, before, t, hindered + more)
  {
    forall i | 0 <= i < |b|
      ensures b[i] in t.batch || Finished(b[i], before, t) || b[i].key.txid in hindered + more
    {
      EvolvesHas(s.table, t.table, b[i].key);
      assert b[i] in s.batch && t.batch != s.batch ==> b[i] == s.batch[0] || b[i] in s.batch[1..];
    }
  }

  lemma StepHandled(c: Config, s: State, e: Event, b: seq<BnbRow>, before: set<string>, hindered: seq<string>)
    requires Inv(c, s) && Calm(e) && Step(c, s, e).Some? && Handled(b, before, s, hindered) && before <= s.minted
    ensures Handled(b, before, Step(c, s, e).value, hindered + HinderedBy(s, e))
  {
    var t := Step(c, s, e).value;
    StepEvolves(c, s, e);
    if t.batch != s.batch {
      HeadLeaves(c, s, e, before);
    }
    HandledNext(b, before, s, t, hindered, HinderedBy(s, e));
  }

  /** What a calm stretch of a run does to the rows read before it. */
  lemma {:induction false} CalmStretch(c: Config, s: State, es: seq<Event>, b: seq<BnbRow>, before: set<string>)
    requires Inv(c, s) && Handled(b, before, s, []) && Exec(c, s, es).Some? && before <= s.minted
    requires forall i | 0 <= i < |es| :: Calm(es[i])
    ensures Handled(b, before, Exec(c, s, es).value, Hindered(c, s, es))
  {
    if es != [] {
      var n := |es| - 1;
      CalmStretch(c, s, es[..n], b, before);
      ExecInv(c, s, es[..n]);
      StatusesAreOneWay(c, s, es[..n]);
      StepHandled(c, Exec(c, s, es[..n]).value, es[n], b, before, Hindered(c, s, es[..n]));
    }
  }

  lemma {:induction false} SameSize(c: Config, s: State, es: seq<Event>)
    requires Exec(c, s, es).Some? && NoInsert(es)
    ensures |Exec(c, s, es).value.table| == |s.table|
  {
    if es != [] {
      SameSize(c, s, es[..|es| - 1]);
      StepSameSize(c, Exec(c, s, es[..|es| - 1]).value, es[|es| - 1]);
    }
  }

  lemma StepSameSize(c: Config, s: State, e: Event)
    requires Step(c, s, e).Some? && !e.Insert?
    ensures |Step(c, s, e).value.table| == |s.table|
  {
  }

  lemma RoundEffect(c: Config, s: State, tip: uint64, b: seq<BnbRow>, es: seq<Event>, t: State, hindered: seq<string>)
    requires Inv(c, s) && RoundOf(c, s, tip, b, es, t, hindered)
    ensures Inv(c, t) && Evolves(s.table, t.table) && s.minted <= t.minted
    ensures IsUnhandledList(s.table, tip, b)
    ensures forall i | 0 <= i < |b| :: Finished(b[i], s.minted, t) || b[i].key.txid in hindered
    ensures NoInsert(es) ==> |t.table| == |s.table|
  {
    var m := Step(c, s, Select(tip, b)).value;
    StepInv(c, s, Select(tip, b));
    CalmStretch(c, m, es, b, s.minted);
    ExecInv(c, m, es);
    StatusesAreOneWay(c, m, es);
    if NoInsert(es) {
      SameSize(c, m, es);
    }
  }

  /** One round leaves a ripe row terminal, freshly minted or hindered; a row already minted ends
      terminal unless it is hindered. No row delays another. */
  lemma RoundAdvances(c: Config, s: State, tip: uint64, t: State, hindered: seq<string>, j: nat)
    requires Inv(c, s) && Round(c, s, tip, t, hindered)
    requires j < |s.table| && Unhandled(s.table[j], tip)
    ensures Inv(c, t) && Evolves(s.table, t.table)
    ensures || t.table[j].status != Pending
            || (s.table[j].key.txid in t.minted && s.table[j].key.txid !in s.minted)
            || s.table[j].key.txid in hindered
  {
    var b, es :| RoundOf(c, s, tip, b, es, t, hindered);
    RoundEffect(c, s, tip, b, es, t, hindered);
    assert s.table[j] in b;
    var i :| 0 <= i < |b| && b[i] == s.table[j];
    assert t.table[j].key == s.table[j].key;
    TerminalNotPending(t.table, j);
  }

  /** A row outside what was read is untouched while that is worked through. */
  lemma {:induction false} OutsideStays(c: Config, s: State, es: seq<Event>, j: nat)
    requires Inv(c, s) && Exec(c, s, es).Some? && forall i | 0 <= i < |es| :: Calm(es[i])
    requires j < |s.table| && forall i | 0 <= i < |s.batch| :: s.batch[i].key != s.table[j].key
    ensures var t := Exec(c, s, es).value;
            && j < |t.table| && t.table[j] == s.table[j]
            && forall i | 0 <= i < |t.batch| :: t.batch[i].key != s.table[j].key
  {
    if es != [] {
      var n := |es| - 1;
      OutsideStays(c, s, es[..n], j);
      ExecInv(c, s, es[..n]);
      StepOutside(c, Exec(c, s, es[..n]).value, es[n], j);
    }
  }

  lemma StepOutside(c: Config, s: State, e: Event, j: nat)
    requires Inv(c, s) && Calm(e) && Step(c, s, e).Some?
    requires j < |s.table| && forall i | 0 <= i < |s.batch| :: s.batch[i].key != s.table[j].key
    ensures var t := Step(c, s, e).value;
            && j < |t.table| && t.table[j] == s.table[j]
            && forall i | 0 <= i < |t.batch| :: t.batch[i].key != s.table[j].key
  {
    var t := Step(c, s, e).value;
    StepTableIs(c, s, e);
    if e.Insert? && e.fate != Lost {
      InsertAddsOnly(s.table, ToRows(CHAIN_NAME, s.scan.list));
    } else if e.Mark? && e.fate != Lost {
      WrittenIsHex(s.batch[0]);
    }
    if t.batch != s.batch {
      OnlyPops(c, s, e);
    }
  }

  lemma KeyNotRead(t: seq<BnbRow>, tip: uint64, b: seq<BnbRow>, j: nat)
    requires Unique(t) && IsUnhandledList(t, tip, b) && j < |t| && t[j] !in b
    ensures forall i | 0 <= i < |b| :: b[i].key != t[j].key
  {
    forall i | 0 <= i < |b|
      ensures b[i].key != t[j].key
    {
      assert b[i] in t;
      var k :| 0 <= k < |t| && t[k] == b[i];
      assert k != j;
      assert k < j || j < k;
    }
  }

  /** A round at a tip touches no row above it. */
  lemma HigherRowStays(c: Config, s: State, tip: uint64, t: State, hindered: seq<string>, j: nat)
    requires Inv(c, s) && Round(c, s, tip, t, hindered)
    requires j < |s.table| && s.table[j].data.height > tip
    ensures j < |t.table| && t.table[j] == s.table[j]
  {
    var b: seq<BnbRow>, es :| RoundOf(c, s, tip, b, es, t, hindered);
    var m := Step(c, s, Select(tip, b)).value;
    StepInv(c, s, Select(tip, b));
    UnhandledListIs(s.table, tip, b, s.table[j]);
    KeyNotRead(s.table, tip, b, j);
    OutsideStays(c, m, es, j);
  }

  /** Some run leads from `s` to `t`. */
  ghost predicate Leads(c: Config, s: State, t: State) {
    exists es :: Exec(c, s, es) == Some(t)
  }

  lemma RunLeads(c: Config, s: State, a: seq<Event>, b: seq<Event>)
    requires a <= b && Exec(c, s, a).Some? && Exec(c, s, b).Some?
    ensures Leads(c, Exec(c, s, a).value, Exec(c, s, b).value)
  {
    assert b == a + b[|a|..];
    ExecAppend(c, s, a, b[|a|..]);
  }

  lemma LeadsFacts(c: Config, s: State, t: State)
    requires Inv(c, s) && Leads(c, s, t)
    ensures Inv(c, t) && Evolves(s.table, t.table) && s.minted <= t.minted
  {
    var es :| Exec(c, s, es) == Some(t);
    ExecInv(c, s, es);
    StatusesAreOneWay(c, s, es);
  }

  lemma RoundMovesForward(c: Config, s: State, tip: uint64, t: State, hindered: seq<string>)
    requires Inv(c, s) && Round(c, s, tip, t, hindered)
    ensures Inv(c, t) && Evolves(s.table, t.table) && s.minted <= t.minted
  {
    var b, es :| RoundOf(c, s, tip, b, es, t, hindered);
    RoundEffect(c, s, tip, b, es, t, hindered);
  }

  /** A ripe row is terminal after two rounds with a rising tip that do not hinder it, whatever happens between
      them: inserts, other rounds, crashes and restarts. */
  lemma TwoRoundsFinish(c: Config, s: State, tip: uint64, t: State, h: seq<string>,
                        s2: State, tip2: uint64, u: State, h2: seq<string>, j: nat)
    requires Inv(c, s) && Round(c, s, tip, t, h) && Leads(c, t, s2) && Round(c, s2, tip2, u, h2) && tip <= tip2
    requires j < |s.table| && Unhandled(s.table[j], tip)
    requires s.table[j].key.txid !in h && s.table[j].key.txid !in h2
    ensures j < |u.table| && u.table[j].key == s.table[j].key && u.table[j].status != Pending
  {
    RoundAdvances(c, s, tip, t, h, j);
    LeadsFacts(c, t, s2);
    if s2.table[j].status == Pending {
      RoundAdvances(c, s2, tip2, u, h2, j);
    } else {
      RoundMovesForward(c, s2, tip2, u, h2);
    }
  }

  // ---------------------------------------------------------------------------
  // The measure (pending and not minted, pending) at a fixed tip.

  ghost function Queue(s: State, tip: uint64): set<ChainTxid> {
    set i | 0 <= i < |s.table| && Unhandled(s.table[i], tip) :: s.table[i].key
  }

  ghost function Unminted(s: State, tip: uint64): set<ChainTxid> {
    set k | k in Queue(s, tip) && k.txid !in s.minted
  }

  /** A round without inserts that hinders nothing empties the first component; if it was empty, the second too. */
  lemma QuietRoundDrains(c: Config, s: State, tip: uint64, t: State)
    requires Inv(c, s) && QuietRound(c, s, tip, t, [])
    ensures Unminted(t, tip) == {}
    ensures Unminted(s, tip) == {} ==> Queue(t, tip) == {}
  {
    var b, es :| RoundOf(c, s, tip, b, es, t, []) && NoInsert(es);
    RoundEffect(c, s, tip, b, es, t, []);
    assert Round(c, s, tip, t, []);
    forall i | 0 <= i < |t.table| && Unhandled(t.table[i], tip)
      ensures t.table[i].key.txid in t.minted && t.table[i].key in Unminted(s, tip)
    {
      assert Unhandled(s.table[i], tip) && s.table[i].key == t.table[i].key;
      RoundAdvances(c, s, tip, t, [], i);
    }
  }

  /** So each round on a non-empty queue lowers the pair lexicographically. */
  lemma MeasureDecreases(c: Config, s: State, tip: uint64, t: State)
    requires Inv(c, s) && QuietRound(c, s, tip, t, []) && Queue(s, tip) != {}
    ensures |Unminted(t, tip)| < |Unminted(s, tip)|
         || (|Unminted(t, tip)| == |Unminted(s, tip)| && |Queue(t, tip)| < |Queue(s, tip)|)
  {
    QuietRoundDrains(c, s, tip, t);
  }

  lemma HinderedAppend(c: Config, s: State, a: seq<Event>, b: seq<Event>)
    requires Exec(c, s, a).Some? && Exec(c, s, a + b).Some?
    ensures Exec(c, Exec(c, s, a).value, b).Some?
    ensures Hindered(c, s, a + b) == Hindered(c, s, a) + Hindered(c, Exec(c, s, a).value, b)
    decreases |b|
  {
    ExecAppend(c, s, a, b);
    if b == [] {
      assert a + b == a;
    } else {
      var front, last := b[..|b| - 1], b[|b| - 1];
      assert (a + b)[..|a + b| - 1] == a + front;
      HinderedAppend(c, s, a, front);
      ExecAppend(c, s, a, front);
    }
  }

  // ---------------------------------------------------------------------------
  // Such rounds exist.

  /** Neither an interruption nor a hindrance nor an insert. */
  predicate Clear(e: Event) {
    Calm(e) && !Hinders(e) && !e.Insert?
  }

  lemma {:induction false} ClearIsUnhindered(c: Config, s: State, es: seq<Event>)
    requires Exec(c, s, es).Some? && forall i | 0 <= i < |es| :: Clear(es[i])
    ensures Hindered(c, s, es) == []
  {
    if es != [] {
      ClearIsUnhindered(c, s, es[..|es| - 1]);
    }
  }

  lemma SomeDuplicateError() returns (err: string)
    ensures IsBNBStakingDuplicate(err)
  {
    err := DUPLICATE_EVENT_ERROR;
    ContainsItself(err);
  }

  lemma FinishMinted(c: Config, s: State, err: string) returns (t: State)
    requires s.up && s.batch != [] && s.stage == AtHead && HexOk(s.batch[0]) && s.batch[0].key.txid in s.minted
    requires IsBNBStakingDuplicate(err)
    ensures Exec(c, s, [Create(false, Some(err))] + [Mark(Applied)]) == Some(t)
    ensures t.up && t.stage == AtHead && t.batch == s.batch[1..]
  {
    Exec1(c, s, Create(false, Some(err)));
    var m := Step(c, s, Create(false, Some(err))).value;
    Exec1(c, m, Mark(Applied));
    ExecAppend(c, s, [Create(false, Some(err))], [Mark(Applied)]);
    t := Step(c, m, Mark(Applied)).value;
  }

  lemma FinishHead(c: Config, s: State) returns (es: seq<Event>, t: State)
    requires s.up && s.batch != [] && s.stage == AtHead && HexOk(s.batch[0])
    ensures Exec(c, s, es) == Some(t) && forall i | 0 <= i < |es| :: Clear(es[i])
    ensures t.up && t.stage == AtHead && t.batch == s.batch[1..]
  {
    if s.batch[0].key.txid in s.minted {
      var err := SomeDuplicateError();
      t := FinishMinted(c, s, err);
      es := [Create(false, Some(err))] + [Mark(Applied)];
    } else {
      Exec1(c, s, Create(true, None));
      es := [Create(true, None)];
      t := Step(c, s, Create(true, None)).value;
    }
  }

  lemma {:induction false} FinishBatch(c: Config, s: State) returns (es: seq<Event>)
    requires Inv(c, s) && s.up && s.stage == AtHead
    ensures Exec(c, s, es).Some? && forall i | 0 <= i < |es| :: Clear(es[i])
    ensures Exec(c, s, es).value.batch == []
    decreases |s.batch|
  {
    if s.batch == [] {
      es := [];
    } else {
      WrittenIsHex(s.batch[0]);
      var head, t := FinishHead(c, s);
      ExecInv(c, s, head);
      var rest := FinishBatch(c, t);
      ExecAppend(c, s, head, rest);
      es := head + rest;
    }
  }

  /** From every state between batches a quiet round that hinders nothing is possible at every tip. */
  lemma RoundIsPossible(c: Config, s: State, tip: uint64) returns (t: State)
    requires Inv(c, s) && s.up && s.batch == []
    ensures QuietRound(c, s, tip, t, [])
  {
    var b := UnhandledListExists(s.table, tip);
    StepInv(c, s, Select(tip, b));
    var m := Step(c, s, Select(tip, b)).value;
    var es := FinishBatch(c, m);
    t := Exec(c, m, es).value;
    ClearIsUnhindered(c, m, es);
    assert RoundOf(c, s, tip, b, es, t, []);
  }

  // ---------------------------------------------------------------------------
  // Why the chain column matters.

  /** The query reads rows of every chain but the marks name this relayer's: a row of another chain
      never changes in any run, from any table, so a pending one would be read again for ever. */
  lemma {:induction false} ForeignRowNeverMoves(c: Config, s: State, es: seq<Event>, i: nat)
    requires Exec(c, s, es).Some? && i < |s.table| && s.table[i].key.chain != CHAIN_NAME
    ensures i < |Exec(c, s, es).value.table| && Exec(c, s, es).value.table[i] == s.table[i]
  {
    if es != [] {
      var n := |es| - 1;
      ForeignRowNeverMoves(c, s, es[..n], i);
      ForeignRowStays(c, Exec(c, s, es[..n]).value, es[n], i);
    }
  }

  lemma ForeignRowStays(c: Config, s: State, e: Event, i: nat)
    requires Step(c, s, e).Some? && i < |s.table| && s.table[i].key.chain != CHAIN_NAME
    ensures i < |Step(c, s, e).value.table| && Step(c, s, e).value.table[i] == s.table[i]
  {
    if e.Insert? {
      InsertAddsOnly(s.table, ToRows(CHAIN_NAME, s.scan.list));
    }
  }
}
