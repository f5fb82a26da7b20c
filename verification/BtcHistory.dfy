/** What a run of the Bitcoin relayer sends out: its submissions to Lorenzo with their answers and its
    status writes with their fates. The relayer's methods are tied to the logs of Lorenzo and of the
    repository through it, so that no event of a run can be made up. */
module BtcHistory {
  import opened Common
  import opened Table
  import opened BtcRepository
  import opened BtcProtocol
  import BtcDrain

  /** The agent and the transaction of a submission. */
  datatype MsgCreateBTCStaking = MsgCreateBTCStaking(agentId: uint64, txid: string)

  datatype Submission = Submission(msg: MsgCreateBTCStaking, landed: bool, answer: Option<string>)

  /** `hindered` are the keys of the rows a failed query, a retryable answer or a lost write left pending,
      `interrupts` counts crashes, starts and batch reads. */
  datatype History = History(
    submissions: seq<Submission>,
    writes: seq<StatusWrite>,
    hindered: seq<string>,
    interrupts: nat)

  predicate Retried(answer: Option<string>) {
    answer.Some? && IsStakingMintTryAgainError(answer.value)
  }

  /** One more event, in state `s`. */
  function Note(s: State, e: Event, h: History): History {
    if !BtcDrain.Calm(e) then h.(interrupts := h.interrupts + 1)
    else if s.batch == [] then h
    else
      var key := s.batch[0].key;
      match e
      case QueryFailed => h.(hindered := h.hindered + [key])
      case Create(landed, answer) =>
        if !s.stage.Resolved? then h
        else
          var sent := h.submissions + [Submission(MsgCreateBTCStaking(s.stage.agentId, key), landed, answer)];
          h.(submissions := sent, hindered := if Retried(answer) then h.hindered + [key] else h.hindered)
      case Mark(fate) =>
        if !s.stage.Marking? then h
        else
          var written := h.writes + [StatusWrite(key, s.stage.status, fate)];
          h.(writes := written, hindered := if fate == Lost then h.hindered + [key] else h.hindered)
      case _ => h
  }

  function HistoryOf(c: Config, s: State, es: seq<Event>): History
    requires Exec(c, s, es).Some?
  {
    if es == [] then History([], [], [], 0)
    else
      var n := |es| - 1;
      Note(Exec(c, s, es[..n]).value, es[n], HistoryOf(c, s, es[..n]))
  }

  lemma NoteHindered(c: Config, s: State, e: Event, h: History)
    requires Step(c, s, e).Some?
    ensures Note(s, e, h).hindered == h.hindered + BtcDrain.HinderedBy(s, e)
    ensures Note(s, e, h).interrupts == h.interrupts + if BtcDrain.Calm(e) then 0 else 1
  {
  }

  function Interrupts(es: seq<Event>): nat {
    if es == [] then 0 else Interrupts(es[..|es| - 1]) + if BtcDrain.Calm(es[|es| - 1]) then 0 else 1
  }

  /** The history of a run tells which rows it hindered and how often it was interrupted. */
  lemma {:induction false} HistoryTells(c: Config, s: State, es: seq<Event>)
    requires Exec(c, s, es).Some?
    ensures HistoryOf(c, s, es).hindered == BtcDrain.Hindered(c, s, es)
    ensures HistoryOf(c, s, es).interrupts == Interrupts(es)
  {
    if es != [] {
      var n := |es| - 1;
      HistoryTells(c, s, es[..n]);
      NoteHindered(c, Exec(c, s, es[..n]).value, es[n], HistoryOf(c, s, es[..n]));
    }
  }

  lemma {:induction false} UninterruptedIsCalm(a: seq<Event>, b: seq<Event>)
    ensures Interrupts(a) <= Interrupts(a + b)
    ensures Interrupts(a) == Interrupts(a + b) ==> forall i | 0 <= i < |b| :: BtcDrain.Calm(b[i])
  {
    if b == [] {
      assert a + b == a;
    } else {
      var front := b[..|b| - 1];
      assert (a + b)[..|a + b| - 1] == a + front;
      UninterruptedIsCalm(a, front);
      assert forall i | 0 <= i < |front| :: front[i] == b[i];
    }
  }

  lemma SamePrefix(p: seq<string>, x: seq<string>, y: seq<string>)
    requires p + x == p + y
    ensures x == y
  {
    assert x == (p + x)[|p|..] && y == (p + y)[|p|..];
  }

  /** A stretch of a run without interruption is calm. */
  lemma StretchIsCalm(c: Config, s: State, a: seq<Event>, b: seq<Event>)
    requires Exec(c, s, a).Some? && Exec(c, s, a + b).Some?
    requires HistoryOf(c, s, a + b).interrupts == HistoryOf(c, s, a).interrupts
    ensures forall i | 0 <= i < |b| :: BtcDrain.Calm(b[i])
  {
    HistoryTells(c, s, a);
    HistoryTells(c, s, a + b);
    UninterruptedIsCalm(a, b);
  }

  /** It hinders the rows its history says. */
  lemma StretchHinders(c: Config, s: State, a: seq<Event>, b: seq<Event>, hindered: seq<string>)
    requires Exec(c, s, a).Some? && Exec(c, s, a + b).Some?
    requires HistoryOf(c, s, a + b).hindered == HistoryOf(c, s, a).hindered + hindered
    ensures Exec(c, Exec(c, s, a).value, b).Some? && BtcDrain.Hindered(c, Exec(c, s, a).value, b) == hindered
  {
    HistoryTells(c, s, a);
    HistoryTells(c, s, a + b);
    BtcDrain.HinderedAppend(c, s, a, b);
    SamePrefix(BtcDrain.Hindered(c, s, a), BtcDrain.Hindered(c, Exec(c, s, a).value, b), hindered);
  }

  /** A read of the table and what follows it, up to the end of the batch, is a round. */
  lemma RoundOfHistory(c: Config, s: State, before: seq<Event>, tip: uint64, txs: seq<BtcRow>, es: seq<Event>,
                       hindered: seq<string>)
    requires Exec(c, s, before + [Select(tip, txs)] + es).Some?
    requires Exec(c, s, before + [Select(tip, txs)]).Some?
    requires var g := HistoryOf(c, s, before + [Select(tip, txs)]);
             var h := HistoryOf(c, s, before + [Select(tip, txs)] + es);
             h.interrupts == g.interrupts && h.hindered == g.hindered + hindered
    requires Exec(c, s, before + [Select(tip, txs)] + es).value.batch == []
    ensures Exec(c, s, before).Some?
    ensures var t := Exec(c, s, before + [Select(tip, txs)] + es).value;
            BtcDrain.Round(c, Exec(c, s, before).value, tip, t, hindered)
  {
    var a := before + [Select(tip, txs)];
    assert a[..|before|] == before;
    StretchIsCalm(c, s, a, es);
    StretchHinders(c, s, a, es, hindered);
    ExecAppend(c, s, a, es);
    var m, t := Exec(c, s, before).value, Exec(c, s, a + es).value;
    assert Step(c, m, Select(tip, txs)) == Exec(c, s, a);
    assert BtcDrain.RoundOf(c, m, tip, txs, es, t, hindered);
  }

  // ---------------------------------------------------------------------------
  // What handling one row sends out.

  /** Which queries fail while a row is handled, whether its proof fails to parse, and what becomes of its
      status write, if there is one. */
  datatype Outcomes = Outcomes(recordFails: bool, loadFails: bool, parseFails: bool, mark: Write)

  /** `hindered` says that the row stays pending. */
  datatype Handling = Handling(submissions: seq<Submission>, writes: seq<StatusWrite>, hindered: bool)

  /** A query failed. */
  const SKIPPED := Handling([], [], true)

  /** One status write. */
  function Marks(txid: string, status: Status, fate: Write): Handling {
    Handling([], [StatusWrite(txid, status, fate)], fate == Lost)
  }

  /** One submission and the write its answer decides: Success without an error, none for a retryable
      error, Invalid otherwise. */
  function Sends(sent: Submission, fate: Write): Handling {
    if Retried(sent.answer) then Handling([sent], [], true)
    else Marks(sent.msg.txid, if sent.answer.None? then Success else Invalid, fate).(submissions := [sent])
  }

  /** What an answer leads to, by its text: Success if there is none; if it contains one of six texts the row
      stays pending and nothing is written; otherwise Invalid. */
  lemma AnswerDecides(sent: Submission, fate: Write)
    ensures Sends(sent, fate).submissions == [sent]
    ensures sent.answer.None? ==> Sends(sent, fate).writes == [StatusWrite(sent.msg.txid, Success, fate)]
    ensures sent.answer.Some? && RetryText(sent.answer.value) ==>
              Sends(sent, fate).writes == [] && Sends(sent, fate).hindered
    ensures sent.answer.Some? && !RetryText(sent.answer.value) ==>
              Sends(sent, fate).writes == [StatusWrite(sent.msg.txid, Invalid, fate)]
    ensures !(sent.answer.Some? && RetryText(sent.answer.value)) ==> (Sends(sent, fate).hindered <==> fate == Lost)
  {
    if sent.answer.Some? {
      TryAgainTexts(sent.answer.value);
    }
  }

  predicate RetryText(err: string) {
    || Contains(err, "not k-deep") || Contains(err, "duplicate btc transaction")
    || Contains(err, "context deadline exceeded") || Contains(err, "btc block header not found")
    || Contains(err, "post failed") || Contains(err, "account sequence mismatch")
  }

  /** The row was submitted, for its own agent if it has one. */
  predicate Submitted(tx: BtcRow, fate: Write, h: Handling) {
    && |h.submissions| == 1 && h == Sends(h.submissions[0], fate)
    && h.submissions[0].msg.txid == tx.key
    && (tx.data.agentId != 0 ==> h.submissions[0].msg.agentId == tx.data.agentId)
  }

  /** Everything the submit loop may do with an unrecorded row. */
  predicate UnrecordedHandled(tx: BtcRow, o: Outcomes, h: Handling) {
    if o.loadFails then h == SKIPPED
    else
      || (tx.data.agentId == 0 && h == Marks(tx.key, NotBelongToAgent, o.mark))
      || (if o.parseFails then h == Marks(tx.key, Invalid, o.mark) else Submitted(tx, o.mark, h))
  }

  /** Everything it may do with a row. */
  predicate RowHandled(tx: BtcRow, o: Outcomes, h: Handling) {
    if o.recordFails then h == SKIPPED
    else h == Marks(tx.key, Success, o.mark) || UnrecordedHandled(tx, o, h)
  }

  /** Whatever is done with a row concerns that row only: at most one submission and one write, of the fate
      the database gives it; nothing after a failed query; no submission without proof; and a write of
      Invalid or NotBelongToAgent only for its reason. */
  lemma HandlingIsModest(tx: BtcRow, o: Outcomes, h: Handling)
    requires RowHandled(tx, o, h)
    ensures |h.submissions| <= 1 && forall i | 0 <= i < |h.submissions| :: h.submissions[i].msg.txid == tx.key
    ensures |h.writes| <= 1
    ensures forall i | 0 <= i < |h.writes| :: h.writes[i].txid == tx.key && h.writes[i].fate == o.mark
    ensures o.recordFails ==> h.submissions == [] && h.writes == [] && h.hindered
    ensures h.submissions != [] ==> !o.recordFails && !o.loadFails && !o.parseFails
    ensures h.submissions != [] && tx.data.agentId != 0 ==> h.submissions[0].msg.agentId == tx.data.agentId
    ensures h.submissions == [] && h.writes == [] ==> o.recordFails || o.loadFails
    ensures h.writes != [] && h.writes[0].status == Invalid ==>
              || (o.parseFails && h.submissions == [])
              || (h.submissions != [] && h.submissions[0].answer.Some? && !RetryText(h.submissions[0].answer.value))
    ensures h.writes != [] && h.writes[0].status == NotBelongToAgent ==> tx.data.agentId == 0 && h.submissions == []
    ensures h.writes != [] && h.writes[0].status == Success ==>
              h.submissions == [] || h.submissions[0].answer.None?
    ensures h.hindered <==> h.writes == [] || o.mark == Lost
  {
    if h.submissions != [] {
      AnswerDecides(h.submissions[0], o.mark);
    }
  }

  /** The history `h` continues `g` by what handling the row of `key` sent out. */
  predicate Adds(g: History, h: History, key: string, x: Handling) {
    h == History(g.submissions + x.submissions, g.writes + x.writes,
                 g.hindered + if x.hindered then [key] else [], g.interrupts)
  }

  // ---------------------------------------------------------------------------
  // What handling a batch sends out.

  predicate BatchHandled(txs: seq<BtcRow>, outcomes: string -> Outcomes, hs: seq<Handling>) {
    |hs| == |txs| && forall i | 0 <= i < |txs| :: RowHandled(txs[i], outcomes(txs[i].key), hs[i])
  }

  function SubmissionsOf(hs: seq<Handling>): seq<Submission> {
    if hs == [] then [] else SubmissionsOf(hs[..|hs| - 1]) + hs[|hs| - 1].submissions
  }

  function WritesOf(hs: seq<Handling>): seq<StatusWrite> {
    if hs == [] then [] else WritesOf(hs[..|hs| - 1]) + hs[|hs| - 1].writes
  }

  /** The keys of the hindered rows. */
  function HinderedIn(txs: seq<BtcRow>, hs: seq<Handling>): seq<string>
    requires |hs| == |txs|
  {
    if hs == [] then []
    else
      var n := |hs| - 1;
      HinderedIn(txs[..n], hs[..n]) + if hs[n].hindered then [txs[n].key] else []
  }

  /** The history `h` continues `g` by what the handlings sent out, one after the other. */
  predicate AddsAll(g: History, h: History, txs: seq<BtcRow>, hs: seq<Handling>)
    requires |hs| == |txs|
  {
    h == History(g.submissions + SubmissionsOf(hs), g.writes + WritesOf(hs),
                 g.hindered + HinderedIn(txs, hs), g.interrupts)
  }

  lemma AddsNext(g: History, m: History, h: History, txs: seq<BtcRow>, hs: seq<Handling>, tx: BtcRow, x: Handling)
    requires |hs| == |txs| && AddsAll(g, m, txs, hs) && Adds(m, h, tx.key, x)
    ensures AddsAll(g, h, txs + [tx], hs + [x])
  {
    assert (hs + [x])[..|hs|] == hs && (txs + [tx])[..|hs|] == txs;
    var more := if x.hindered then [tx.key] else [];
    assert (g.submissions + SubmissionsOf(hs)) + x.submissions == g.submissions + (SubmissionsOf(hs) + x.submissions);
    assert (g.writes + WritesOf(hs)) + x.writes == g.writes + (WritesOf(hs) + x.writes);
    assert (g.hindered + HinderedIn(txs, hs)) + more == g.hindered + (HinderedIn(txs, hs) + more);
  }
}
