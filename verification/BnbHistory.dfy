/** What a run of the BNB relayer sends out: its submissions to Lorenzo with their answers and its
    status writes with their fates, to which the logs of Lorenzo and of the repository are tied. */
module BnbHistory {
  import opened Common
  import opened Table
  import opened Hex
  import opened BnbRepository
  import opened StakePlan
  import opened BnbProtocol
  import BnbDrain

  datatype MsgCreateBTCBStaking = MsgCreateBTCBStaking(number: uint64, receipt: seq<byte>, proof: seq<byte>)

  /** The submission of a receipt: its block, its own bytes and those of its proof. */
  function MessageOf(x: ReceiptWithProof): MsgCreateBTCBStaking {
    MsgCreateBTCBStaking(x.receipt.blockNumber, x.receipt.raw, x.proof)
  }

  /** What a row decodes to. */
  function MessageFrom(tx: BnbRow): MsgCreateBTCBStaking
    requires HexOk(tx)
  {
    MsgCreateBTCBStaking(tx.data.height, Decode(tx.data.receipt).value, Decode(tx.data.proof).value)
  }

  /** The message of a row the scanner wrote is that of the receipt it wrote the row from. */
  lemma MessageRoundTrip(x: ReceiptWithProof, status: Status)
    ensures var row := ToRow(CHAIN_NAME, x).(status := status);
            && HexOk(row) && MessageFrom(row) == MessageOf(x)
            && MessageFrom(row).number == x.receipt.blockNumber
            && MessageFrom(row).receipt == x.receipt.raw && MessageFrom(row).proof == x.proof
  {
    WrittenDecodes(CHAIN_NAME, x);
  }

  datatype Submission = Submission(txid: string, msg: MsgCreateBTCBStaking, landed: bool, answer: Option<string>)

  /** `hindered` are the txids of the rows a retryable answer or a lost write left as they were,
      `interrupts` counts crashes, starts and reads of the table. */
  datatype History = History(
    submissions: seq<Submission>,
    writes: seq<StatusWrite>,
    hindered: seq<string>,
    interrupts: nat)

  /** One more event, in state `s`. */
  function Note(s: State, e: Event, h: History): History {
    if !BnbDrain.Calm(e) then h.(interrupts := h.interrupts + 1)
    else if s.batch == [] then h
    else
      var txid := s.batch[0].key.txid;
      match e
      case Create(landed, answer) =>
        if !HexOk(s.batch[0]) then h
        else
          var sent := h.submissions + [Submission(txid, MessageFrom(s.batch[0]), landed, answer)];
          h.(submissions := sent, hindered := if BnbDrain.Retried(answer) then h.hindered + [txid] else h.hindered)
      case Mark(fate) =>
        if !s.stage.Marking? then h
        else
          var written := h.writes + [StatusWrite(txid, s.stage.status, fate)];
          h.(writes := written, hindered := if fate == Lost then h.hindered + [txid] else h.hindered)
      case _ => h
  }

  function HistoryOf(c: Config, s: State, es: seq<Event>): History
    requires Exec(c, s, es).Some?
  {
    if es == [] then History([], [], [], 0)
    else
      var n := |es| - 1;
      Note(Exec(c, s, es[..n]).value, es[n], HistoryOf(c, s, es[..n]))
  }

  lemma NoteHindered(c: Config, s: State, e: Event, h: History)
    requires Step(c, s, e).Some?
    ensures Note(s, e, h).hindered == h.hindered + BnbDrain.HinderedBy(s, e)
    ensures Note(s, e, h).interrupts == h.interrupts + if BnbDrain.Calm(e) then 0 else 1
  {
  }

  function Interrupts(es: seq<Event>): nat {
    if es == [] then 0 else Interrupts(es[..|es| - 1]) + if BnbDrain.Calm(es[|es| - 1]) then 0 else 1
  }

  /** The history of a run tells which rows it hindered and how often it was interrupted. */
  lemma {:induction false} HistoryTells(c: Config, s: State, es: seq<Event>)
    requires Exec(c, s, es).Some?
    ensures HistoryOf(c, s, es).hindered == BnbDrain.Hindered(c, s, es)
    ensures HistoryOf(c, s, es).interrupts == Interrupts(es)
  {
    if es != [] {
      var n := |es| - 1;
      HistoryTells(c, s, es[..n]);
      NoteHindered(c, Exec(c, s, es[..n]).value, es[n], HistoryOf(c, s, es[..n]));
    }
  }

  lemma {:induction false} UninterruptedIsCalm(a: seq<Event>, b: seq<Event>)
    ensures Interrupts(a) <= Interrupts(a + b)
    ensures Interrupts(a) == Interrupts(a + b) ==> forall i | 0 <= i < |b| :: BnbDrain.Calm(b[i])
  {
    if b == [] {
      assert a + b == a;
    } else {
      var front := b[..|b| - 1];
      assert (a + b)[..|a + b| - 1] == a + front;
      UninterruptedIsCalm(a, front);
      assert forall i | 0 <= i < |front| :: front[i] == b[i];
    }
  }

  lemma SamePrefix(p: seq<string>, x: seq<string>, y: seq<string>)
    requires p + x == p + y
    ensures x == y
  {
    assert x == (p + x)[|p|..] && y == (p + y)[|p|..];
  }

  /** A stretch of a run without interruption is calm. */
  lemma StretchIsCalm(c: Config, s: State, a: seq<Event>, b: seq<Event>)
    requires Exec(c, s, a).Some? && Exec(c, s, a + b).Some?
    requires HistoryOf(c, s, a + b).interrupts == HistoryOf(c, s, a).interrupts
    ensures forall i | 0 <= i < |b| :: BnbDrain.Calm(b[i])
  {
    HistoryTells(c, s, a);
    HistoryTells(c, s, a + b);
    UninterruptedIsCalm(a, b);
  }

  /** It hinders the rows its history says. */
  lemma StretchHinders(c: Config, s: State, a: seq<Event>, b: seq<Event>, hindered: seq<string>)
    requires Exec(c, s, a).Some? && Exec(c, s, a + b).Some?
    requires HistoryOf(c, s, a + b).hindered == HistoryOf(c, s, a).hindered + hindered
    ensures Exec(c, Exec(c, s, a).value, b).Some? && BnbDrain.Hindered(c, Exec(c, s, a).value, b) == hindered
  {
    HistoryTells(c, s, a);
    HistoryTells(c, s, a + b);
    BnbDrain.HinderedAppend(c, s, a, b);
    SamePrefix(BnbDrain.Hindered(c, s, a), BnbDrain.Hindered(c, Exec(c, s, a).value, b), hindered);
  }

  /** A read of the table and what follows it, up to the end of the batch, is a round. */
  lemma RoundOfHistory(c: Config, s: State, before: seq<Event>, tip: uint64, txs: seq<BnbRow>, es: seq<Event>,
                       hindered: seq<string>)
    requires Exec(c, s, before + [Select(tip, txs)] + es).Some?
    requires Exec(c, s, before + [Select(tip, txs)]).Some?
    requires var g := HistoryOf(c, s, before + [Select(tip, txs)]);
             var h := HistoryOf(c, s, before + [Select(tip, txs)] + es);
             h.interrupts == g.interrupts && h.hindered == g.hindered + hindered
    requires Exec(c, s, before + [Select(tip, txs)] + es).value.batch == []
    ensures Exec(c, s, before).Some?
    ensures var t := Exec(c, s, before + [Select(tip, txs)] + es).value;
            BnbDrain.Round(c, Exec(c, s, before).value, tip, t, hindered)
  {
    var a := before + [Select(tip, txs)];
    assert a[..|before|] == before;
    StretchIsCalm(c, s, a, es);
    StretchHinders(c, s, a, es, hindered);
    ExecAppend(c, s, a, es);
    var m, t := Exec(c, s, before).value, Exec(c, s, a + es).value;
    assert Step(c, m, Select(tip, txs)) == Exec(c, s, a);
    assert BnbDrain.RoundOf(c, m, tip, txs, es, t, hindered);
  }

  // ---------------------------------------------------------------------------
  // What handling one row sends out.

  /** `hindered` says that the row stays as it was. */
  datatype Handling = Handling(submissions: seq<Submission>, writes: seq<StatusWrite>, hindered: bool)

  /** One status write. */
  function Marks(txid: string, status: Status, fate: Write): Handling {
    Handling([], [StatusWrite(txid, status, fate)], fate == Lost)
  }

  /** One submission and the write its answer decides: none without an error, Success for a duplicate, none
      for a retryable error, Invalid otherwise. */
  function Sends(sent: Submission, fate: Write): Handling {
    if sent.answer.None? then Handling([sent], [], false)
    else if BnbDrain.Retried(sent.answer) then Handling([sent], [], true)
    else
      var status := if IsBNBStakingDuplicate(sent.answer.value) then Success else Invalid;
      Marks(sent.txid, status, fate).(submissions := [sent])
  }

  /** What an answer leads to, by its text: nothing is written without an error (a later round marks the row) nor
      for three retryable texts; the duplicate text, which is tested first, means Success, any other Invalid. */
  lemma AnswerDecides(sent: Submission, fate: Write)
    ensures Sends(sent, fate).submissions == [sent]
    ensures sent.answer.None? ==> Sends(sent, fate).writes == [] && !Sends(sent, fate).hindered
    ensures sent.answer.Some? && Contains(sent.answer.value, "duplicate event") ==>
              Sends(sent, fate).writes == [StatusWrite(sent.txid, Success, fate)]
    ensures sent.answer.Some? && !Contains(sent.answer.value, "duplicate event") && RetryText(sent.answer.value) ==>
              Sends(sent, fate).writes == [] && Sends(sent, fate).hindered
    ensures sent.answer.Some? && !Contains(sent.answer.value, "duplicate event") && !RetryText(sent.answer.value) ==>
              Sends(sent, fate).writes == [StatusWrite(sent.txid, Invalid, fate)]
  {
    if sent.answer.Some? {
      ErrorTexts(sent.answer.value);
    }
  }

  predicate RetryText(err: string) {
    || Contains(err, "context deadline exceeded") || Contains(err, "post failed")
    || Contains(err, "account sequence mismatch")
  }

  /** The message was submitted for the row. */
  predicate Submitted(txid: string, msg: MsgCreateBTCBStaking, fate: Write, h: Handling) {
    && |h.submissions| == 1 && h == Sends(h.submissions[0], fate)
    && h.submissions[0].txid == txid && h.submissions[0].msg == msg
  }

  /** Everything the submit loop may do with a row. */
  predicate RowHandled(tx: BnbRow, fate: Write, h: Handling) {
    if HexOk(tx) then Submitted(tx.key.txid, MessageFrom(tx), fate, h) else h == Marks(tx.key.txid, Invalid, fate)
  }

  /** Whatever is done with a row the scanner wrote is one submission of that row's receipt, and at most one
      write, for that row and of the fate the database gives it. */
  lemma HandlingIsModest(tx: BnbRow, fate: Write, h: Handling)
    requires RowHandled(tx, fate, h) && HexOk(tx)
    ensures |h.submissions| == 1 && h.submissions[0].txid == tx.key.txid && h.submissions[0].msg == MessageFrom(tx)
    ensures |h.writes| <= 1
    ensures forall i | 0 <= i < |h.writes| :: h.writes[i].txid == tx.key.txid && h.writes[i].fate == fate
    ensures h.writes != [] && h.writes[0].status == Success ==>
              h.submissions[0].answer.Some? && Contains(h.submissions[0].answer.value, "duplicate event")
    ensures h.writes != [] ==> h.writes[0].status == Success || h.writes[0].status == Invalid
    ensures h.writes == [] ==> h.submissions[0].answer.None? || RetryText(h.submissions[0].answer.value)
  {
    AnswerDecides(h.submissions[0], fate);
  }

  /** The history `h` continues `g` by what handling the row of `txid` sent out. */
  predicate Adds(g: History, h: History, txid: string, x: Handling) {
    h == History(g.submissions + x.submissions, g.writes + x.writes,
                 g.hindered + if x.hindered then [txid] else [], g.interrupts)
  }

  // ---------------------------------------------------------------------------
  // What handling all rows read sends out.

  predicate BatchHandled(txs: seq<BnbRow>, fates: string -> Write, hs: seq<Handling>) {
    |hs| == |txs| && forall i | 0 <= i < |txs| :: RowHandled(txs[i], fates(txs[i].key.txid), hs[i])
  }

  function SubmissionsOf(hs: seq<Handling>): seq<Submission> {
    if hs == [] then [] else SubmissionsOf(hs[..|hs| - 1]) + hs[|hs| - 1].submissions
  }

  function WritesOf(hs: seq<Handling>): seq<StatusWrite> {
    if hs == [] then [] else WritesOf(hs[..|hs| - 1]) + hs[|hs| - 1].writes
  }

  /** The txids of the hindered rows. */
  function HinderedIn(txs: seq<BnbRow>, hs: seq<Handling>): seq<string>
    requires |hs| == |txs|
  {
    if hs == [] then []
    else
      var n := |hs| - 1;
      HinderedIn(txs[..n], hs[..n]) + if hs[n].hindered then [txs[n].key.txid] else []
  }

  /** The history `h` continues `g` by what the handlings sent out, one after the other. */
  predicate AddsAll(g: History, h: History, txs: seq<BnbRow>, hs: seq<Handling>)
    requires |hs| == |txs|
  {
    h == History(g.submissions + SubmissionsOf(hs), g.writes + WritesOf(hs),
                 g.hindered + HinderedIn(txs, hs), g.interrupts)
  }

  lemma AddsNext(g: History, m: History, h: History, txs: seq<BnbRow>, hs: seq<Handling>, tx: BnbRow, x: Handling)
    requires |hs| == |txs| && AddsAll(g, m, txs, hs) && Adds(m, h, tx.key.txid, x)
    ensures AddsAll(g, h, txs + [tx], hs + [x])
  {
    assert (hs + [x])[..|hs|] == hs && (txs + [tx])[..|hs|] == txs;
    var more := if x.hindered then [tx.key.txid] else [];
    assert (g.submissions + SubmissionsOf(hs)) + x.submissions == g.submissions + (SubmissionsOf(hs) + x.submissions);
    assert (g.writes + WritesOf(hs)) + x.writes == g.writes + (WritesOf(hs) + x.writes);
    assert (g.hindered + HinderedIn(txs, hs)) + more == g.hindered + (HinderedIn(txs, hs) + more);
  }
}
