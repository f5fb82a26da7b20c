/** Deposit extraction from one Bitcoin block (getValidDepositTxs and its helpers in
    txrelayer/tx_relayer.go). */
module BlockScan {
  import opened Common
  import opened Table
  import opened BtcRepository
  import opened BtcUtils

  datatype Agent = Agent(id: uint64, name: string, btcReceivingAddress: string, ethAddr: string)

  datatype MsgTx = MsgTx(txid: string, outs: seq<TxOut>)

  datatype MsgBlock = MsgBlock(hash: string, timestamp: int, transactions: seq<MsgTx>)

  /** The confirmed part of the Bitcoin chain and the address library, both unchanging:
      the block at a height, the address of an output script (`None` if it does not parse),
      the script paying an address, and the input addresses of a transaction. */
  datatype Chain = Chain(
    block: uint64 -> MsgBlock,
    addressOf: Script -> Option<string>,
    payScript: string -> Option<Script>,
    senders: string -> seq<string>)

  // ---------------------------------------------------------------------------
  // Specification.

  function AgentByAddress(agents: seq<Agent>, addr: string): Option<Agent> {
    if agents == [] then None
    else if agents[0].btcReceivingAddress == addr then Some(agents[0])
    else AgentByAddress(agents[1..], addr)
  }

  ghost predicate IsFirstWith(agents: seq<Agent>, addr: string, agent: Agent) {
    exists i | 0 <= i < |agents| ::
      && agents[i] == agent && agent.btcReceivingAddress == addr
      && forall j | 0 <= j < i :: agents[j].btcReceivingAddress != addr
  }

  /** The agent found is the first with the address; none is found exactly if no agent has it. */
  lemma {:induction false} AgentIsFirst(agents: seq<Agent>, addr: string)
    ensures var r := AgentByAddress(agents, addr);
            && (r.Some? ==> IsFirstWith(agents, addr, r.value))
            && (r.None? <==> forall i | 0 <= i < |agents| :: agents[i].btcReceivingAddress != addr)
  {
    if agents != [] && agents[0].btcReceivingAddress != addr {
      AgentIsFirst(agents[1..], addr);
      assert forall i | 1 <= i < |agents| :: agents[1..][i - 1] == agents[i];
      var r := AgentByAddress(agents, addr);
      if r.Some? {
        var i :| && 0 <= i < |agents[1..]| && agents[1..][i] == r.value
                 && forall j | 0 <= j < i :: agents[1..][j].btcReceivingAddress != addr;
        assert agents[i + 1] == r.value;
        assert forall j | 0 < j < i + 1 :: agents[j] == agents[1..][j - 1];
      }
    }
  }

  predicate IsReceiver(agents: seq<Agent>, addr: string) {
    exists i | 0 <= i < |agents| :: agents[i].btcReceivingAddress == addr
  }

  predicate PaysAgent(c: Chain, agents: seq<Agent>, out: TxOut) {
    var addr := c.addressOf(out.pkScript);
    addr.Some? && AgentByAddress(agents, addr.value).Some?
  }

  function FirstAgentOutput(c: Chain, agents: seq<Agent>, outs: seq<TxOut>, k: nat): (r: Option<nat>)
    requires k <= |outs|
    ensures r.Some? ==> k <= r.value < |outs| && PaysAgent(c, agents, outs[r.value])
    decreases |outs| - k
  {
    if k == |outs| then None
    else if PaysAgent(c, agents, outs[k]) then Some(k)
    else FirstAgentOutput(c, agents, outs, k + 1)
  }

  /** No output before it pays an agent; none is found exactly if none pays. */
  lemma {:induction false} OutputIsFirst(c: Chain, agents: seq<Agent>, outs: seq<TxOut>, k: nat)
    requires k <= |outs|
    ensures var r := FirstAgentOutput(c, agents, outs, k);
            forall j | k <= j < (if r.Some? then r.value else |outs|) :: !PaysAgent(c, agents, outs[j])
    decreases |outs| - k
  {
    if k < |outs| && !PaysAgent(c, agents, outs[k]) {
      OutputIsFirst(c, agents, outs, k + 1);
    }
  }

  /** An agent with an Ethereum address needs no OP_RETURN. */
  function Payment(c: Chain, agent: Agent, addr: string, outs: seq<TxOut>): Extraction {
    match c.payScript(addr)
    case None => InvalidAddress
    case Some(script) =>
      if agent.ethAddr == "" then Extract(outs, script) else Extracted(PaidTo(outs, script) % TWO_64, [])
  }

  predicate FromReceiver(c: Chain, agents: seq<Agent>, txid: string) {
    exists i | 0 <= i < |c.senders(txid)| :: IsReceiver(agents, c.senders(txid)[i])
  }

  datatype Verdict = Deposit(row: BtcRow) | Skip | Abort

  function DepositRow(agent: Agent, amount: uint64, height: uint64, b: MsgBlock, txid: string): BtcRow {
    Row(txid, BtcDeposit(agent.id, agent.name, agent.btcReceivingAddress, amount, height, b.hash, b.timestamp), Pending)
  }

  function TxVerdict(c: Chain, agents: seq<Agent>, height: uint64, b: MsgBlock, tx: MsgTx): Verdict {
    match FirstAgentOutput(c, agents, tx.outs, 0)
    case None => Skip
    case Some(i) =>
      var addr := c.addressOf(tx.outs[i].pkScript).value;
      var agent := AgentByAddress(agents, addr).value;
      var payment := Payment(c, agent, addr, tx.outs);
      if payment.Panic? then Abort
      else if !payment.Extracted? || (agent.ethAddr != "" && FromReceiver(c, agents, tx.txid)) then Skip
      else Deposit(DepositRow(agent, payment.amount, height, b, tx.txid))
  }

  /** The verdicts on the transactions of a block. */
  function Verdicts(c: Chain, agents: seq<Agent>, height: uint64, b: MsgBlock): (vs: seq<Verdict>)
    ensures |vs| == |b.transactions|
    ensures forall t | 0 <= t < |vs| :: vs[t] == TxVerdict(c, agents, height, b, b.transactions[t])
  {
    seq(|b.transactions|, t requires 0 <= t < |b.transactions| => TxVerdict(c, agents, height, b, b.transactions[t]))
  }

  /** At most one deposit per transaction, in block order; `None` if some transaction aborts the scan. */
  function Collect(vs: seq<Verdict>): Option<seq<BtcRow>> {
    if vs == [] then Some([])
    else
      var n := |vs| - 1;
      match Collect(vs[..n])
      case None => None
      case Some(ds) =>
        match vs[n]
        case Abort => None
        case Skip => Some(ds)
        case Deposit(row) => Some(ds + [row])
  }

  function BlockDeposits(c: Chain, agents: seq<Agent>, height: uint64): Option<seq<BtcRow>> {
    Collect(Verdicts(c, agents, height, c.block(height)))
  }

  // ---------------------------------------------------------------------------
  // What the specification says about one transaction and one block.

  /** Addresses and scripts determine each other. */
  ghost predicate AddressesMatchScripts(c: Chain) {
    forall s, a :: c.addressOf(s) == Some(a) <==> c.payScript(a) == Some(s)
  }

  function ReceivedBy(c: Chain, outs: seq<TxOut>, addr: string): int {
    if outs == [] then 0
    else ReceivedBy(c, outs[..|outs| - 1], addr)
         + if c.addressOf(outs[|outs| - 1].pkScript) == Some(addr) then outs[|outs| - 1].value else 0
  }

  lemma {:induction false} ReceivedIsPaid(c: Chain, outs: seq<TxOut>, addr: string)
    requires AddressesMatchScripts(c) && c.payScript(addr).Some?
    ensures ReceivedBy(c, outs, addr) == PaidTo(outs, c.payScript(addr).value)
  {
    if outs != [] {
      ReceivedIsPaid(c, outs[..|outs| - 1], addr);
    }
  }

  /** The output at `i`, the first that pays an agent, alone decides the transaction. */
  ghost predicate Decides(c: Chain, agents: seq<Agent>, tx: MsgTx, i: nat, agent: Agent) {
    && i < |tx.outs|
    && c.addressOf(tx.outs[i].pkScript) == Some(agent.btcReceivingAddress)
    && AgentByAddress(agents, agent.btcReceivingAddress) == Some(agent)
    && forall j | 0 <= j < i :: !PaysAgent(c, agents, tx.outs[j])
  }

  lemma DeciderIsFirst(c: Chain, agents: seq<Agent>, tx: MsgTx, i: nat, agent: Agent)
    requires Decides(c, agents, tx, i, agent)
    ensures FirstAgentOutput(c, agents, tx.outs, 0) == Some(i)
  {
    var first := FirstAgentOutput(c, agents, tx.outs, 0);
    OutputIsFirst(c, agents, tx.outs, 0);
    assert PaysAgent(c, agents, tx.outs[i]);
    assert first.Some? && !(i < first.value) && !(first.value < i);
  }

  lemma FirstDecides(c: Chain, agents: seq<Agent>, tx: MsgTx)
    requires FirstAgentOutput(c, agents, tx.outs, 0).Some?
    ensures var i := FirstAgentOutput(c, agents, tx.outs, 0).value;
            var addr := c.addressOf(tx.outs[i].pkScript).value;
            var agent := AgentByAddress(agents, addr).value;
            Decides(c, agents, tx, i, agent) && agent.btcReceivingAddress == addr && agent in agents
  {
    OutputIsFirst(c, agents, tx.outs, 0);
    AgentIsFirst(agents, c.addressOf(tx.outs[FirstAgentOutput(c, agents, tx.outs, 0).value].pkScript).value);
  }

  /** The row of a deposit to this agent. */
  ghost predicate IsRowOf(c: Chain, agent: Agent, height: uint64, b: MsgBlock, tx: MsgTx, row: BtcRow) {
    row == Row(tx.txid,
               BtcDeposit(agent.id, agent.name, agent.btcReceivingAddress,
                          ReceivedBy(c, tx.outs, agent.btcReceivingAddress) % TWO_64, height, b.hash, b.timestamp),
               Pending)
  }

  /** An agent without Ethereum address needs some OP_RETURN data, and none truncated; one with an Ethereum
      address needs inputs from no receiver. */
  ghost predicate IsKept(c: Chain, agents: seq<Agent>, tx: MsgTx, i: nat, agent: Agent)
    requires i < |tx.outs|
  {
    if agent.ethAddr == ""
    then HasOpReturn(tx.outs, tx.outs[i].pkScript) && !HasTruncated(tx.outs, tx.outs[i].pkScript)
    else forall k | 0 <= k < |c.senders(tx.txid)| :: AgentByAddress(agents, c.senders(tx.txid)[k]).None?
  }

  lemma DecidedDeposit(c: Chain, agents: seq<Agent>, height: uint64, b: MsgBlock, tx: MsgTx, i: nat, agent: Agent,
                       row: BtcRow)
    requires AddressesMatchScripts(c) && Decides(c, agents, tx, i, agent)
    ensures TxVerdict(c, agents, height, b, tx) == Deposit(row) <==>
            IsKept(c, agents, tx, i, agent) && IsRowOf(c, agent, height, b, tx, row)
  {
    DeciderIsFirst(c, agents, tx, i, agent);
    ExtractIs(tx.outs, tx.outs[i].pkScript);
    ReceivedIsPaid(c, tx.outs, agent.btcReceivingAddress);
    SendersAreReceivers(c, agents, tx.txid);
  }

  /** A transaction is a deposit exactly when an output decides it for an agent and it is not
      dropped: an agent without Ethereum address needs some OP_RETURN data (and none truncated),
      one with an Ethereum address needs inputs from no receiver. The deposit names that agent
      and sums, modulo 2^64, every output to the receiving address. */
  lemma DepositIff(c: Chain, agents: seq<Agent>, height: uint64, b: MsgBlock, tx: MsgTx, row: BtcRow)
    requires AddressesMatchScripts(c)
    ensures TxVerdict(c, agents, height, b, tx) == Deposit(row) <==>
            exists i: nat, agent :: && Decides(c, agents, tx, i, agent) && IsKept(c, agents, tx, i, agent)
                                    && IsRowOf(c, agent, height, b, tx, row)
  {
    forall i: nat, agent | Decides(c, agents, tx, i, agent)
      ensures TxVerdict(c, agents, height, b, tx) == Deposit(row) <==>
              IsKept(c, agents, tx, i, agent) && IsRowOf(c, agent, height, b, tx, row)
    {
      DecidedDeposit(c, agents, height, b, tx, i, agent, row);
    }
    if FirstAgentOutput(c, agents, tx.outs, 0).Some? {
      FirstDecides(c, agents, tx);
    }
  }

  lemma SendersAreReceivers(c: Chain, agents: seq<Agent>, txid: string)
    ensures FromReceiver(c, agents, txid) <==>
            exists k | 0 <= k < |c.senders(txid)| :: AgentByAddress(agents, c.senders(txid)[k]).Some?
  {
    forall k | 0 <= k < |c.senders(txid)|
      ensures IsReceiver(agents, c.senders(txid)[k]) <==> AgentByAddress(agents, c.senders(txid)[k]).Some?
    {
      AgentIsFirst(agents, c.senders(txid)[k]);
    }
  }

  /** What a deposit row holds, column by column. */
  lemma DepositColumns(c: Chain, agents: seq<Agent>, height: uint64, b: MsgBlock, tx: MsgTx, row: BtcRow)
    returns (i: nat, agent: Agent)
    requires AddressesMatchScripts(c) && TxVerdict(c, agents, height, b, tx) == Deposit(row)
    ensures Decides(c, agents, tx, i, agent)
    ensures row.key == tx.txid && row.status == Pending
    ensures row.data.height == height && row.data.blockHash == b.hash && row.data.blockTime == b.timestamp
    ensures row.data.agentId == agent.id && row.data.receiverName == agent.name
    ensures row.data.receiverAddress == agent.btcReceivingAddress
    ensures row.data.amount == ReceivedBy(c, tx.outs, agent.btcReceivingAddress) % TWO_64
  {
    i := FirstAgentOutput(c, agents, tx.outs, 0).value;
    agent := AgentByAddress(agents, c.addressOf(tx.outs[i].pkScript).value).value;
    FirstDecides(c, agents, tx);
    ExtractIs(tx.outs, tx.outs[i].pkScript);
    ReceivedIsPaid(c, tx.outs, agent.btcReceivingAddress);
  }

  /** An output pays an agent if its script has an address and some agent receives there. */
  lemma PaysAgentIff(c: Chain, agents: seq<Agent>, out: TxOut)
    ensures PaysAgent(c, agents, out) <==>
            exists k | 0 <= k < |agents| :: c.addressOf(out.pkScript) == Some(agents[k].btcReceivingAddress)
  {
    if c.addressOf(out.pkScript).Some? {
      AgentIsFirst(agents, c.addressOf(out.pkScript).value);
    }
  }

  /** The scan of a transaction panics exactly when an output decides it for an agent without Ethereum
      address and some qualifying OP_RETURN script is truncated after its push opcode. */
  lemma AbortIff(c: Chain, agents: seq<Agent>, height: uint64, b: MsgBlock, tx: MsgTx)
    requires AddressesMatchScripts(c)
    ensures TxVerdict(c, agents, height, b, tx) == Abort <==>
            exists i: nat, agent :: Decides(c, agents, tx, i, agent)
              && agent.ethAddr == "" && HasTruncated(tx.outs, tx.outs[i].pkScript)
  {
    var first := FirstAgentOutput(c, agents, tx.outs, 0);
    forall i: nat, agent | Decides(c, agents, tx, i, agent)
      ensures first == Some(i)
    {
      DeciderIsFirst(c, agents, tx, i, agent);
    }
    if first.Some? {
      FirstDecides(c, agents, tx);
      ExtractIs(tx.outs, tx.outs[first.value].pkScript);
    }
  }

  /** Without agents there is no deposit and no panic. */
  lemma EmptyNeverPanics(c: Chain, height: uint64)
    ensures BlockDeposits(c, [], height).Some?
  {
    var b := c.block(height);
    forall t | 0 <= t < |b.transactions|
      ensures TxVerdict(c, [], height, b, b.transactions[t]) == Skip
    {
      OutputIsFirst(c, [], b.transactions[t].outs, 0);
      assert FirstAgentOutput(c, [], b.transactions[t].outs, 0).None?;
    }
    BlockAbortsIff(c, [], height);
  }

  /** The scan of a block panics exactly when the scan of one of its transactions does. */
  lemma BlockAbortsIff(c: Chain, agents: seq<Agent>, height: uint64)
    ensures var b := c.block(height);
            BlockDeposits(c, agents, height).None? <==>
            exists t | 0 <= t < |b.transactions| :: TxVerdict(c, agents, height, b, b.transactions[t]) == Abort
  {
    var vs := Verdicts(c, agents, height, c.block(height));
    CollectAborts(vs);
    if Collect(vs).None? {
      var t :| 0 <= t < |vs| && vs[t] == Abort;
      assert vs[t] == TxVerdict(c, agents, height, c.block(height), c.block(height).transactions[t]);
    }
  }

  lemma {:induction false} CollectAborts(vs: seq<Verdict>)
    ensures Collect(vs).None? <==> exists t | 0 <= t < |vs| :: vs[t] == Abort
  {
    if vs != [] {
      var n := |vs| - 1;
      CollectAborts(vs[..n]);
      assert forall t | 0 <= t < n :: vs[..n][t] == vs[t];
    }
  }

  /** Such a transaction: it pays an agent without Ethereum address and carries the two-byte script. */
  lemma TruncatedScriptAborts(c: Chain, agent: Agent, pay: Script, value: int64, txid: string,
                              height: uint64, b: MsgBlock)
    requires c.addressOf(pay) == Some(agent.btcReceivingAddress) && c.payScript(agent.btcReceivingAddress) == Some(pay)
    requires agent.ethAddr == "" && pay != [OP_RETURN, OP_PUSHDATA1]
    ensures var outs := [TxOut(value, pay), TxOut(0, [OP_RETURN, OP_PUSHDATA1])];
            TxVerdict(c, [agent], height, b, MsgTx(txid, outs)) == Abort
  {
    var outs := [TxOut(value, pay), TxOut(0, [OP_RETURN, OP_PUSHDATA1])];
    assert PaysAgent(c, [agent], outs[0]);
    assert FirstAgentOutput(c, [agent], outs, 0) == Some(0);
    assert Qualifies(outs, pay, 1) && Truncated(outs[1].pkScript);
    ExtractIs(outs, pay);
  }

  /** `source[i]` is the position of the transaction behind deposit `i`: positions increase, and
      every transaction among the first `n` that is not skipped has a deposit. */
  ghost predicate InBlockOrder(vs: seq<Verdict>, n: nat, ds: seq<BtcRow>, source: seq<nat>)
    requires n <= |vs|
  {
    && |source| == |ds|
    && (forall i | 0 <= i < |ds| :: source[i] < n && vs[source[i]] == Deposit(ds[i]))
    && (forall i, j | 0 <= i < j < |ds| :: source[i] < source[j])
    && (forall k | 0 <= k < n :: vs[k] != Skip ==> k in source)
  }

  lemma OrderExtends(vs: seq<Verdict>, n: nat, ds: seq<BtcRow>, source: seq<nat>, row: BtcRow)
    requires n < |vs| && InBlockOrder(vs, n, ds, source) && vs[n] == Deposit(row)
    ensures InBlockOrder(vs, n + 1, ds + [row], source + [n])
  {
    var extended := source + [n];
    assert extended[|source|] == n;
    assert forall k | k in source :: k in extended;
  }

  lemma {:induction false} CollectInOrder(vs: seq<Verdict>, n: nat) returns (source: seq<nat>)
    requires n <= |vs| && Collect(vs[..n]).Some?
    ensures InBlockOrder(vs, n, Collect(vs[..n]).value, source)
  {
    if n == 0 {
      source := [];
    } else {
      assert vs[..n][..n - 1] == vs[..n - 1];
      var before := CollectInOrder(vs, n - 1);
      if vs[n - 1].Deposit? {
        OrderExtends(vs, n - 1, Collect(vs[..n - 1]).value, before, vs[n - 1].row);
        source := before + [n - 1];
      } else {
        source := before;
      }
    }
  }

  /** The deposits of a block are those of its transactions, in block order. */
  lemma DepositsInOrder(c: Chain, agents: seq<Agent>, height: uint64) returns (source: seq<nat>)
    requires BlockDeposits(c, agents, height).Some?
    ensures var vs := Verdicts(c, agents, height, c.block(height));
            InBlockOrder(vs, |vs|, BlockDeposits(c, agents, height).value, source)
  {
    var vs := Verdicts(c, agents, height, c.block(height));
    assert vs[..|vs|] == vs;
    source := CollectInOrder(vs, |vs|);
  }

  /** Rows of a block are pending and carry its height. */
  lemma BlockRows(c: Chain, agents: seq<Agent>, height: uint64)
    requires BlockDeposits(c, agents, height).Some?
    ensures var ds := BlockDeposits(c, agents, height).value;
            AllPending(ds) && forall i | 0 <= i < |ds| :: ds[i].data.height == height
  {
    var source := DepositsInOrder(c, agents, height);
  }

  ghost predicate NamesAgent(agents: seq<Agent>, row: BtcRow) {
    exists i | 0 <= i < |agents| :: agents[i].id == row.data.agentId
  }

  /** Every row names a listed agent. */
  lemma RowsNameAgents(c: Chain, agents: seq<Agent>, height: uint64)
    requires BlockDeposits(c, agents, height).Some?
    ensures var ds := BlockDeposits(c, agents, height).value; forall i | 0 <= i < |ds| :: NamesAgent(agents, ds[i])
  {
    var b, ds := c.block(height), BlockDeposits(c, agents, height).value;
    var source := DepositsInOrder(c, agents, height);
    forall i | 0 <= i < |ds|
      ensures NamesAgent(agents, ds[i])
    {
      VerdictNamesAgent(c, agents, height, b, b.transactions[source[i]], ds[i]);
    }
  }

  lemma VerdictNamesAgent(c: Chain, agents: seq<Agent>, height: uint64, b: MsgBlock, tx: MsgTx, row: BtcRow)
    requires TxVerdict(c, agents, height, b, tx) == Deposit(row)
    ensures NamesAgent(agents, row)
  {
    FirstDecides(c, agents, tx);
  }

  // ---------------------------------------------------------------------------
  // The loops.

  method GetAgentByAddress(agents: seq<Agent>, addr: string) returns (agent: Option<Agent>)
    ensures agent == AgentByAddress(agents, addr)
  {
    for i := 0 to |agents|
      invariant AgentByAddress(agents, addr) == AgentByAddress(agents[i..], addr)
    {
      if agents[i].btcReceivingAddress == addr {
        return Some(agents[i]);
      }
    }
    agent := None;
  }

  method IsValidDepositReceiver(agents: seq<Agent>, addr: string) returns (r: bool)
    ensures r == IsReceiver(agents, addr)
    ensures r <==> exists i | 0 <= i < |agents| :: agents[i].btcReceivingAddress == addr
  {
    for i := 0 to |agents|
      invariant forall j | 0 <= j < i :: agents[j].btcReceivingAddress != addr
    {
      if agents[i].btcReceivingAddress == addr {
        return true;
      }
    }
    r := false;
  }

  /** The input check, on the answer GetTx eventually gives. */
  method SentByReceiver(c: Chain, agents: seq<Agent>, txid: string) returns (r: bool)
    ensures r == FromReceiver(c, agents, txid)
    ensures r <==> exists k, i | 0 <= k < |c.senders(txid)| && 0 <= i < |agents| ::
                     c.senders(txid)[k] == agents[i].btcReceivingAddress
  {
    var vins := c.senders(txid);
    for i := 0 to |vins|
      invariant forall j | 0 <= j < i :: !IsReceiver(agents, vins[j])
    {
      var valid := IsValidDepositReceiver(agents, vins[i]);
      if valid {
        return true;
      }
    }
    r := false;
  }

  /** Lines 322 to 328 of the scan: which of the two extractions applies. */
  method ExtractPayment(c: Chain, agent: Agent, addr: string, tx: MsgTx) returns (value: Extraction)
    ensures value == Payment(c, agent, addr, tx.outs)
  {
    var payScript := c.payScript(addr);
    if agent.ethAddr == "" {
      value := ExtractPaymentToWithOpReturnId(tx.outs, payScript);
      if payScript.Some? {
        ExtractIs(tx.outs, payScript.value);
        ExtractionIsUnique(tx.outs, payScript.value, value, Extract(tx.outs, payScript.value));
      }
    } else {
      value := ExtractPaymentTo(tx.outs, payScript);
    }
  }

  /** The body of MainLoop; its `continue MainLoop` without a deposit is `Skip`, with one is `Deposit`. */
  method ScanTx(c: Chain, agents: seq<Agent>, height: uint64, msgBlock: MsgBlock, tx: MsgTx) returns (r: Verdict)
    ensures r == TxVerdict(c, agents, height, msgBlock, tx)
  {
    for k := 0 to |tx.outs|
      invariant FirstAgentOutput(c, agents, tx.outs, 0) == FirstAgentOutput(c, agents, tx.outs, k)
    {
      var receiverAddr := c.addressOf(tx.outs[k].pkScript);
      if receiverAddr.None? {
        continue;
      }
      var agent := GetAgentByAddress(agents, receiverAddr.value);
      if agent.None? {
        continue;
      }
      var value := ExtractPayment(c, agent.value, receiverAddr.value, tx);
      if value.Panic? {
        return Abort;
      }
      if !value.Extracted? {
        return Skip;
      }
      if agent.value.ethAddr != "" {
        var fromReceiver := SentByReceiver(c, agents, tx.txid);
        if fromReceiver {
          return Skip;
        }
      }
      return Deposit(DepositRow(agent.value, value.amount, height, msgBlock, tx.txid));
    }
    r := Skip;
  }

  method GetValidDepositTxs(c: Chain, agents: seq<Agent>, height: uint64) returns (r: Option<seq<BtcRow>>)
    ensures r == BlockDeposits(c, agents, height)
  {
    var msgBlock := c.block(height);
    var txs := msgBlock.transactions;
    var depositTxs: seq<BtcRow> := [];
    ghost var vs := Verdicts(c, agents, height, msgBlock);
    for t := 0 to |txs|
      invariant Collect(vs[..t]) == Some(depositTxs)
    {
      assert vs[..t + 1][..t] == vs[..t];
      var verdict := ScanTx(c, agents, height, msgBlock, txs[t]);
      match verdict
      case Abort =>
        CollectAborts(vs);
        return None;
      case Skip =>
      case Deposit(row) =>
        depositTxs := depositTxs + [row];
    }
    assert vs[..|vs|] == vs;
    r := Some(depositTxs);
  }
}
