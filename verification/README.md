# A verified model of the Lorenzo staking submitter

The submitter is a relayer. It scans a source chain (Bitcoin or BNB Smart Chain) block by block or window by
window, stores the deposits it finds in a database, and submits each one to the Lorenzo chain. Scanning and
submitting are separate loops over one table; a crash, a lost database write or a lost answer may fall between any
two of their actions. This project states in Dafny what the relayer keeps through all of that, and proves it.

## What is modelled

| file | models |
|---|---|
| `Common.dfy` | options, results, `uint64` arithmetic with Go's wrap-around, the fate of a write (applied, applied but reported as failed, lost), the error strings |
| `KeyValue.dfy` | the `config` table and its decimal numbers (`db/kv.go`) |
| `Table.dfy` | a deposit table: unique keys, the insert transaction, the status update |
| `BtcRepository.dfy`, `BnbRepository.dfy` | the two deposit tables with their queries and sync points |
| `BtcUtils.dfy`, `BlockScan.dfy` | payments, OP_RETURN data, the scan of one Bitcoin block |
| `BtcProtocol.dfy`, `BnbProtocol.dfy` | each relayer as a transition system over table, sync point, memory and the set of minted txids; invariants over all runs |
| `BtcDrain.dfy`, `BnbDrain.dfy` | progress of the submit loops |
| `BtcHistory.dfy`, `BnbHistory.dfy` | what a run sends out and which rows it hinders: submissions with their answers, status writes with their fates; what the handling of a row may send |
| `BtcReachable.dfy`, `BnbReachable.dfy` | concrete runs from a first installation that give up a minted transaction |
| `BtcRelayer.dfy`, `BnbRelayer.dfy` | the loop bodies as methods over real fields, proved to perform only steps of the transition system while the other loop acts between any two of their actions |
| `StakePlan.dfy`, `Hex.dfy` | receipt collection from stake events, conversion to rows, hexadecimal text |
| `Rlp.dfy`, `BnbHeader.dfy`, `HeaderJson.dfy` | RLP (Ethereum Yellow Paper, Appendix B) with a strict decoder, the BNB header encoder, the JSON pair |
| `BlockscoutRefresher.dfy` | the balance refresher |

The transition systems are the specification of the loops. An event is one atomic action (a query, one database
transaction, one submission) together with its outcome, so a run is a sequence of events and "in every run" means
for every sequence the system accepts, with crashes, restarts and other threads anywhere in it. The classes in
`BtcRelayer.dfy` and `BnbRelayer.dfy` keep the run performed so far as a ghost field, which ties every theorem about
runs to the methods. Lorenzo and the repositories log what they receive, and the invariant of the classes says that
these logs are exactly the submissions and status writes of the run, so a method cannot record a submission, an
answer or a lost write that did not happen.

## Assumptions

- Blocks at or below the tip minus the delay never change, and one process runs the relayer.
- `syncPoint + 1 + delay` (Bitcoin) and `syncPoint + delay` (BNB) fit in 64 bits. Every other expression is
  computed with wrap-around and shown not to wrap where that is claimed.
- A submission lands when it is made or never. Success is answered only if it landed. What landed or was minted
  before is never refused except with an error of the retryable class (Bitcoin) or of the duplicate or retryable
  class (BNB); the BNB duplicate error is given only for what is minted.
- `GetTx` answers eventually. Tips, heights, agent lists, receipts and proofs are whatever the queries answer.
- RLP lengths are below 2^64.

## Where the code does not do what one would expect

- The confirmation query subtracts 1 to 4 from an unsigned tip. It means the required depth on every row exactly when
  the tip is at least 4 (`TierQueryIsDepth`).
- A minted txid can end up Invalid. `MintedRejectedIff` and `MintedInvalidIff` say exactly from which states: its row
  already is, or the submit loop already holds it past the record check (Bitcoin) or with its refusal received
  (BNB) when someone else mints it. `MintedRejectedIsReachable` and `MintedInvalidIsReachable` are runs from a first
  installation that get there; `SoleMinterNeverRejectsMinted` and `SoleMinterNeverInvalidatesMinted` exclude it while
  only this relayer mints.
- A two-byte output script `OP_RETURN OP_PUSHDATA1` makes the extraction slice out of range; the result is `Panic`
  exactly when such an output qualifies. The process stops on it: `AbortIff` and `BlockAbortsIff` say for which
  transactions and blocks, `TruncatedScriptAborts` gives them.
- The JSON round trip fails for a header without Difficulty or Number and for an integer that is negative or
  wider than 256 bits (`JsonRoundTrip` gives the exact condition).
- The BNB query for unhandled rows does not mention the chain but the status updates do: a row of another chain never
  leaves the pending state (`ForeignRowNeverMoves`).
- A Bitcoin row can starve: a batch holds the 50 lowest ripe rows, so 50 rows that are hindered in every round (a failed
  query, a retryable answer) keep every higher row out for ever (`StarvedForever`). `NoStarvation` says how many hindered
  rows a row can stand.
- The refresher looks neither at the HTTP status nor at the code of an event answer. An error answer with a JSON body is
  an empty list, and the cursor moves past events that were never refreshed (`ErrorAnswerSkips`); `Round` keeps account
  of the windows missed that way.
- The BNB relayer ignores its configured confirmation depth and uses the constant 15; the delay is a
  parameter of the model.

## Model

| member | source | states |
|---|---|---|
| BtcProtocol.EveryDepositHasOneRow | txrelayer/tx_relayer.go:129-181 | coverage in every run with crashes, lost writes and agent refreshes: each block above the initial sync point up to the current one was committed with some agent list, each deposit its scan returned has exactly one row, no row lies above sync point + 1, every row holds what a scan of its block produced |
| BtcProtocol.FromScanMeans | txrelayer/tx_relayer.go:355-366 | that a row holds what a scan of its block produced means: for some agent list its pending form is a deposit of the block at its height |
| BtcProtocol.StatusesAreOneWay | txrelayer/tx_relayer.go:213-294 | between any two states of a run rows are never removed or rewritten, a status leaves Pending at most once, the sync point never decreases, the minted set only grows, and the start of coverage is fixed |
| BtcProtocol.SuccessIsMinted | txrelayer/tx_relayer.go:213-266 | in every run a row marked Success is minted on Lorenzo, answers lost or not |
| BtcProtocol.MintedRejectedIff | txrelayer/tx_relayer.go:213-266 | a minted txid can still be given up by some continuation if and only if its row already is or the submit loop holds it past the record check |
| BtcProtocol.SoleMinterNeverRejectsMinted | txrelayer/tx_relayer.go:213-266 | while no one else mints, no run ever gives up a minted txid |
| BtcReachable.MintedRejectedIsReachable | txrelayer/tx_relayer.go:213-264 | a run from a first installation ends with a txid both minted and Invalid: it is minted elsewhere after the record check, and then its proof does not parse |
| BtcProtocol.StatusesHaveCauses | txrelayer/tx_relayer.go:213-266 | in every run each status has a deciding event: Success a found record or an accepted submission, Invalid an unparsable proof or a refusal that is not retryable, NotBelongToAgent the lack of both an agent id and a listed agent |
| BtcProtocol.RowsKeepAgents | txrelayer/tx_relayer.go:238-246 | if no agent ever listed has id 0, every row names its agent and none is ever marked NotBelongToAgent |
| BtcProtocol.TryAgainTexts | txrelayer/tx_relayer.go:473-480 | an error is retryable exactly when it contains one of the six texts |
| BtcProtocol.AgentIdIs | txrelayer/tx_relayer.go:238-246 | the row's own id, else the id of the first listed agent with its address, else none |
| BtcProtocol.StepWrites | txrelayer/tx_relayer.go:168-177 | only an insert, a mark, an advance and a first start write the database, each exactly what it says unless it is lost |
| BtcProtocol.EnvironmentIsFree | txrelayer/tx_relayer.go:129-268 | crashes, starts, mints by others, refreshes, every fate of every write, failed queries and every legal answer are always possible |
| BtcProtocol.CrashLosesMemory | txrelayer/tx_relayer.go:44-82 | a crash loses agents, scan position and batch and nothing else |
| BtcProtocol.StepInv | txrelayer/tx_relayer.go:129-294 | every single action, crash, restart and foreign mint keeps the invariant of table, scan position, coverage, batch and minted set |
| BtcProtocol.ExecInv | txrelayer/tx_relayer.go:129-294 | so does every run |
| BtcProtocol.StepBatchOpen | txrelayer/tx_relayer.go:200-266 | whatever happened since the batch was read, every row still in it is pending in the table |
| BtcDrain.NoStarvation | txrelayer/tx_relayer.go:200-266 | over rounds with anything in between (scanning, abandoned rounds, crashes, restarts), a ripe row that is not hindered itself is terminal as soon as 50 a round, less the rows hindered in it, reaches the number of pending rows at or below its height; without hindered rows that is ceil(n/50) rounds |
| BtcDrain.StarvedForever | db/repository.go:74-86 | and it can starve: with 50 ripe rows strictly below it, from any state between batches there is, for every n, a run of n rounds whose batches hold such rows only, all hindered, and that leaves the whole state, the row included, as it was |
| BtcDrain.Starved | db/repository.go:77-80 | with 50 ripe rows strictly below it a row is in no batch |
| BtcDrain.RipeRowsDrain | db/repository.go:74-86 | at a fixed tip, with nothing inserted in or between the rounds and nothing hindered, n ripe rows are all terminal after ceil(n/50) rounds |
| BtcDrain.RoundAdvances | txrelayer/tx_relayer.go:200-266 | one round finishes a given ripe row, or hinders it, or shortens the queue at or below its height by 50 less the rows it hinders |
| BtcDrain.QuietRoundDrains | txrelayer/tx_relayer.go:200-266 | one round without inserts leaves only hindered rows ripe, or shrinks the ripe set by 50 less the hindered rows |
| BtcDrain.RoundEffect | txrelayer/tx_relayer.go:213-266 | after a round every row of its batch is terminal or was hindered, the table only moved forward, and inserted rows lie above the old sync point |
| BtcDrain.ShallowRowStays | db/repository.go:74-86 | a round at a tip leaves every row too shallow for that tip exactly as it was |
| BtcDrain.RoundIsPossible | txrelayer/tx_relayer.go:200-266 | from every state between batches a round that hinders nothing exists at every tip: the loop is never stuck |
| BtcHistory.RoundOfHistory | txrelayer/tx_relayer.go:200-266 | a batch read and what follows it to the end of the batch is a round, and the history tells which rows it hinders |
| BtcHistory.AnswerDecides | txrelayer/tx_relayer.go:254-265 | by the text of the answer: Success without an error, pending and nothing written for the six retryable texts, Invalid for any other |
| BtcHistory.HandlingIsModest | txrelayer/tx_relayer.go:213-265 | the handling of a row sends at most one submission and one write, for that row only, nothing after a failed query, Invalid and NotBelongToAgent only for their reasons |
| BtcRelayer.TxRelayer.Boot | txrelayer/tx_relayer.go:44-82 | a restart sets the sync point to the start height exactly when it reads 0 and the write applies, and succeeds exactly when the read, that write and the agents query do |
| BtcRelayer.OtherEvents | txrelayer/tx_relayer.go:84-100 | whatever the other goroutines do, they leave the scan position and the sync point to the scan loop and the batch and everything sent out to the submit loop, which is all the methods assume of them |
| BtcRelayer.TxRelayer.ScanBlock | txrelayer/tx_relayer.go:129-181 | one iteration only extends the run, moves the sync point by at most one block, and reports success only for a block deep enough whose deposits are all stored; if nothing fails it succeeds or crashes, and it crashes only if the scan of that block panics with an agent list loaded in this run |
| BtcRelayer.TxRelayer.FetchBlock | txrelayer/tx_relayer.go:160-167 | the scan result is the specified deposit list for the agents held; there is none, and the process stops, exactly when that scan panics |
| BtcRelayer.TxRelayer.HandleBlock | txrelayer/tx_relayer.go:160-177 | scan, insert, advance: crashes exactly when the scan panics with the agents held, else succeeds if every write works |
| BtcRelayer.TxRelayer.CommitBlock | txrelayer/tx_relayer.go:168-177 | insert then advance, with other threads in between: the sync point moves only after the deposits are stored |
| BtcRelayer.TxRelayer.Submit | txrelayer/tx_relayer.go:183-268 | one iteration only extends the run; if the batch query succeeds, some event read a batch, each of its rows was handled as specified, exactly that was sent to Lorenzo and the database, and it is a round of the progress theorems hindering exactly the rows with a failed query, a retryable answer or a lost write, reached from the state before; otherwise nothing is sent; the table moves forward and every Success row is minted |
| BtcRelayer.TxRelayer.SubmitTx | txrelayer/tx_relayer.go:213-264 | exactly this row leaves the batch, and what is sent is determined: nothing if a query fails, one Success mark if recorded, one NotBelongToAgent or Invalid mark if it has no agent or its proof does not parse, else one submission and the mark its answer decides |
| BtcRelayer.TxRelayer.CheckRecord | txrelayer/tx_relayer.go:214-223 | a found record leads to the Success mark and means the txid is minted, no record to the submission, a failed query skips the row |
| BtcRelayer.TxRelayer.ResolveAgent | txrelayer/tx_relayer.go:238-246 | the agent is the row's own, or the listed one of its receiver if the row has none; NotBelongToAgent exactly when there is neither |
| BtcRelayer.TxRelayer.CreateTx | txrelayer/tx_relayer.go:248-265 | exactly one submission is sent, with the resolved agent and the txid, and then the mark its answer decides: Success without error, none for a retryable error, Invalid otherwise |
| BtcRelayer.TxRelayer.MarkTx | txrelayer/tx_relayer.go:270-286 | exactly one status write is sent, with the given fate, and unless that is lost every row of the txid has the status afterwards |
| BtcRelayer.Lorenzo.CreateBTCStaking | txrelayer/tx_relayer.go:254-264 | any legal fate: landed or not, answered or not |
| BlockScan.DepositIff | txrelayer/tx_relayer.go:304-368 | a transaction is a deposit if and only if its first output to an agent's address decides it for that agent and neither drop rule applies; the row then holds the txid, the agent, the wrapped sum of all outputs to the address, the height, hash and time of the block, and is pending |
| BlockScan.DepositColumns | txrelayer/tx_relayer.go:355-366 | every column of a deposit row, by the deciding agent, the transaction and the block |
| BlockScan.PaysAgentIff | txrelayer/tx_relayer.go:306-320 | an output pays an agent exactly when its script has the address of a listed agent |
| BlockScan.AbortIff | txrelayer/tx_relayer.go:322-328 | the scan of a transaction panics if and only if an output decides it for an agent without Ethereum address and a qualifying OP_RETURN script is truncated |
| BlockScan.BlockAbortsIff | txrelayer/tx_relayer.go:303-372 | the scan of a block panics if and only if that of one of its transactions does |
| BlockScan.TruncatedScriptAborts | btc/utils.go:46-56 | such a transaction: a payment to the agent beside the two-byte script |
| BlockScan.RowsNameAgents | txrelayer/tx_relayer.go:355-357 | every deposit names an agent of the list |
| BlockScan.DepositsInOrder | txrelayer/tx_relayer.go:300-372 | the list is in block order, at most one deposit per transaction, none invented, none missed |
| BlockScan.BlockRows | txrelayer/tx_relayer.go:355-366 | every deposit of a block is pending and carries its height |
| BlockScan.GetValidDepositTxs | txrelayer/tx_relayer.go:300-372 | the loop returns the specified deposits, or panics exactly when some transaction does |
| BlockScan.ScanTx | txrelayer/tx_relayer.go:304-368 | the labelled-continue body computes the verdict of one transaction |
| BlockScan.ExtractPayment | txrelayer/tx_relayer.go:322-333 | agents without an Ethereum address need OP_RETURN data, the others do not |
| BlockScan.SentByReceiver | txrelayer/tx_relayer.go:336-353 | true exactly when an input address is some agent's receiving address |
| BlockScan.GetAgentByAddress | txrelayer/tx_relayer.go:456-471 | the first agent with the address, if any |
| BlockScan.AgentIsFirst | txrelayer/tx_relayer.go:456-471 | the agent found is the first with the address; none is found exactly if no agent has it |
| BlockScan.OutputIsFirst | txrelayer/tx_relayer.go:305-320 | the output found pays an agent and no earlier one does; none found means none exists |
| BlockScan.IsValidDepositReceiver | txrelayer/tx_relayer.go:374-382 | true exactly when some agent has the address |
| BtcUtils.ExtractPaymentTo | btc/utils.go:15-27 | the payment is the sum of the outputs to the script, modulo 2^64; an invalid address is an error |
| BtcUtils.ExtractPaymentToWithOpReturnId | btc/utils.go:29-66 | the same sum with the data of the last qualifying OP_RETURN output; an error if there is none; a panic exactly when a truncated one qualifies |
| BtcUtils.ExtractionIsUnique | btc/utils.go:29-66 | that description fixes the result |
| BtcUtils.OpReturnBytes | btc/utils.go:41-56 | in bytes: a script of 2 to 83 bytes starting 0x6a qualifies, 0x6a 0x4c alone is truncated, the data starts after two bytes, or three after 0x4c |
| BtcUtils.PaidToReordered | btc/utils.go:20-25 | the payment does not depend on the order of the outputs |
| BtcUtils.PaidByOne | btc/utils.go:20-25 | one output pays its value to its own script and nothing to any other |
| BtcUtils.PaidToSplit | btc/utils.go:20-25 | the payment of outputs in a row is the sum of the payments of the parts |
| BtcUtils.PaymentDoesNotWrap | btc/utils.go:20-25 | nothing wraps while the values are non-negative and their total fits in 64 bits |
| BtcUtils.PayloadRoundTrip | btc/utils.go:41-60 | a payload of 1 to 80 bytes in the sole OP_RETURN output, direct push or OP_PUSHDATA1, comes back unchanged; a longer one exceeds the 83-byte cap and is not found |
| BtcRepository.TierQueryIsDepth | db/repository.go:74-80 | the five-way condition means the required depth on every row if and only if the tip is at least 4 |
| BtcRepository.SelectedIff | db/types.go:5-10 | in numbers: pending, and below 400000 or 1, 2, 3, 4 blocks deep up to 2000000, 10000000, 50000000 and above |
| BtcRepository.SelectedWrapped | db/repository.go:79-79 | below a tip of 4 the bound of the largest amounts wraps to 2^64 minus a few |
| BtcRepository.RipenessIsMonotone | db/repository.go:74-80 | a ripe row stays ripe under every tip increase and every amount decrease |
| BtcRepository.BatchExists | db/repository.go:77-80 | every table has a batch the query may answer: lowest ripe heights first, at most the limit, all of them if fewer |
| BtcRepository.Repository.InsertBtcDepositTxs | db/repository.go:50-72 | the whole union or nothing, keys stay unique, and when it reports success |
| BtcRepository.Repository.GetUnhandledBtcDepositTxs | db/repository.go:74-86 | at most 50 rows, all ripe, by height, and no ripe row left out unless there are 50, none of them higher |
| BtcRepository.Repository.UpdateTxStatus | db/repository.go:88-91 | exactly the rows with the txid get the status, or nothing changes |
| BtcRepository.Repository.UpdateSyncPoint | db/repository.go:42-44 | a later read under the name submitter/btc-sync-point gives the height written, unless the write was lost; no other name is affected |
| BtcRepository.Repository.GetSyncPoint | db/repository.go:46-48 | the last height written, 0 if none |
| Table.InsertIsUnion | db/repository.go:55-71 | the insert keeps every row in place and appends exactly the unknown keys, each once, in list order |
| Table.InsertHas | db/repository.go:55-71 | afterwards a key is present exactly when it was or is listed |
| Table.InsertAddsOnly | db/repository.go:55-71 | existing rows and their statuses are untouched, added rows are listed rows with new keys |
| Table.InsertKeepsUnique | db/repository.go:55-71 | at most one row per key, repeated keys in the list included |
| Table.InsertIdempotent | db/repository.go:55-71 | an insert changes nothing if and only if every listed key is known |
| Table.InsertAppend | db/repository.go:55-71 | inserting two lists in turn is inserting their concatenation |
| Table.InsertOrderIrrelevant | db/bnb_repository.go:25-42 | for lists without repeated keys the order does not matter, row order apart |
| Table.InsertTransaction | db/bnb_repository.go:25-42 | the check-then-create loop computes the union, or nothing if a statement fails |
| KeyValue.StoreRefinesMap | db/kv.go:9-55 | after any sequence of writes, some lost, a read gives the last value written under the name or what it gave before, and each name has at most one row |
| KeyValue.ReadMeans | db/kv.go:37-50 | 0 if no row has the name, otherwise the number in the first row that has it |
| KeyValue.OtherKeysStay | db/kv.go:53-55 | a write leaves every other name alone |
| KeyValue.PutIsMapUpdate | db/kv.go:10-24 | one write is a map update |
| KeyValue.FormatParse | db/kv.go:39-55 | decimal format then parse is the identity on all of uint64, and a larger number is out of range |
| KeyValue.DecimalExamples | db/kv.go:53-55 | the text is decimal, most significant digit first |
| KeyValue.ConfigTable.Set | db/kv.go:10-24 | the update-or-create is that map update, or nothing, and when it reports success |
| KeyValue.ConfigTable.Get | db/kv.go:27-35 | the value of the first row with the name; not found exactly when no row has it |
| KeyValue.LookupFinds | db/kv.go:27-35 | a lookup gives a value if and only if the first row with the name holds it |
| KeyValue.ConfigTable.GetUint64 | db/kv.go:39-50 | the number stored under the name, 0 if there is none |
| KeyValue.ConfigTable.SetUint64 | db/kv.go:53-55 | one write of the replayed history |
| BnbProtocol.WindowIsExact | txrelayer/bnb_txrelayer.go:131-142 | while sync point + delay does not wrap nothing does; there is a window exactly when the tip is more than the delay above the sync point (never on a failed tip query), it starts right above the sync point, has 1 to 1000 blocks, as many as possible, and ends at or below tip - delay |
| BnbProtocol.ErrorTexts | txrelayer/bnb_txrelayer.go:304-312 | an error is retryable exactly when it contains one of three texts, a duplicate exactly when it contains one |
| BnbProtocol.EventsInIff | txrelayer/bnb_txrelayer.go:145-145 | the events of a window are those of its heights and no others |
| BnbProtocol.EnvironmentIsFree | txrelayer/bnb_txrelayer.go:109-256 | crashes, starts, mints by others, every fate of every write and every legal answer are always possible |
| BnbProtocol.EveryEventHasOneRow | txrelayer/bnb_txrelayer.go:121-169 | coverage in every run: the committed windows tile the range from the initial to the current sync point without gap or overlap, and every stake event in it has exactly one row for its transaction |
| BnbProtocol.TilesMean | txrelayer/bnb_txrelayer.go:138-168 | tiling means: a height lies above the initial and at or below the current sync point exactly if it lies in some committed window, never in two, and each window has 1 to 1000 heights and ends at least the delay below its tip |
| BnbProtocol.StatusesAreOneWay | txrelayer/bnb_txrelayer.go:213-277 | rows are never removed or rewritten, a status leaves Pending at most once, the sync point never decreases, the start of coverage is fixed |
| BnbProtocol.StatusesHaveCauses | txrelayer/bnb_txrelayer.go:220-254 | in every run a Success row is minted, an Invalid row was refused with an error neither duplicate nor retryable, and the decode-failure branches are never taken |
| BnbProtocol.MintedInvalidIff | txrelayer/bnb_txrelayer.go:243-254 | a minted txid can still be marked Invalid by some continuation if and only if it already is or its refusal was received and only remains to be written |
| BnbReachable.MintedInvalidIsReachable | txrelayer/bnb_txrelayer.go:243-254 | a run from a first installation ends with a txid both minted and Invalid: it is refused, minted elsewhere, and then the refusal is written |
| BnbProtocol.SoleMinterNeverInvalidatesMinted | txrelayer/bnb_txrelayer.go:243-254 | while no one else mints, no run ever marks a minted txid Invalid |
| BnbHistory.MessageRoundTrip | txrelayer/bnb_txrelayer.go:220-237 | the message built from a stored row is that of the receipt the row was written from, whatever its status since |
| BnbProtocol.WrittenDecodes | txrelayer/bnb_txrelayer.go:279-301 | receipt and proof of every row the scanner writes decode to the bytes that were encoded |
| BnbProtocol.InsertStoresWindow | txrelayer/bnb_txrelayer.go:145-163 | inserting the receipt list of a window stores every event of it |
| BnbProtocol.StepInv | txrelayer/bnb_txrelayer.go:109-277 | every single action, crash and restart keeps the invariant of table, window, tiling, coverage, batch, minted set and refusals |
| BnbProtocol.ExecInv | txrelayer/bnb_txrelayer.go:109-277 | so does every run |
| BnbProtocol.StepStage | txrelayer/bnb_txrelayer.go:243-254 | a status is about to be written only after its cause: minted for Success, refused while unminted for Invalid |
| BnbDrain.TwoRoundsFinish | txrelayer/bnb_txrelayer.go:208-256 | a ripe row is terminal after two rounds with a rising tip that do not hinder it, whatever happens in and between them: inserts, other rounds, crashes, restarts |
| BnbDrain.RoundAdvances | txrelayer/bnb_txrelayer.go:208-256 | one round leaves a ripe row terminal, freshly minted or hindered; one already minted ends terminal unless hindered; no row delays another |
| BnbDrain.HigherRowStays | db/bnb_repository.go:44-53 | a round at a tip leaves every row above the tip exactly as it was |
| BnbDrain.QuietRoundDrains | txrelayer/bnb_txrelayer.go:184-256 | a round without inserts that hinders nothing leaves no ripe row unminted, and no ripe row at all if none was unminted |
| BnbDrain.MeasureDecreases | txrelayer/bnb_txrelayer.go:184-256 | the pair (ripe and unminted, ripe) strictly decreases lexicographically each such round on a non-empty queue |
| BnbDrain.RoundIsPossible | txrelayer/bnb_txrelayer.go:184-256 | from every state between batches such a round exists at every tip |
| BnbHistory.RoundOfHistory | txrelayer/bnb_txrelayer.go:191-204 | a read of the unhandled rows and what follows it to their end is a round, and the history tells which rows it hinders |
| BnbHistory.AnswerDecides | txrelayer/bnb_txrelayer.go:243-254 | by the text of the answer: nothing written without an error, Success for the duplicate text whatever else the error says, nothing for the three retryable texts, Invalid for any other |
| BnbHistory.HandlingIsModest | txrelayer/bnb_txrelayer.go:213-255 | the handling of a row the scanner wrote is one submission of its receipt and at most one write, for that row only |
| BnbDrain.ForeignRowNeverMoves | db/bnb_repository.go:15-53 | a row of another chain is never changed by any run, although the query reads it |
| BnbRelayer.BNBTxRelayer.Boot | txrelayer/bnb_txrelayer.go:63-70 | a restart sets the sync point to the start height exactly when it reads 0 and the write applies |
| BnbRelayer.OtherEvents | txrelayer/bnb_txrelayer.go:95-107 | the same for the two goroutines of the BNB relayer |
| BnbRelayer.BNBTxRelayer.ScanWindow | txrelayer/bnb_txrelayer.go:121-169 | one iteration only extends the run, moves the sync point to the end of the specified window or not at all, reports success only with the whole window stored, and succeeds if nothing fails |
| BnbRelayer.BNBTxRelayer.FetchWindow | txrelayer/bnb_txrelayer.go:145-157 | a list comes back exactly when every event is served, and it is the step that fetches this window |
| BnbRelayer.BNBTxRelayer.CommitWindow | txrelayer/bnb_txrelayer.go:159-168 | insert then advance, with the other loop in between: the sync point moves only after the window is stored |
| BnbRelayer.BNBTxRelayer.Submit | txrelayer/bnb_txrelayer.go:184-205 | one iteration only extends the run; if the query succeeds, some event read the unhandled rows, each was handled as specified, exactly that was sent to Lorenzo and the database, and it is a round of the progress theorems hindering exactly the rows with a retryable answer or a lost write, reached from the state before; otherwise nothing is sent; the table moves forward and every Success row is minted |
| BnbRelayer.BNBTxRelayer.SubmitTx | txrelayer/bnb_txrelayer.go:213-255 | exactly this row leaves the batch, and what is sent is determined: one submission of what it decodes to and the mark the answer decides, or one Invalid mark if it does not decode |
| BnbRelayer.BNBTxRelayer.CreateTx | txrelayer/bnb_txrelayer.go:232-254 | exactly one submission is sent, with block number, receipt and proof, and then the mark its answer decides: none without error, Success for a duplicate, none for a retryable error, Invalid otherwise |
| BnbRelayer.BNBTxRelayer.ScannedAs | txrelayer/bnb_txrelayer.go:220-237 | what the row decodes to is the receipt and proof of a scanned transaction with the row's txid |
| BnbRelayer.BNBTxRelayer.MarkTx | txrelayer/bnb_txrelayer.go:266-277 | exactly one status write is sent, with the given fate, and unless that is lost every row of the txid has the status afterwards |
| BnbRelayer.Lorenzo.CreateBTCBStaking | txrelayer/bnb_txrelayer.go:243-244 | any legal fate of a well-formed submission |
| StakePlan.IterationOrderIrrelevant | bnbclient/stake_plan.go:95-132 | any two iteration orders of the map leave the same rows in the table, row order apart |
| StakePlan.RowsAreUnique | txrelayer/bnb_txrelayer.go:279-302 | the rows have distinct keys and are pending |
| StakePlan.GetReceiptsWithProof | bnbclient/stake_plan.go:87-135 | exactly one entry per distinct transaction, each the receipt with that hash from the block of its last event; an error exactly when some block or proof is not served |
| StakePlan.EntryHolds | bnbclient/stake_plan.go:100-132 | each entry holds a receipt of the block of its last event, the proof of it against all receipts of that block, and the time of that block |
| StakePlan.EntryMissing | bnbclient/stake_plan.go:100-124 | an entry is missing exactly when the block lacks the receipt or the library rejects it |
| StakePlan.BlockOfIsLast | bnbclient/stake_plan.go:95-98 | the block is that of the last event of the transaction |
| StakePlan.RowColumns | txrelayer/bnb_txrelayer.go:290-298 | every column of a row, hashes, receipt and proof decoding to their bytes |
| StakePlan.CollectBlockHashes | bnbclient/stake_plan.go:95-98 | the map holds every event's transaction with the block hash of its last event |
| StakePlan.FetchEntry | bnbclient/stake_plan.go:99-129 | the entry of one transaction, or an error if a query, the search or the proof fails |
| StakePlan.FindReceipt | bnbclient/stake_plan.go:105-111 | what is found is the first receipt with the hash; nothing found means nothing has it |
| StakePlan.ToWrappedBTCDepositTxList | txrelayer/bnb_txrelayer.go:279-302 | one row per entry, in order |
| BnbRepository.UnhandledListExists | db/bnb_repository.go:44-53 | every table has an answer the query may give: all unhandled rows by height |
| BnbRepository.UnhandledListIs | db/bnb_repository.go:44-53 | such an answer holds exactly the pending rows at or below the tip |
| BnbRepository.Repository.InsertWrappedBTCDepositTxs | db/bnb_repository.go:25-42 | the whole union or nothing, keys stay unique, and when it reports success |
| BnbRepository.Repository.GetUnhandledWrappedBTCDepositTxs | db/bnb_repository.go:44-53 | exactly the pending rows at or below the tip, whatever their chain, by height |
| BnbRepository.Repository.Mark | db/bnb_repository.go:15-23 | exactly the rows with this chain and txid get the status, or nothing changes |
| BnbRepository.Repository.UpdateSyncPoint | db/bnb_repository.go:55-57 | a later read under the name submitter/bnb-sync-point gives the height written, unless the write was lost; no other name is affected |
| BnbRepository.Repository.GetSyncPoint | db/bnb_repository.go:59-61 | the last height written, 0 if none |
| Hex.EncodeDecode | txrelayer/bnb_txrelayer.go:220-230 | decoding what hexutil.Encode wrote gives the bytes back |
| Hex.EncodeShape | txrelayer/bnb_txrelayer.go:296-297 | 0x and two lower-case digits a byte, the high one first |
| Hex.DecodeExamples | txrelayer/bnb_txrelayer.go:220-230 | upper-case digits are read too; what is empty, unprefixed, odd or not hexadecimal is an error |
| Hex.NumberExamples | bnbclient/bnbtypes/gen_header_json.go:50-54 | numbers without leading zeros, and the errors of reading them |
| Hex.NumberRoundTrip | bnbclient/bnbtypes/gen_header_json.go:50-54 | a number survives its hexadecimal text exactly when it is non-negative and fits the digit limit |
| BnbHeader.HeaderRoundTrip | bnbclient/bnbtypes/gen_header_rlp.go:11-88 | decoding an encoded header gives its normal form |
| BnbHeader.EncodingIsInjective | bnbclient/bnbtypes/gen_header_rlp.go:11-88 | two headers encode equally if and only if their normal forms agree |
| BnbHeader.DecodedIsCanonical | bnbclient/bnbtypes/gen_header_rlp.go:11-88 | every decodable byte string is the encoding of the header it decodes to, which is in normal form |
| BnbHeader.PreimageIsInjective | bnbclient/bnbtypes/block.go:57-70 | two headers are hashed over the same bytes if and only if both fail to encode or their normal forms agree |
| BnbHeader.EncodeRLP | bnbclient/bnbtypes/gen_header_rlp.go:11-88 | the step-by-step writer yields the RLP list of the 15 required items and the optional ones up to the last present, or an error exactly when an integer is negative |
| BnbHeader.ItemsInOrder | bnbclient/bnbtypes/gen_header_rlp.go:14-42 | which field each of the first 15 items is |
| BnbHeader.ItemSizes | bnbclient/bnbtypes/block.go:24-55 | the sizes of the fixed fields in bytes |
| BnbHeader.OptionalCascade | bnbclient/bnbtypes/gen_header_rlp.go:43-85 | an optional field is written exactly if it or a later one is present; which item it is, and that an absent one is the empty string |
| BnbHeader.HashInput | bnbclient/bnbtypes/block.go:63-70 | the bytes that reach the hash function |
| BnbHeader.WriteRequired | bnbclient/bnbtypes/gen_header_rlp.go:14-42 | the first 15 items in order; fails exactly on a negative Difficulty or Number |
| BnbHeader.WriteOptional | bnbclient/bnbtypes/gen_header_rlp.go:43-64 | the cascade writes all planned optional items; fails exactly on a negative BaseFee |
| Rlp.ListRoundTrip | bnbclient/bnbtypes/gen_header_rlp.go:11-88 | decoding the RLP of any list of strings gives the list back (Yellow Paper, Appendix B) |
| Rlp.ListBytes | bnbclient/bnbtypes/gen_header_rlp.go:13-87 | a list starts with 0xc0 plus its length below 56, else with 0xf7 plus the length of its length (Yellow Paper, Appendix B) |
| Rlp.StringBytes | bnbclient/bnbtypes/gen_header_rlp.go:14-42 | a byte below 0x80 is itself, a string starts with 0x80 plus its length below 56, else with 0xb7 plus the length of its length |
| Rlp.PayloadInOrder | bnbclient/bnbtypes/gen_header_rlp.go:13-86 | the payload is the encodings of the strings in order |
| Rlp.ListIsCanonical | bnbclient/bnbtypes/gen_header_rlp.go:11-88 | the strict decoder accepts nothing but encodings |
| Rlp.BigEndianShape | bnbclient/bnbtypes/gen_header_rlp.go:27-39 | an integer's bytes give it back, have no leading zero, and number at most k exactly below 256^k |
| Rlp.BigEndianExamples | bnbclient/bnbtypes/gen_header_rlp.go:27-39 | base 256, most significant byte first |
| Rlp.BigEndianIsCanonical | bnbclient/bnbtypes/gen_header_rlp.go:27-39 | bytes without a leading zero are those of the integer they denote |
| Rlp.EncoderBuffer.WriteUint64 | bnbclient/bnbtypes/gen_header_rlp.go:37-39 | the three-way writer appends the RLP of the number's bytes |
| Rlp.EncoderBuffer.ListEnd | bnbclient/bnbtypes/gen_header_rlp.go:86-87 | the buffer becomes the encoding of the whole list |
| HeaderJson.JsonRoundTrip | bnbclient/bnbtypes/gen_header_json.go:18-168 | into a fresh header unmarshalling what was marshalled succeeds exactly when Difficulty and Number are present and no big integer is negative or wider than 256 bits, and restores the header with nil Extra made empty |
| HeaderJson.FitsIs256Bits | bnbclient/bnbtypes/gen_header_json.go:50-51 | the big integers that survive are those below 2^256 |
| HeaderJson.RequiredMembers | bnbclient/bnbtypes/gen_header_json.go:95-145 | after a successful call each required field is what its own member says |
| HeaderJson.OtherMembers | bnbclient/bnbtypes/gen_header_json.go:103-166 | each other field is what its own member says, or untouched |
| HeaderJson.JsonKeepsIdentity | bnbclient/bnbtypes/block.go:57-70 | the restored header is hashed over the same bytes |
| HeaderJson.UnmarshalIff | bnbclient/bnbtypes/gen_header_json.go:91-168 | unmarshalling any document succeeds exactly when no member is malformed and no required one is absent or null |
| HeaderJson.MarshalJSON | bnbclient/bnbtypes/gen_header_json.go:42-64 | each member is the hexadecimal text of its own field, null for a nil pointer, the hash included |
| HeaderJson.Receiver.UnmarshalJSON | bnbclient/bnbtypes/gen_header_json.go:68-168 | on success the receiver becomes the overlay the round trip is about; success exactly when that exists; on an error it is untouched or overwritten exactly up to the first required member missing |
| HeaderJson.LeftBehindIsOldOrNew | bnbclient/bnbtypes/gen_header_json.go:91-145 | a failed call never touches the optional fields or Extra, nor the integers while a required hash is missing, nor anything if a member is malformed or the first one is missing |
| HeaderJson.Receiver.SetHashes | bnbclient/bnbtypes/gen_header_json.go:95-121 | the early-return assignments succeed exactly when all required hashes are there, and overwrite exactly the fields before the first missing one |
| HeaderJson.Receiver.SetScalars | bnbclient/bnbtypes/gen_header_json.go:122-145 | the same for integers and Extra |
| BlockscoutRefresher.WindowEndIsMinimum | blockscout/refresher.go:50-77 | the two clamps give the least of start + 1000, Blockscout height + 1 and cursor + 1, above the start |
| BlockscoutRefresher.Refresher.Round | blockscout/refresher.go:42-104 | the cursor moves exactly when the event query answers, to the window end, strictly forward; exactly the listed events are refreshed; every event from the start height to the cursor was refreshed except in windows whose answer was not their listing, half-open and inclusive ranges both allowed |
| BlockscoutRefresher.Refresher.ErrorAnswerSkips | blockscout/refresher.go:193-215 | an answer with a JSON body and no list moves the cursor past an event of the window that was never refreshed |
| BlockscoutRefresher.Refresher.RefreshAll | blockscout/refresher.go:87-101 | after the retry loop every listed event is refreshed |

## Left out

- HTTP, RPC, gRPC and gorm mechanics: queries are parameters, writes have one of three fates, transactions are atomic.
- Keccak, receipt proofs, Merkle block and proof parsing, ABI unpacking, Bitcoin address derivation: parameters of the model; parsing failures are free choices.
- A receipt or proof that cannot be RLP-encoded (txrelayer/bnb_txrelayer.go:282-289): a receipt carries its bytes.
- The LRU caches of bnbclient/client.go.
- Logging, configuration, the command line, shutdown, sleeps: no effect on the modelled state.
- Reorganisations deeper than the delay: the code has no rollback.
- Row ids, creation and update times, column sizes and MySQL collation: keys compare as Go strings.
- The agents list is replaced between the scans of two blocks, not inside one: the code reads it without a lock.
- The retry loop around GetTx inside the block scan: the model takes the answer it eventually gets.
- Pagination of the agents query: the fetched list is a parameter.
- JSON text syntax: a document is its members; member values other than text and null are malformed and not modelled.
- Only one open RLP list: nested lists do not occur in a header.
- Liveness beyond rounds: how often queries fail is not bounded, so progress is stated per round and by the rows it hinders.
- BtcRelayer.TxRelayer.Others: stands for the other goroutines by its contract, which `OtherEvents` justifies; its body does nothing.
- BnbRelayer.BNBTxRelayer.Others: the same for the BNB relayer.
- BlockScan.DepositIff: assumes that addresses and output scripts determine each other.
