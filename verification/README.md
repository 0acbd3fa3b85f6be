# Verification of the block indexer

A Dafny model of the indexer's core, with proofs of what it promises: the ordered concurrent block pipeline
(`syncRange`), the buffered transactional PostgreSQL sink with its progress row, resuming after a crash, the
pool of decode workers, the token bucket, batched INSERTs, range partitions, the event index, base64 text
detection and key-case conversion.

`dafny verify dfyconfig.toml` checks everything.

## How it is laid out

| module | about |
|---|---|
| `Blocks`, `Sequences` | shared values, concatenation and filtering of sequences |
| `Pipeline` | `syncRange` as a step machine: one event per stretch of code between two `await`s |
| `PipelineInvariant`, `PipelineTheorems` | its invariant under every interleaving, and what follows |
| `PipelineRunner` | the closures over their shared variables, each proved to be its event of the machine |
| `Batch` | `makeMultiInsert`, `execBatchedInsert` |
| `Database` | tables keyed by conflict columns, DO NOTHING and DO UPDATE, and statements that NOT NULL, CHECK and UNIQUE constraints may reject |
| `Parsing`, `JsonText`, `Derivation` | coins, attributes and logs of a transaction; texts that are JSON; the transfers, staking and contract rows that messages and events yield |
| `Extraction`, `Persistence` | rows of a block, table-by-table flushing against block-by-block inserting |
| `ReadBack` | what each table holds of a block, in terms of the fields of its transactions, messages and events |
| `Acceptance`, `FieldConstraints` | which blocks the constraints accept, and what they ask of messages and events |
| `Sink` | the class `PostgresSink`: where a flush stops, and what it leaves |
| `Recovery`, `RecoveryInvariant`, `RecoverySteps`, `RecoveryTheorems` | pipeline, sink and database composed, over any number of process lives |
| `FlushRuns`, `FlushTheorems`, `Liveness` | runs that take a flush to its COMMIT, also the final one; pipeline and sink do not lock up |
| `ExplicitStart` | processes that are told where to start |
| `Follow` | start of a run, follow loop, progress table |
| `EventIndex` | `core.events` and `core.event_attrs` |
| `TxPool`, `TxPoolTheorems` | the decode pool as a step machine and as a class |
| `RateLimit`, `RateTheorems` | the token bucket, and which of its callers keep the rate |
| `Partitions` | both creators of range partitions |
| `Base64`, `Utf8`, `EventText` | the base64 validator and text detection |
| `KeyCase` | key-case conversion |

The main results are `RecoveryTheorems.CrashRecovery` and `RecoveryTheorems.CrashesLeaveNoTrace`: they range
over every sequence of process lives, each with any interleaving of fetches, failures, retries, suspended
writes and flush stages, killed at any point, and each with its own thresholds, concurrency and retries. They
rest on `PipelineInvariant.NextInv` (the pipeline), `Persistence.FlushIsBlockwise` (the sink) and `RecoverySteps.WorldNextInv` (their composition). For processes
that are told where to start, `RecoveryTheorems.RestartsLeaveNoTrace` says what is stored, and
`ExplicitStart.ExplicitStartIff` what becomes of the progress row. `FlushTheorems.FinalFlushStores` is the other
half of safety: what a finished range has written does get stored. What "stored" means, column by column, is in
`ReadBack` and `EventIndex.RawLogReadBack`.

A failed write or flush is modelled as fail-stop: the rejection is not handled and the process ends, so what
was not committed is lost and the next run resumes. Fetching, decoding and assembling a block is one
nondeterministic success or failure that, on success, yields the block of the requested height; a timeout is
such a failure. The clock of the token bucket, the heights shown by a poll, the split of rows into statements
inside a flush, random job ids and worker outcomes are parameters.

## Where code and documentation disagree

The model follows the code.

* `src/sink/postgres.ts:652` promises that buffers stay intact when the transaction fails. Each array is
  emptied right after its own table, before COMMIT. `Sink.BuffersIntactIff`: after a failed flush they are
  intact if and only if the failure comes before `core.blocks` is done: the connection breaks until then
  (`fault == 0`, which stands for connecting, partition creation and BEGIN as well), or that table refuses one
  of the buffered blocks. `Sink.BuffersLost` is a block that a break at the second table loses.
* `src/sink/pg/batch.ts:84` takes a string in a JSONB column for JSON text. The dynamic decoder gives the
  bytes of a contract call as base64 text (`src/decode/dynamicProto.ts:105`), and the base64 form of a JSON
  object is no JSON text. A block with such a call is refused by `wasm.executions`, and the run gets no
  further: `Acceptance.EncodedCallRefused`.
* The block at height 1 has no commit signatures, so `src/sink/postgres.ts:249` gives it a null
  `proposer_address`, which `initdb/010-indexer-schema.sql:50` forbids. Every flush that holds it stops at
  `core.blocks`: `Sink.FirstBlockStopsFlush`. `Acceptance.FreshAcceptedIff` says which blocks are accepted, and
  `RecoveryTheorems.IncompleteBlockStopsRun` that a run gets no further with one that is not.
* `syncRange` promises to resolve with the number of processed heights. On an empty range, such as a resumed
  run that is already at its end height, nothing is spawned and the promise stays pending.
  `PipelineTheorems.ResolvesIff`: it resolves if and only if the range is not empty and the concurrency is at
  least one.
* `--from` without resuming may start below the recorded height, and `last_height` then goes down.
  `ExplicitStart.ExplicitStartIff`: every continuation of a process life that starts at `f` keeps `last_height`
  from falling if and only if `f` is not below it; `ExplicitStart.ProgressFalls` is a run in which it falls.
  `Recovery.ContinuesIff` says when a run continues right behind the recorded height; the crash-recovery
  theorems are about runs that do, and `RecoveryTheorems.ProgressNeverDecreases` about those that do not start
  below it.
* `execBatchedInsert` says it honours the limits it is given. With a row limit below one, or more columns than
  parameters, its loop repeats forever on an empty slice: `Batch.AdvancesIff`. No flusher does this
  (`Acceptance.Shape`).
* `persistBlockAtomic` never writes the progress row, and it inserts delegation rows without the flusher's
  filter: `Sink.PostgresSink.PersistBlockAtomic`.
* The pool is meant to keep its workers. After an `error` event every worker that was running a job, also a
  healthy one, is out of the idle queue for good: `TxPoolTheorems.ConservationIff`, with a run of four events
  in `TxPoolTheorems.ErrorLosesWorker`.
* The token bucket is meant to bound the rate. Overlapping `take` calls each wait for their own deficit only
  and are granted together, in any number, also from a full bucket on: `RateLimit.OverlapBreaksEnvelope`. A
  `take` above the capacity is granted although the tokens are not there: `RateLimit.ClipsIff`.
  `RateTheorems.KeepsRateIff`: callers that let fewer than `k` takes wait and ask for at most `m` tokens keep
  the bound in every window of every run if and only if `k == 1` and `m` is at most the capacity (or nothing
  is taken at all).
* `tryB64ToUtf8` drops a leading byte order mark, so its result may not encode to its input:
  `EventText.RecoveredIff`.
* `initdb/030-util-partitions.sql` has a version of `ensure_next_height_partition` that does not move its
  bound when the partition exists; the bootstrap loop of `initdb/040-bootstrap-partitions.sql` would not end
  with it: `Partitions.FirstVersionStuckIff`. The script replaces the function before it runs the loop.

## Model

| member | source | states |
|---|---|---|
| PipelineInvariant.NextInv | src/runner/syncRange.ts:147-231 | every event keeps the invariant: no spawned height is lost or in two places, `ready` holds what is settled and not yet flushed, at most one write is outstanding, the writes are those of the sequential loop, attempts match failures, somebody is left to go on |
| PipelineTheorems.RefinesSequentialLoop | src/runner/syncRange.ts:147-209 | in every reachable state the blocks handed to the sink are those of the loop `for h = from..`, strictly ascending, each settled block once, with no gap but the given-up heights |
| PipelineTheorems.MutualExclusion | src/runner/syncRange.ts:147-168 | two outstanding writes are the same one, of the block at `nextToFlush`, which is no longer in `ready`: no lock is needed |
| PipelineTheorems.HeightConservation | src/runner/syncRange.ts:137-231 | each height of the range is in exactly one of unspawned, in flight, queued for retry, ready, being written, flushed; `inFlight` counts the running calls and stays within the concurrency |
| PipelineTheorems.GivenUpIffExhausted | src/runner/syncRange.ts:196-205 | a height is given up exactly when it has failed once more often than it may be retried, and is never processed more often than that |
| PipelineTheorems.TotalCalls | src/runner/syncRange.ts:199-227 | the calls of processHeight are at most (to - from + 1) * (maxBlockRetries + 1) |
| PipelineTheorems.NextRank | src/runner/syncRange.ts:147-231 | every event lowers a bounded measure |
| PipelineTheorems.Termination | src/runner/syncRange.ts:214-231 | every interleaving ends; its length is bounded by range and retries |
| PipelineTheorems.DeadlockFree | src/runner/syncRange.ts:214-231 | while a non-empty range is unresolved some event can happen, and a scheduled spawn that is the only one does spawn |
| PipelineTheorems.CompleteWhenResolved | src/runner/syncRange.ts:206-234 | when the promise has resolved, nothing is running, ready or queued, all heights are settled, processed is to - from + 1, and all writes of the sequential loop are done; it has resolved once |
| PipelineTheorems.NothingAfterResolve | src/runner/syncRange.ts:219-226 | after that nothing is fetched, written or resolved again |
| PipelineTheorems.ResolvesIff | src/runner/syncRange.ts:214-231 | all maximal runs resolve if and only if the range is not empty and the concurrency is at least one |
| PipelineTheorems.SpawnFills | src/runner/syncRange.ts:215-227 | maybeSpawn leaves no slot free while a height can be started |
| PipelineTheorems.SpawnsInOrder | src/runner/syncRange.ts:215-227 | what it starts is the front of the retry queue, in its order, and then the next fresh heights, these only behind the whole queue |
| PipelineTheorems.InitStarts | src/runner/syncRange.ts:214-229 | a range begins with exactly its first min(concurrency, to - from + 1) heights |
| PipelineTheorems.ConcurrencyIsUsed | src/runner/syncRange.ts:214-231 | in every run, while all running calls fetch and no spawn is scheduled, all slots are filled that can be |
| PipelineRunner.RangeSync.constructor | src/runner/syncRange.ts:137-138 | the variables are set up and the first spawns made as in the model |
| PipelineRunner.RangeSync.MaybeSpawn | src/runner/syncRange.ts:215-229 | behind the loop no slot is free or no height is left to start; it has started queued retries, oldest first, and then fresh heights in ascending order, and it is the spawn loop of the model |
| PipelineRunner.RangeSync.TryFlush | src/runner/syncRange.ts:147-168 | the flush loop up to its first suspended write; an entry leaves `ready` before anything is awaited |
| PipelineRunner.RangeSync.OnFetched | src/runner/syncRange.ts:181-208 | a settled fetch is one event of the model |
| PipelineRunner.RangeSync.OnFailed | src/runner/syncRange.ts:196-208 | a failed fetch is one event of the model: retried or given up, then flushed |
| PipelineRunner.RangeSync.OnWritten | src/runner/syncRange.ts:162-166 | a completed write is one event of the model: counted, then the flush loop goes on |
| PipelineRunner.RangeSync.OnFinished | src/runner/syncRange.ts:219-226 | the end of a call is one event of the model: resolve or schedule a spawn |
| Batch.MakeMultiInsert | src/sink/pg/batch.ts:26-41 | placeholder i * columns + j + 1 carries the cast and value of row i, column j; missing cells are null |
| Batch.ExecBatchedInsert | src/sink/pg/batch.ts:99-121 | the slices concatenate to the rows, none is empty or over a limit, and there are ceil(n / min(maxRows, floor(maxParams / columns))) of them |
| Batch.GatherRows | src/sink/pg/batch.ts:100-107 | the inner loop gathers as many rows as both limits allow |
| Batch.AdvancesIff | src/sink/pg/batch.ts:99-120 | the outer loop advances if and only if a row fits within both limits |
| Batch.StatementsIsCeil | src/sink/pg/batch.ts:99-121 | taking as many rows as possible each time needs the rounded-up quotient of statements |
| Batch.SameSliceIff | src/sink/pg/batch.ts:99-121 | two rows go into one statement if and only if their positions have the same quotient by the row limit |
| Database.ApplyAllByKey | src/sink/pg/flushers/txs.ts:34-42 | rows may be applied in any order that keeps the order of the rows of each key, in DO UPDATE tables too |
| Database.ReapplyingChangesNothing | src/sink/pg/flushers/txs.ts:34-42 | applying rows that are stored already changes nothing |
| Database.FirstRowButLastGas | src/sink/pg/flushers/txs.ts:34-42 | of several rows for one key the first is stored, but for gas_used and log_summary of a transaction, which are those of the last |
| Database.StatementsApplyAll | src/sink/pg/batch.ts:99-121 | however rows are split into statements, if these succeed they have applied the rows in order |
| Database.StatementsIff | initdb/010-indexer-schema.sql:45-152 | statements go through if and only if none names a transaction twice, every row satisfies its NOT NULL, CHECK and JSONB constraints, and in the end no two transactions of a height share an index; the split matters for the first only |
| Parsing.ParseCoinIff | src/sink/pg/parsing.ts:157-162 | a text is parsed as a coin if and only if it is digits followed by a denomination, and there is one way only to split it |
| Derivation.TransferIff | src/sink/postgres.ts:356-372 | a transfer row is made exactly from a transfer event with a sender, a recipient and an amount written as digits and denomination |
| Derivation.EventComesFirst | src/sink/postgres.ts:374-438 | a delegation event gives one row, which takes delegator, validators and coin that the event names |
| Derivation.MessageFillsIn | src/sink/postgres.ts:392-438 | what it does not name comes from the event's own message only, and the delegator otherwise from the first signer |
| Derivation.MessageIsUsed | src/sink/postgres.ts:392-422 | an event without delegator or coin gets those that its own message has |
| Derivation.MessageValidators | src/sink/postgres.ts:398-407 | a redelegation without validators gets those of its message, other delegations the validator of their message as target |
| Derivation.ValidatorIsTarget | src/sink/postgres.ts:398-434 | a delegation without a target has its validator as target, unless its message is a redelegation |
| Derivation.FirstSignerIs | src/sink/pg/parsing.ts:129-148 | the first signer is the first of the transaction's own list, else what the first message that names one has in the first of ten fields with a text of ten characters |
| Extraction.ExtractRows | src/sink/postgres.ts:240-521 | the nested loops fill every array with the rows of its table, in order of transactions, messages, logs, events and attributes; transfers, staking and contract rows are computed from the messages and events |
| Extraction.BlockTableOrigin | src/sink/postgres.ts:240-521 | every extracted row goes to its own table and, but for the block's row, carries the hash (and height) of a transaction of the block |
| ReadBack.BlockReadBack | src/sink/postgres.ts:244-256 | the stored block row has the block's own hash, time, proposer, header and number of transactions |
| ReadBack.TxReadBack | src/sink/postgres.ts:274-305 | the stored transaction row has the transaction's own index, code, gas, log and body, and the time of its block |
| ReadBack.MsgReadBack | src/sink/postgres.ts:308-318 | the stored message row has the message, and as signer the first present of signer, from_address and delegator_address |
| ReadBack.ExecutionReadBack | src/sink/postgres.ts:320-337 | an execution is stored for exactly the contract calls, with the fields of the message and the outcome of the transaction |
| ReadBack.TransferReadBack | src/sink/postgres.ts:356-372 | of the transfers of a message between the same accounts in one denomination the first is stored, with its amount |
| ReadBack.FullDelegationStored | src/sink/pg/flushers/stake_deleg.ts:19-22 | a derived delegation with delegator, denomination, amount and event type is never lost |
| ReadBack.DelegationReadBack | src/sink/pg/flushers/stake_deleg.ts:19-38 | what is stored for a message is the first such delegation |
| ReadBack.NoDelegation | src/sink/pg/flushers/stake_deleg.ts:19-22 | nothing is stored for a message without one |
| ReadBack.DelegationEventReadBack | src/sink/postgres.ts:374-438 | the first delegation event of a message, of any of the four types, is stored if it names delegator and amount, with the fields it names |
| ReadBack.DistributionReadBack | src/sink/postgres.ts:440-464 | the first distribution event of a message is stored, of any of the three types, with the fields it names and its coin |
| ReadBack.NoDistribution | src/sink/postgres.ts:440-464 | without one, nothing is stored |
| ReadBack.WasmReadBack | src/sink/postgres.ts:466-478 | the first event of a message that a contract has emitted is stored, with its contract and all its attributes |
| Persistence.FlushIsBlockwise | src/sink/postgres.ts:734-761 | emptying the buffers table by table leaves the database that inserting the blocks one by one leaves |
| Persistence.NoPartialBlocks | src/sink/postgres.ts:732-765 | whatever is stored belongs to a block whose own row, and whose transaction's row, are stored too |
| Persistence.StoredHeights | src/sink/postgres.ts:732-765 | the stored block heights are exactly those of the persisted blocks |
| Persistence.ReindexingChangesNothing | src/sink/postgres.ts:532-569 | indexing stored blocks again leaves the database as it is |
| Persistence.SameBlocksSameDb | src/sink/postgres.ts:532-569 | order and repetition do not matter: two lists of the same blocks of one chain leave the same database |
| Acceptance.TableAcceptedIff | initdb/010-indexer-schema.sql:45-248 | the statements of a table go through, behind those of the tables before it, if and only if every buffered block is complete for the table and, for transactions, none is repeated in a statement and the positions stay unique |
| Acceptance.FreshAcceptedIff | initdb/010-indexer-schema.sql:45-248 | blocks of new heights, each with different transaction hashes, are accepted if and only if each block by itself has all required columns, JSON text where a string goes into a JSONB column, address lengths within their check and different transaction indexes |
| Acceptance.FirstBlockRejected | src/sink/postgres.ts:249 | a block without commit signatures, as at height 1, is refused by core.blocks in whatever company |
| Acceptance.EncodedCallRefused | src/sink/pg/batch.ts:79-85 | a contract call whose message is the base64 text of bytes that begin with a brace makes wasm.executions refuse its block, in whatever company |
| FieldConstraints.TransfersAcceptedIff | initdb/010-indexer-schema.sql:246-248 | bank.transfers accepts a block if and only if both addresses of all its transfers have ten to 128 characters |
| FieldConstraints.CallsAcceptedIff | initdb/010-indexer-schema.sql:510-523 | wasm.executions accepts a block if and only if each contract call names its contract, has a message, and its texts for JSONB columns are JSON |
| JsonText.PrintedIsJson | src/sink/pg/batch.ts:86-92 | what JSON.stringify writes for a value, nested and escaped as it may be, is JSON text that a JSONB column takes (sections 2 to 7 of RFC 8259) |
| Sink.PostgresSink.FlushAll | src/sink/postgres.ts:654-778 | the flush stops at the first step at which the connection breaks or the table refuses the buffered blocks, and only there; if at none, the committed database is the block-by-block one, in one transaction with the progress row; else database and progress are untouched, exactly the arrays before the failing table are empty, and the buffers are intact if and only if it failed before core.blocks was done |
| Sink.PostgresSink.FlushTable | src/sink/pg/flushers/stake_deleg.ts:1-45 | a flusher applies its filtered rows in order, in the statements of its own limits; it fails if and only if one of these repeats a transaction, a row breaks a NOT NULL, CHECK or JSONB constraint, or two transactions share a position |
| Sink.PostgresSink.PersistBlockBuffered | src/sink/postgres.ts:577-646 | the block is added to the buffered ones, and if and only if they then reach the threshold of some table a flush of all of them starts, which stops at the first failing step or commits them together with their greatest height as progress, the height of the new block if it is above the others |
| Sink.NeedFlushIff | src/sink/postgres.ts:610-623 | the check over the arrays asks for a flush if and only if the buffered blocks reach the threshold of some table |
| Sink.PostgresSink.PersistBlockAtomic | src/sink/postgres.ts:532-569 | one block in a transaction of its own: it succeeds if and only if the block, its unfiltered delegation rows included, satisfies the constraints, and then exactly its unfiltered rows are applied; if its delegation rows pass the flusher's filter that is the simple reference |
| Sink.BuffersIntactIff | src/sink/postgres.ts:648-653 | after a failed flush the buffers are intact if and only if the connection broke before core.blocks was done (connecting and BEGIN included) or that table refuses a buffered block |
| Sink.BuffersLost | src/sink/postgres.ts:734-761 | a concrete block whose flush breaks at the second table: the block buffer is empty and nothing is stored |
| Sink.StopsAtFault | src/sink/postgres.ts:732-778 | accepted blocks make a flush stop exactly where the connection breaks, and nowhere if it does not |
| Sink.FreshFlushSucceedsIff | src/sink/postgres.ts:654-778 | a flush of new blocks succeeds if and only if the connection holds and each block is acceptable by itself |
| Sink.FirstBlockStopsFlush | src/sink/postgres.ts:249 | a flush that holds the block at height 1 stops at core.blocks |
| Sink.MaximumIsLast | src/sink/postgres.ts:675-697 | the recorded height is that of the last buffered block |
| Acceptance.TxKeysDistinct | src/sink/pg/flushers/txs.ts:34-42 | blocks of different heights, each with different hashes, never make a DO UPDATE touch a row twice |
| RecoverySteps.WorldNextInv | src/index.ts:41-116 | boots that resume, ranges, pipeline events, flush stages, commits and kills all keep the invariant of the whole indexer |
| RecoverySteps.AnyNextInv | src/index.ts:41-116 | boots at any height, ranges, pipeline events, flush stages, commits and kills all keep what ties a process to its sink: the buffers hold the pending blocks, one sink call at most is outstanding, its open transaction holds the rows of the tables it has done |
| RecoveryTheorems.CrashRecovery | src/sink/postgres.ts:654-778 | after any runs, each with its own settings, resumed and killed anywhere, the committed heights are exactly those from the origin to last_height without the given-up ones, the row of last_height is there, and the database is a block-by-block one; the origin is where the last process started that found nothing recorded |
| RecoveryTheorems.CrashesLeaveNoTrace | src/sink/postgres.ts:654-778 | for one chain, the committed database is the one that indexing it once and in order from the origin to last_height leaves, whatever the settings of the process lives |
| RecoveryTheorems.StoredIsLog | src/sink/postgres.ts:732-765 | in every run, resuming or not, the committed database is the one that inserting the committed blocks one by one gives |
| RecoveryTheorems.RestartsLeaveNoTrace | src/sink/postgres.ts:732-765 | for one chain without repeated transaction hashes and any run, explicit starts below or above last_height included, the committed database is the one that indexing the committed heights once and in order leaves |
| RecoveryTheorems.ProgressNeverDecreases | src/db/progress.ts:31-39 | if no process starts below the recorded height, last_height only grows along every run |
| RecoveryTheorems.ResumingNeverDecreases | src/index.ts:37-49 | in particular last_height only grows along every run whose processes resume |
| RecoveryTheorems.StoredForever | src/sink/postgres.ts:732-765 | along every run, wherever its processes start, the committed blocks stay and the origin is fixed once something is recorded |
| RecoveryTheorems.CommittedBlocksAreWhole | src/sink/postgres.ts:732-765 | no committed state, of any run, wherever its processes start, holds part of a block |
| RecoveryTheorems.NothingPushedDuringFlush | src/sink/postgres.ts:734-761 | in every run, resuming or not, the array that a flush empties holds exactly the rows it has inserted, and no other sink call is outstanding |
| RecoveryTheorems.IncompleteBlockStopsRun | src/sink/postgres.ts:734-761 | a flush that has come to a table for which a block it holds misses a column has no next step under any split into statements |
| RecoveryTheorems.SkippedWasExhausted | src/runner/syncRange.ts:196-205 | in every run a height is left out of the database only if some process had used up all its attempts |
| RecoveryTheorems.DrainedRangeIsStored | src/index.ts:87-115 | a finished range with nothing left to flush is stored to its end, but for given-up heights |
| FlushTheorems.FinalFlushStores | src/index.ts:112-116 | behind a finished range with pending blocks that the tables accept, the final flush and its stretches are a run at whose end every written block is stored, last_height is the last of them, and the buffers are empty |
| FlushTheorems.FinalFlushOfNewBlocks | src/index.ts:112-116 | in particular for new blocks that are each acceptable by themselves |
| FlushTheorems.FlushCompletes | src/sink/postgres.ts:654-778 | in every run a flush that has started, of a write or of the runner, can go on to its COMMIT if the tables accept the pending blocks, and then all that the process has written is stored |
| FlushTheorems.WriteFlushesIff | src/sink/postgres.ts:606-645 | a write of the pipeline starts a flush if and only if the pending blocks, the written one included, reach some threshold |
| ExplicitStart.LifeKeepsItsLimits | src/sink/postgres.ts:606-645 | throughout its life a process has the thresholds it was booted with |
| FlushTheorems.PositionsUnique | initdb/010-indexer-schema.sql:152 | in every committed state of every run no two transactions of a height share their index |
| Liveness.WorldDeadlockFree | src/runner/syncRange.ts:147-231 | pipeline and sink together do not lock up: in every run, while a range is unresolved and the tables accept what is pending, a fetch can settle, a call can go on or a flush can take its next step |
| RecoveryTheorems.CommittedIndexAgrees | src/sink/postgres.ts:480-489 | in every committed state of every run, also one that indexes blocks again, the attribute index agrees with the events, if transactions with one hash are the same and their logs have different indexes |
| ExplicitStart.ExplicitStartIff | src/index.ts:37-49 | a process that is told to start at a height keeps last_height from falling, in every continuation of its life, if and only if that height is not below it |
| ExplicitStart.SettingsKeepProgressIff | src/index.ts:37-49 | in terms of the settings: the run resumes, or its explicit start is not below last_height |
| ExplicitStart.ProgressFalls | src/index.ts:37-49 | the run in which it falls, from an empty database: one life records a height, the next one is told to start below it and commits |
| Recovery.ContinuesIff | src/index.ts:37-49 | a run starts right behind the recorded height if and only if it resumes or is told that very height |
| Recovery.FirstStartIs | src/index.ts:37-49 | while nothing is recorded the start is the explicit height, else the configured first block, else the earliest height |
| Follow.ResolveRange | src/index.ts:37-62 | the start is the height behind the recorded one whenever the run resumes and there is one, else the explicit, first or earliest height; the end is the given or the latest height |
| Follow.FollowLoop | src/runner/follow.ts:46-69 | the ranges tile the heights from the start: none is empty, each begins where the one before ended, and they end at the highest height shown, unless that is below the start |
| Follow.TilesOnce | src/runner/follow.ts:51-62 | tiles cover every height between first and last exactly once |
| Follow.ProgressTable.UpsertProgress | src/db/progress.ts:31-39 | one progress row is overwritten, the others stay |
| EventIndex.EventsReadBack | src/sink/pg/flushers/events.ts:17-26 | reading the events of a transaction and message back in index order gives the event list of the log, and there are no rows besides |
| EventIndex.RawLogReadBack | src/assemble/blockJson.ts:117-135 | reading core.events of an assembled block back gives the events of every entry of the raw log of a transaction under the index of that entry, and the transaction's own events under -1 |
| EventIndex.IndexAgreement | src/sink/pg/flushers/attrs.ts:15-24 | an attribute row is stored if and only if its event is and has the key, and it holds what findAttr gives |
| EventIndex.FirstAttrWins | src/sink/pg/parsing.ts:170-173 | of several attributes with one key the first is stored, the one that findAttr finds |
| Parsing.PipelineLogsDistinctIff | src/normalize/events/parse.ts:12-46 | the logs that the pipeline stores for a transaction have different message indexes if and only if the entries of its raw log do, a missing index counting as 0, and none of them has -1 beside transaction-level events |
| Parsing.AssembledLogsAre | src/sink/pg/parsing.ts:48-56 | the stored logs of a transaction are, entry by entry, the events of its raw log under msg_index, else msgIndex, else 0, and last its own events under -1, if there are any |
| Parsing.UnreadableLogs | src/normalize/events/parse.ts:13-25 | without a readable raw log only the transaction's own events are left |
| EventIndex.AssembledDistinctIff | src/assemble/blockJson.ts:117-135 | for blocks as the pipeline assembles them, the message indexes that the event tables need are different if and only if the raw log of every transaction tells them apart |
| TxPoolTheorems.NextInv | src/decode/txPool.ts:75-164 | submissions, dispatches, replies, timeouts and worker errors keep the invariant of the pool |
| TxPoolTheorems.PoolSafety | src/decode/txPool.ts:75-164 | in every run the idle queue has no duplicates, no worker is idle and running or has two jobs, no promise is settled twice, and an answer is the decoding of the submission's own text |
| TxPoolTheorems.ConservationIff | src/decode/txPool.ts:126-138 | idle and running workers are all the ready ones if and only if no worker error came while a job was running |
| TxPoolTheorems.ErrorLosesWorker | src/decode/txPool.ts:126-138 | a run of four events after which a ready worker is neither idle nor running |
| TxPoolTheorems.LateWorkerIsIdle | src/decode/txPool.ts:75-113 | a worker that has not reported in time is put to work like one that has; once it is, nothing more happens |
| TxPoolTheorems.ErrorFreeRunsAreCorrect | src/decode/txPool.ts:115-124 | without worker errors every ready worker is idle or running, and every settled submission has the outcome of decoding its own text |
| TxPoolTheorems.ParallelEqualsSequential | src/runner/syncRange.ts:186-189 | the collected decodings equal the sequential ones, whatever the order of completion |
| TxPoolTheorems.NoStall | src/decode/txPool.ts:151-164 | without worker errors, while a submission is open some job can be answered or posted |
| TxPoolTheorems.WorkLeftDecreases | src/decode/txPool.ts:115-164 | each of these steps brings the submissions closer to their answers |
| TxPool.OnDecode | src/decode/txWorker.ts:57-66 | a worker answers each message once, under its id, with the outcome of decoding its text |
| TxPool.TxDecodePool.OnReply | src/decode/txPool.ts:115-123 | a reply is one event of the model: settle the submission of its id and free the worker, or drop it |
| TxPool.TxDecodePool.OnWorkerIdle | src/decode/txPool.ts:154-163 | the oldest idle worker gets the job under a fresh id |
| TxPool.TxDecodePool.OnError | src/decode/txPool.ts:126-138 | an error rejects whatever is pending, of whichever worker, and frees nobody |
| RateLimit.Envelope | src/rpc/ratelimit.ts:24-63 | takes one after the other, none above the capacity, are granted in every window of T ms at most capacity + rps * T / 1000 tokens |
| RateLimit.Capacity | src/rpc/ratelimit.ts:25 | the capacity is the rate times the burst factor rounded down, but at least one |
| RateLimit.WaitIsTight | src/rpc/ratelimit.ts:56-57 | the wait covers the deficit and exceeds the exact time by less than a millisecond |
| RateLimit.ClipsIff | src/rpc/ratelimit.ts:59-61 | the subtraction behind the timer is clipped at zero if and only if more than the capacity was asked for |
| RateLimit.OverlapBreaksEnvelope | src/rpc/ratelimit.ts:49-63 | from the full bucket, granted takes empty it, and any number of overlapping takes behind them can be granted at one instant |
| RateTheorems.KeepsRateIff | src/rpc/ratelimit.ts:24-63 | callers that let fewer than k takes wait and ask for at most m tokens keep the bound in every window of every run if and only if k is one and m at most the capacity, or k or m is zero |
| RateLimit.TokenBucket.Begin | src/rpc/ratelimit.ts:49-58 | a take is granted at once if and only if the refilled tokens suffice, else it waits |
| RateLimit.TokenBucket.Finish | src/rpc/ratelimit.ts:59-63 | behind its timer a take is granted |
| Partitions.Catalog.EnsureCorePartitions | src/db/partitions.ts:47-70 | exactly the missing partitions are added, nothing fails, and each height of the span is in exactly one partition of every range table, all tables among them that a flush fills and that are partitioned by height |
| Partitions.Catalog.CreateRangePartition | src/db/partitions.ts:81-91 | if the name exists nothing changes; if the range is empty or a height of it is in a partition of the table, it fails and nothing changes; else exactly this partition is added |
| Partitions.Catalog.EnsureNextHeightPartition | initdb/040-bootstrap-partitions.sql:24-69 | the next partition of a configured table is made if missing, and the bound moves on |
| Partitions.Catalog.BootstrapTable | initdb/040-bootstrap-partitions.sql:138-157 | the loop ends, with every height below the target in exactly one partition |
| Partitions.Bootstrap | initdb/040-bootstrap-partitions.sql:131-158 | so does the loop over all configured tables, in any order of the rows |
| Partitions.AnyMixIsSafe | src/db/partitions.ts:47-91 | however the statements of both creators interleave, none fails, partitions of a table are disjoint, and a height the indexer has asked for is in exactly one |
| Partitions.SpanMatters | initdb/040-bootstrap-partitions.sql:43-66 | the SQL creator keeps to the million-height grid if and only if the configured span is the indexer's step |
| Partitions.FirstVersionStuckIff | initdb/030-util-partitions.sql:17-54 | the first version of the function does not move if and only if the partition exists already |
| Base64.CanonicalIff | src/normalize/events/base64.ts:21-31 | the validator accepts exactly the encodings of non-empty byte strings, each of one byte string only (sections 3.5 and 4 of RFC 4648) |
| Base64.DecodeEncode | src/normalize/events/base64.ts:25-26 | decoding an encoding gives the bytes back |
| Base64.Alphabet | src/normalize/events/base64.ts:25-26 | the letters are A-Z, a-z, 0-9, plus and slash (table 1 of RFC 4648) |
| Base64.PaddedCanonicalIff | src/normalize/events/base64.ts:24-27 | a doubly padded group is canonical if and only if its unused bits are zero |
| Utf8.Decode8Iff | src/normalize/events/base64.ts:43-45 | the fatal decoder accepts exactly the UTF-8 forms (section 3 of RFC 3629), and finds the text |
| EventText.ResultEncodesInput | src/normalize/events/base64.ts:40-51 | the result is the input or a text that encodes to exactly it, possibly with a byte order mark in front |
| EventText.RecoveredIff | src/normalize/events/base64.ts:40-51 | a non-empty text comes back from its base64 form if and only if it has no other control characters than tab and line ends and no leading byte order mark |
| KeyCase.RestoredIff | src/utils/case.ts:15-29 | camel case and back gives the same key if and only if nothing in it is upper case, dash or space and every underscore marks one small letter or stays behind the last word |
| KeyCase.CanonicalKeysRestored | src/utils/case.ts:15-29 | canonical snake-case keys come back |
| KeyCase.SnakeIdempotent | src/utils/case.ts:15-20 | snake conversion changes nothing that it has produced |
| KeyCase.CamelKeysDistinct | src/utils/case.ts:40-44 | no two keys of an object merge |
| KeyCase.RoundTrip | src/utils/case.ts:35-48 | camel case and back restores every nested value |
| KeyCase.DeepConvertKeys | src/utils/case.ts:35-48 | the recursive loop computes the conversion of the round trip |
| KeyCase.EveryKeyConverted | src/utils/case.ts:35-48 | every key of the result, at whatever depth, in objects and in arrays of them, is a converted one |

## Left out

- Governance extraction and flushers: nothing in the running pipeline fills them.
- The other columns of a block, transaction and message are carried as one value each; only those that an upsert or a constraint looks at are separate.
- Acceptance.FreshAcceptedIff: refusals by column types other than strings in JSONB columns, such as the range of INT, BIGINT and NUMERIC(80,0), an invalid date, a NUL character or a lone surrogate in JSON text, are a `fault` at their table. Text lengths in the address check are counted in characters of the model's strings.
- Acceptance.TableAcceptedIff: the same refusals are left to `fault`.
- Sink.FreshFlushSucceedsIff: the same refusals are left to `fault`.
- `src/generated/knownMsgs.ts`, the generated fast decoders, is not part of this model; a field of bytes that they leave as an array is JSON-encoded by the flusher.
- A missing transaction hash, a message whose type is no string and a result code that is no number: the model's fields have their types.
- Sink.PostgresSink.PersistBlockAtomic: the inserters pass no column casts to `makeMultiInsert`; how the driver then serialises arrays for JSONB columns is not modelled.
- Recovery.StepEnabled: a flush stage takes any split of its rows into statements that the database accepts, so the theorems do not depend on the limits; when the flushers' own split is accepted is `Sink.PostgresSink.FlushTable`.
- Fetching over HTTP, protobuf decoding, assembling block JSON, hashing: one nondeterministic outcome per height, as described above.
- TxPool: a worker whose init timed out may decode without schemas; the model's decode function is the same for all workers. Job ids are random in the code; the model requires a fresh one for each dispatch.
- RateLimit: the code computes in floating point; the model is exact. Timers that fire early are not modelled.
- Partitions: hash partitions of `core.events`, advisory locks, and name clashes with unrelated relations are not modelled; a height is an integer.
- KeyCase.ToSnakeKey: lower-casing of letters outside ASCII is the identity in the model; integer-like keys, which JavaScript moves to the front, and the key `__proto__` are treated like any other key.
- Retry warnings, progress lines, ETA, configuration parsing, the other sinks, statement and lock timeouts, `src/utils/pLimit.ts`: no effect on the state modelled here.
- The sink's `write` of a JSON string or of a line with an `error` field, which is ignored: the pipeline passes assembled objects only.
