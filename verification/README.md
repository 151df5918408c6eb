# Verified models of the multi-agent engine

A Dafny model of the parts of the engine that carry hard guarantees, and proofs of what these parts promise.
`dafny verify dfyconfig.toml` checks everything. Each group of files follows one component.

| files | what they model |
|---|---|
| `LineDiff.dfy` | the line diff of the diff reviewer: table, walk back, hunk |
| `Durable.dfy`, `ProjectDb.dfy`, `Compaction.dfy`, `RunProtocol.dfy`, `RunTheorems.dfy`, `AckedSteps.dfy`, `RunTraces.dfy` | the crash-safe execution protocol: event log and projections, inbox, checkpoints, recovery by replay, context compaction, and the run loop, with any number of runs of each execution and a crash possible between any two transactions |
| `Scheduler.dfy` | two-level admission of executions, with the permit given up while a human is asked, beside debates that take a permit only |
| `BudgetGuard.dfy` | the cost ledger that concurrent loops share |
| `Sha256.dfy`, `Sha256Laws.dfy`, `Sha256Constants.dfy` | the hand-written SHA-256 against FIPS 180-4, laws of the parts that program and standard share, and where its constants come from |
| `CanonicalJson.dfy` | canonical argument texts and their hashes |
| `SseFraming.dfy`, `RpcPending.dfy` | the event stream of a remote tool server, and the matching of responses to calls |
| `WorkflowWalk.dfy` | the queue walk over a workflow graph |
| `Chunker.dfy` | the three document chunkers |
| `VectorIndex.dfy`, `VectorRuns.dfy`, `VectorMigration.dfy` | the vector index, also over any sequence of changes, and the verified change of its backend |
| `RankFusion.dfy` | reciprocal rank fusion and the searches that use it |
| `Text.dfy`, `Wrappers.dfy` | lines, trimming, optional values |

Code that changes things step by step is written as methods and classes that are proved equal to functions
on values. What the component promises is proved about these functions, and, for the concurrent parts, about
every interleaving of a state machine whose steps are single transactions or single atomic operations.

## What the proofs found

* **Two runs of one execution.** The engine does not prevent them: the check whether an execution is running and
  its registration are separate. What needs no such restriction is proved for any number of runs: no message is
  lost, an acknowledged message was in a committed checkpoint before, checkpoint and execution agree, histories
  are in order, and no event is replayed twice. What fails has its exact condition. The sequence number and
  generation of a checkpoint fall in a step exactly when a run saves with smaller ones (`CheckpointStep`), which
  happens only to a run that another run of the execution has overtaken since it loaded (`CheckpointsGrow`).
  A load meets a stale generation exactly when the row's generation changed since it was fetched, and then another
  run saved in between (`LoadStaleExactlyWhen`).
* **Generations.** The generation of an execution does not always grow. It falls exactly when a run saves a smaller
  total over it, or a recovery finds the execution running without a checkpoint at a generation of at least 1
  (`GenerationFallsExactlyWhen`). The first case arises only when another run saved since this one loaded, or when
  a row inserted with generation 1 gets a first checkpoint with an empty history (`SmallerTotalMeansOvertaken`).
  `RunTraces` gives a run for each of the three situations.
* **Event stream.** Framing depends on chunking exactly when a frame that ends at CR LF CR LF has LF LF inside
  (`ChunkingIrrelevantExactlyWhen`). Streams in one style of line ending never have such a frame.
* **Budget.** The ceilings hold up to the amount by which finished calls cost more than their reservations. For
  every configuration and every bound on costs, they hold in all runs exactly when there is no ceiling left to
  pass, or hard blocking is on and either the bound is at most the reservation or the first call is already
  denied (`CeilingsHoldExactlyWhen`).
* **Vector index.** A delete forgets the row number of the id for all three tables. Another table is left as it
  was exactly when it does not hold the id. Otherwise its row stays behind as an orphan, which later makes the
  count check of a migration fail (`RemovedIsDelete`, `MigrateVectorBackend`). The three tables look like
  independent maps throughout exactly when no delete names an id that another table holds
  (`LooksPlainExactlyWhen`).
* **Workflow walk.** The queue empties exactly when no enabled cycle is in reach. The loop ends exactly when
  that holds or some enabled path leads to a node that pauses the run or makes it fail.
* **Response matching.** The error for a dropped sender cannot arise while the client exists
  (`SenderNeverGone`). The entry of a call whose caller was cancelled stays in the pending table until a response
  with its id comes, possibly for ever (`PendingExactlyWhen`, `DroppedEntryStays`).

## Model

| member | source | states |
|---|---|---|
| LineDiff.ComputeFileHunks | core/trans4mers-engine/src/diff_reviewer.rs:14-84 | for all texts: the hunk's ' '/'-' lines are the old lines and its ' '/'+' lines the new ones, in order; the kept lines number a longest common subsequence; no script that turns old into new has fewer changes; counts and the no-hunk case are exact, and the two numbers in the header read as the line counts |
| LineDiff.FillTable | core/trans4mers-engine/src/diff_reviewer.rs:18-30 | every cell of the table filled in place holds the longest-common-subsequence length of two prefixes |
| LineDiff.WalkBack | core/trans4mers-engine/src/diff_reviewer.rs:32-67 | the lines found walking back, reversed, transform one side into the other, keep as many lines as the table promises, and are counted right |
| LineDiff.Reverse | core/trans4mers-engine/src/diff_reviewer.rs:67 | the result holds the lines in opposite order |
| LineDiff.LcsIsUpperBound | core/trans4mers-engine/src/diff_reviewer.rs:22-30 | no common subsequence of any kind is longer than the recurrence says, so the recurrence, which the script attains, is the true optimum |
| LineDiff.KeepingMostIsOptimal | core/trans4mers-engine/src/diff_reviewer.rs:32-65 | a script that keeps that many lines has the fewest additions and deletions among all scripts for the same texts |
| LineDiff.ScriptCost | core/trans4mers-engine/src/diff_reviewer.rs:32-65 | for every script, old lines less deletions and new lines less additions both equal the kept lines |
| Text.LinesOfJoin | core/trans4mers-engine/src/diff_reviewer.rs:15-16 | splitting into lines undoes joining, with LF and with CR LF endings, for any lines without line breaks whose last is not empty |
| Text.LinesAreSplit | core/trans4mers-engine/src/diff_reviewer.rs:15-16 | every text is its lines with their endings: LF or CR LF after each, and perhaps none after a last line that is not empty |
| Text.DecimalReads | core/trans4mers-engine/src/diff_reviewer.rs:77 | the decimal text of a number has digits only, no leading zero unless it is 0, and reads as the number |
| Text.TrimIs | core/trans4mers-providers/src/mcp_client.rs:375-383 | trimming takes white space off both ends, and all of it |
| Durable.PushInOrder | core/trans4mers-engine/src/agent_runtime.rs:102-117 | a pushed step keeps step numbers increasing and recorded events distinct |
| Durable.FoldInOrder | core/trans4mers-engine/src/recovery_manager.rs:102-168 | folding the next log event keeps the history in order, never lowers the total, covers a completed step's number, and only appends |
| Durable.ReplayAppends | core/trans4mers-engine/src/recovery_manager.rs:74-178 | a replay keeps all old steps and appends one step for each counted event, in log order and nothing else |
| Durable.ReplayInOrder | core/trans4mers-engine/src/recovery_manager.rs:74-178 | a replayed history is in order and records each event at most once |
| Durable.ReplayTotal | core/trans4mers-engine/src/recovery_manager.rs:99-172 | the exact total after a replay: the largest of the old total plus one for each counted event and, for every completed step number, that number plus one for each counted event after it |
| Durable.RecoveredIsRecovery | core/trans4mers-engine/src/recovery_manager.rs:172-184 | generation, step number and total of a recovered checkpoint are that exact total, its steps are the old ones and one for each counted event, and it covers the log |
| ProjectDb.ProjectDb.ProjectEvent | core/trans4mers-engine/src/event_projector.rs:99-170 | the execution and inbox arms change exactly the rows that the projection function names, and nothing else |
| ProjectDb.ProjectDb.CommitEvent | core/trans4mers-engine/src/cqrs.rs:11-33 | one transaction: append, number, project; a duplicate inbox id rolls everything back |
| ProjectDb.ProjectDb.QueueMessage | core/trans4mers-engine/src/agent_inbox.rs:11-29 | a message enters the inbox queued, through a logged event |
| ProjectDb.ProjectDb.ClaimNext | core/trans4mers-engine/src/agent_inbox.rs:31-82 | claims an oldest queued message of the agent, or finds that it has none and changes nothing |
| ProjectDb.ProjectDb.AckMessage | core/trans4mers-engine/src/agent_inbox.rs:84-95 | the message becomes acknowledged, through a logged event |
| ProjectDb.ProjectDb.SaveCheckpoint | core/trans4mers-engine/src/agent_runtime.rs:118-145 | checkpoint and generation are written together, or neither |
| ProjectDb.ProjectDb.LoadCheckpoint | core/trans4mers-engine/src/checkpoint_manager.rs:16-38 | returns the snapshot exactly when the generations agree, and the stale error exactly when they differ |
| ProjectDb.ProjectDb.ReplayEvents | core/trans4mers-engine/src/recovery_manager.rs:76-176 | the event loop yields the exact total, the old steps with one for each counted event, and the highest sequence number |
| ProjectDb.ProjectDb.RecoverCrashedExecutions | core/trans4mers-engine/src/recovery_manager.rs:48-200 | whatever the order: every running or checkpointing execution is queued with the exactly replayed checkpoint and its generation, or 0 without one, every claimed message is queued, and everything else is as it was |
| ProjectDb.RecoverNext | core/trans4mers-engine/src/recovery_manager.rs:67-187 | recovering one execution more changes its checkpoint and row and leaves every other execution as it was |
| Compaction.CompactIfNeeded | core/trans4mers-engine/src/context_compactor.rs:46-118 | drops the fewest steps that meet the stop rule, keeps at least one, leaves every kept step alone, and does nothing when disabled or not needed |
| Compaction.CompactionInOrder | core/trans4mers-engine/src/context_compactor.rs:70-118 | compaction keeps the numbers of the remaining steps increasing and their events distinct, and the total |
| RunProtocol.InvStep | core/trans4mers-engine/src/agent_runtime.rs:75-151 | every step of every run, of other components, a crash and a recovery keep checkpoints consistent with their executions and histories in order, with any number of runs of each execution |
| RunProtocol.OtherStepsHarmless | core/trans4mers-engine/src/agent_runtime.rs:1320-1372 | nothing but the two checkpoint steps and recovery touches checkpoints and generations |
| RunProtocol.FinalSaveInv | core/trans4mers-engine/src/agent_runtime.rs:1438-1469 | the checkpoint at the end of the loop, which also writes the status, keeps the invariant beside any other runs |
| RunProtocol.RecoverKeepsTables | core/trans4mers-engine/src/recovery_manager.rs:65-187 | a recovery leaves every checkpoint consistent with its execution |
| RunProtocol.SaveKeepsTables | core/trans4mers-engine/src/agent_runtime.rs:118-145 | a save of an ordered history keeps the tables consistent, whichever run it comes from |
| RunTheorems.Reachable | core/trans4mers-engine/src/agent_runtime.rs:75-151 | the invariant holds in every state of every run of the system, however many runs of an execution there are |
| RunTheorems.NothingLost | core/trans4mers-engine/src/agent_inbox.rs:31-95 | over any run with crashes anywhere, a queued message stays in the inbox for its agent, and an acknowledged one stays acknowledged |
| RunTheorems.MessageStep | core/trans4mers-engine/src/agent_inbox.rs:31-95 | queued to claimed by a claim, claimed to queued by a recovery, and to acknowledged by the run that saved it: no step changes a delivery state otherwise |
| RunTheorems.AckedWasCheckpointed | core/trans4mers-engine/src/agent_runtime.rs:75-151 | for every acknowledged message there is an acknowledging step, and before it a save of the same run after which the committed checkpoint of its execution held the step that delivered the message |
| AckedSteps.LosesStepExactlyWhen | core/trans4mers-engine/src/agent_runtime.rs:118-145 | in any step a checkpoint loses the step that delivered a message if and only if a run of the execution saves a history without it |
| AckedSteps.LosesStepMeans | core/trans4mers-engine/src/agent_runtime.rs:75-151 | a run saves without it only if, since it loaded its state, another run overtook it or it dropped the step in a compaction |
| AckedSteps.StepStays | core/trans4mers-engine/src/agent_runtime.rs:118-151 | the step stays in the checkpoint through later saves, crashes and recoveries, while runs save in turn and none of the saving runs dropped it since it loaded |
| AckedSteps.AckedIsKept | core/trans4mers-engine/src/agent_runtime.rs:147-151 | so the current checkpoint of the acknowledging execution holds the step of every acknowledged message, if these conditions hold for the saves after the one before the acknowledgement |
| RunTheorems.RecoveryRequeues | core/trans4mers-engine/src/recovery_manager.rs:189-198 | after a recovery every message that is not acknowledged is queued |
| RunTheorems.ClaimedOnce | core/trans4mers-engine/src/agent_inbox.rs:31-82 | two claims of one message, by whatever runs of whatever executions, have a recovery between them |
| RunTheorems.CheckpointStep | core/trans4mers-engine/src/agent_runtime.rs:118-145 | in any step the sequence number (generation) of a checkpoint falls if and only if a run of the execution saves with a smaller sequence number (total) |
| RunTheorems.CheckpointsGrow | core/trans4mers-engine/src/checkpoint_manager.rs:11-14 | sequence number and generation of a checkpoint never fall as long as no run saves after another run of the execution has overtaken it |
| RunTheorems.SaverIsCurrent | core/trans4mers-engine/src/agent_runtime.rs:118-145 | a run that saves without having been overtaken knows at least the checkpoint's total and sequence number |
| RunTheorems.AloneSavesInTurn | core/trans4mers-engine/src/scheduler.rs:94-198 | when no two runs of the execution are in progress, none is ever overtaken |
| RunTheorems.GenerationsAgree | core/trans4mers-engine/src/recovery_manager.rs:172-187 | in every committed state, with any number of runs, an execution with a checkpoint has the same generation, equal to the snapshot's step total |
| RunTheorems.LoadStaleExactlyWhen | core/trans4mers-engine/src/scheduler.rs:223-275 | a load meets a stale generation if and only if the row's generation is not the one fetched, and then another run of the execution saved in between; otherwise it finds the saved state exactly when there is one |
| RunTheorems.LoadNeverStale | core/trans4mers-engine/src/scheduler.rs:223-275 | with no two runs of the execution in progress before it, a load never meets a stale generation |
| RunTheorems.GenerationFallsExactlyWhen | core/trans4mers-engine/src/agent_runtime.rs:118-145 | in any step the generation of an execution falls if and only if a run saves a smaller total, or a recovery finds it running without a checkpoint at a generation of at least 1 |
| RunTheorems.SmallerTotalMeansOvertaken | core/trans4mers-engine/src/agent_runtime.rs:118-145 | a run saves a smaller total only if another run of the execution saved since it loaded, or the row has generation 1, no checkpoint, and the run an empty history |
| RunTheorems.GenerationGrows | core/trans4mers-engine/src/agent_runtime.rs:118-145 | while its runs save in turn, the generation of an execution that was inserted with generation 0, or has a checkpoint, never falls |
| RunTraces.GenerationCanFall | core/trans4mers-engine/src/agent_runtime.rs:118-145 | a concrete run of seven steps in which a first save takes the generation from 1 to 0 |
| RunTraces.GenerationCanFallAtRecovery | core/trans4mers-engine/src/recovery_manager.rs:90-187 | a concrete run of seven steps in which a recovery takes it from 1 to 0 |
| RunTraces.GenerationCanFallBesideAnotherRun | core/trans4mers-engine/src/agent_runtime.rs:75-145 | a concrete run with two runs of one execution in which the second saves its empty history over the first one's: generation and sequence number fall, and the step of the acknowledged message is gone |
| RunTraces.LoadCanBeStale | core/trans4mers-engine/src/scheduler.rs:223-275 | a concrete run with two runs of one execution in which the second loads after the first saved, and meets a stale generation |
| RunTheorems.ReplayedOnce | core/trans4mers-engine/src/recovery_manager.rs:74-178 | over any sequence of runs, crashes and recoveries, with any number of runs of an execution, a log event is folded into its snapshot at most once |
| RunTheorems.CoveredNeverReplayed | core/trans4mers-engine/src/recovery_manager.rs:74-81 | an event that a checkpoint covers is not replayed into it later, while runs save in turn |
| RunTheorems.RecoveryAppends | core/trans4mers-engine/src/recovery_manager.rs:65-184 | in every run a recovery keeps the old steps, appends one for each counted later event, stays in order, and covers the old total and all replayed step numbers |
| RunTheorems.HistoriesInOrder | core/trans4mers-engine/src/agent_runtime.rs:102-145 | in every state, with any number of runs, checkpoints and running histories have increasing numbers outside summaries and no tool step recorded twice |
| Scheduler.StepAccounted | core/trans4mers-engine/src/scheduler.rs:149-213 | each step keeps counters equal to the tasks that hold slots and permits |
| Scheduler.RunAccounted | core/trans4mers-engine/src/scheduler.rs:61-66 | in every interleaving, debates included, the active count of a project is the number of its tasks with a slot, stays within the cap, is never decremented at zero, free and held permits add up to the maximum, and a task at the gate holds no permit |
| Scheduler.NoDeadlock | core/trans4mers-engine/src/scheduler.rs:154-195 | in every reachable state with an unfinished task some task has an ordinary step to take |
| Scheduler.MeasureFalls | core/trans4mers-engine/src/agent_runtime.rs:1044-1148 | every step that adds no task lowers the measure, failures and waits for a human included |
| Scheduler.EveryTaskEnds | core/trans4mers-engine/src/scheduler.rs:364-382 | after the last task or debate was added no interleaving is longer than the measure, and one that cannot go on has finished every task and debate |
| Scheduler.Counters.TryPassGate | core/trans4mers-engine/src/scheduler.rs:162-174 | passes exactly when the machine lets the task pass, and takes that step |
| Scheduler.Counters.ReleaseProjectSlot | core/trans4mers-engine/src/scheduler.rs:61-66 | takes the release step of the machine, at the end of a task and on a failed boot, and in every accounted state gives back exactly one slot, so the subtraction never saturates |
| Scheduler.Counters.TryAcquire | core/trans4mers-engine/src/scheduler.rs:409-411 | takes a permit exactly when the machine can, for a first permit, after an approval, and for a debate |
| Scheduler.Counters.DropPermit | core/trans4mers-engine/src/agent_runtime.rs:1047-1048 | every dropped permit is free again, as in the machine |
| BudgetGuard.LedgerLaw | core/trans4mers-engine/src/agent_runtime.rs:281-352 | in every interleaving the total is what was spent before, plus the actual costs of finished calls, plus one reservation for each call in flight or failed |
| BudgetGuard.CeilingHolds | core/trans4mers-engine/src/agent_runtime.rs:309-334 | with hard blocking, in every interleaving a total passes its ceiling by less than finished calls cost beyond their reservations, and stays strictly below when none did |
| BudgetGuard.CeilingsHoldExactlyWhen | core/trans4mers-engine/src/agent_runtime.rs:309-334 | for all configurations and cost bounds: both totals stay below their open ceilings in all runs with costs within the bound if and only if no ceiling is open, or hard blocking is on and the bound is at most the reservation of 0.05 or a window has no room for one reservation |
| BudgetGuard.Exceeding | core/trans4mers-engine/src/agent_runtime.rs:545-562 | in every other case there is a run that passes a ceiling |
| BudgetGuard.CeilingNeedsTheReservation | core/trans4mers-engine/src/agent_runtime.rs:545-562 | for example, a ceiling of 0.10 and calls of at most 0.20 |
| BudgetGuard.InvStep | core/trans4mers-engine/src/agent_runtime.rs:281-352 | every read, denial, reservation, adjustment and failure keeps one lock holder, reads that cover the net spending, and the ceilings |
| BudgetGuard.SumsStep | core/trans4mers-engine/src/agent_runtime.rs:545-562 | each step logs the change of what the calls stand for, and raises the net spending only by a reservation |
| BudgetGuard.ChargesSplit | core/trans4mers-engine/src/agent_runtime.rs:545-562 | the charges are the actual costs plus one reservation per open or failed call |
| Sha256.Sha256Hex | core/trans4mers-storage/src/filesystem.rs:103-188 | for every byte string the result is the digest of FIPS 180-4 section 6.2 in hexadecimal, with the length taken modulo 2^64 |
| Sha256.Pad | core/trans4mers-storage/src/filesystem.rs:122-128 | the padding loop produces the padding of section 5.1.1: one bit, fewest zero bytes, length |
| Sha256.PaddingIsUnique | core/trans4mers-storage/src/filesystem.rs:122-128 | the padding exists, is unique, ends on a block and adds at most 72 bytes |
| Sha256.PaddingInjective | core/trans4mers-storage/src/filesystem.rs:122-128 | two messages have the same padding if and only if they are equal |
| Sha256.FillSchedule | core/trans4mers-storage/src/filesystem.rs:130-147 | the array reused for every block holds the message schedule of section 6.2.2 |
| Sha256.Compress | core/trans4mers-storage/src/filesystem.rs:149-180 | the rotated registers compute the 64 rounds of the standard and are added to the hash value in place |
| Sha256.PrintHash | core/trans4mers-storage/src/filesystem.rs:183-187 | the eight words in eight digits each |
| Sha256Laws.MessageWordIsBigEndian | core/trans4mers-storage/src/filesystem.rs:132-139 | the four bytes of a word are found in it from the highest place to the lowest |
| Sha256Laws.PaddingEndsWithLength | core/trans4mers-storage/src/filesystem.rs:122-128 | the last eight bytes of the padding read as the length in bits |
| Sha256Laws.HexWordReads | core/trans4mers-storage/src/filesystem.rs:185 | a printed word reads as the word |
| Sha256Laws.DigitsRead | core/trans4mers-storage/src/filesystem.rs:185 | hexadecimal digits read as the number modulo the power of 16 that fits |
| Sha256Laws.HexDigitInOrder | core/trans4mers-storage/src/filesystem.rs:185 | the digits are 0 to 9 and a to f in order |
| Sha256Laws.ChChooses | core/trans4mers-storage/src/filesystem.rs:154 | a set bit chooses the second word and a clear one the third |
| Sha256Laws.MajIsMajority | core/trans4mers-storage/src/filesystem.rs:161 | each bit is the majority of three |
| Sha256Laws.Xor3IsParity | core/trans4mers-storage/src/filesystem.rs:141-160 | each bit is the parity of three |
| Sha256Laws.SumCounts | core/trans4mers-storage/src/filesystem.rs:143-146 | addition counts on by ones around 2^32 |
| Sha256Constants.ConstantsAreCubeRoots | core/trans4mers-storage/src/filesystem.rs:104-115 | each round constant is the first 32 bits of the fraction of the cube root of its prime |
| Sha256Constants.HashWordsAreSquareRoots | core/trans4mers-storage/src/filesystem.rs:117-120 | each word of the first hash value is that of the square root of its prime |
| Sha256Constants.PrimesAreAll | core/trans4mers-storage/src/filesystem.rs:104-115 | the list holds exactly the primes up to its last one, so its entries are the first 64 |
| Sha256Constants.PrimesAscend | core/trans4mers-storage/src/filesystem.rs:104-115 | in ascending order |
| Sha256.HexHashInjective | core/trans4mers-storage/src/filesystem.rs:183-187 | two hash values print alike if and only if they are equal |
| Sha256.MixingFunctionsAgree | core/trans4mers-storage/src/filesystem.rs:141-162 | the processor's rotations give the mixing functions as the standard writes them with shifts |
| Sha256.ExtendIsExpand | core/trans4mers-storage/src/filesystem.rs:141-146 | the wrapping sums of the program in its order are the modular sum of the standard |
| CanonicalJson.CanonicalArgumentsJson | core/trans4mers-engine/src/approval_engine.rs:11-41 | the printer, taking keys in any order and sorting them, prints the canonical text, and a reader of JSON texts gets the value back from it |
| CanonicalJson.ReadsBack | core/trans4mers-engine/src/approval_engine.rs:11-41 | for all values: a reader with its own words, escapes and brackets reads the canonical text back and leaves what follows it |
| CanonicalJson.StringReadsBack | core/trans4mers-engine/src/approval_engine.rs:21 | an escaped string reads back as the string |
| CanonicalJson.EscapeIsShortest | core/trans4mers-engine/src/approval_engine.rs:21 | no other way of writing a character in a string is shorter |
| CanonicalJson.MembersInOrder | core/trans4mers-engine/src/approval_engine.rs:14-24 | the reader finds all members of an object in the text in ascending order of their keys |
| CanonicalJson.LessIsByCodePoint | core/trans4mers-engine/src/approval_engine.rs:15 | keys compare by their first difference, code point by code point, a prefix first |
| CanonicalJson.ValueDecodes | core/trans4mers-engine/src/approval_engine.rs:11-41 | the text of a value followed by nothing or a delimiter gives back both the value and what follows, so no text can be read in two ways |
| CanonicalJson.CanonIsInjective | core/trans4mers-engine/src/approval_engine.rs:11-41 | two values print to the same text if and only if they are equal as JSON with unordered members |
| CanonicalJson.QuoteDecodes | core/trans4mers-engine/src/approval_engine.rs:21-22 | an escaped string up to its closing quote gives the string back |
| CanonicalJson.SortKeys | core/trans4mers-engine/src/approval_engine.rs:14-15 | the keys come out in the one ascending order, whatever order they went in |
| CanonicalJson.AscendingUnique | core/trans4mers-engine/src/approval_engine.rs:14-15 | a set of keys has only one ascending order |
| CanonicalJson.HashArguments | core/trans4mers-engine/src/approval_engine.rs:43-46 | the hash is the SHA-256 digest of the UTF-8 bytes of the canonical text |
| CanonicalJson.HashTellsArguments | core/trans4mers-engine/src/approval_engine.rs:43-46 | the hashed byte strings are equal if and only if the arguments are, so a false match of approvals needs a collision |
| CanonicalJson.Utf8ReadsBack | core/trans4mers-engine/src/approval_engine.rs:45 | the UTF-8 form of a character reads back as the character |
| CanonicalJson.BytesReadBack | core/trans4mers-engine/src/approval_engine.rs:45 | the bytes of a text read back as the text |
| CanonicalJson.BytesInjective | core/trans4mers-engine/src/approval_engine.rs:45 | different texts have different UTF-8 bytes |
| SseFraming.StreamReader.Feed | core/trans4mers-providers/src/mcp_client.rs:319-341 | a chunk yields the frames, and leaves the buffer, that draining the old buffer with the chunk appended gives |
| SseFraming.ChunkingIrrelevantExactlyWhen | core/trans4mers-providers/src/mcp_client.rs:315-341 | for every stream: all ways of splitting it into chunks give the frames and leftover of the whole stream if and only if no frame ending at CR LF CR LF has LF LF inside |
| SseFraming.OneStyleIsUnmixed | core/trans4mers-providers/src/mcp_client.rs:321-325 | a stream with LF endings only, or with a CR before every LF, meets that condition |
| SseFraming.DrainSplit | core/trans4mers-providers/src/mcp_client.rs:321-341 | what has arrived can be drained before the rest arrives without changing the outcome |
| SseFraming.MixedBreaks | core/trans4mers-providers/src/mcp_client.rs:321-325 | for every mixed stream there is a point at which splitting it changes the frames |
| SseFraming.ProcessFrame | core/trans4mers-providers/src/mcp_client.rs:362-415 | the field loop reads a frame line by line and tells endpoint, response and nothing apart |
| SseFraming.LineRules | core/trans4mers-providers/src/mcp_client.rs:371-383 | what each kind of line says, with or without a space after the colon |
| SseFraming.ReadPrinted | core/trans4mers-providers/src/mcp_client.rs:368-385 | reading a printed event gives its name and data back, with either line ending |
| SseFraming.PrintedIsDelivered | core/trans4mers-providers/src/mcp_client.rs:385-415 | a message or unnamed event delivers its data lines joined, unless they are empty, an endpoint event its address, and any other event nothing |
| SseFraming.EventsComeThrough | core/trans4mers-providers/src/mcp_client.rs:315-415 | whatever the chunks, the events that a server prints come out one by one as they were, each delivers what it asks for, and nothing is left over |
| RpcPending.InvStep | core/trans4mers-providers/src/mcp_client.rs:601-652 | every step of calls, reader, timeouts and cancelled callers keeps the invariant that ties ids, senders and channels together |
| RpcPending.ResolvedByItsResponse | core/trans4mers-providers/src/mcp_client.rs:120-130 | in every interleaving a call resolved from the stream has the first response with its own id since it was registered, and no other call has that response |
| RpcPending.GoneAfterReturn | core/trans4mers-providers/src/mcp_client.rs:627-652 | once a call has returned, its result is final and its id is never in the pending table again |
| RpcPending.PendingExactlyWhen | core/trans4mers-providers/src/mcp_client.rs:626-652 | in every interleaving an id is in the pending table if and only if its call was registered, has not returned, and no response with the id was received since |
| RpcPending.PendingAreCalls | core/trans4mers-providers/src/mcp_client.rs:626 | every entry is that of a call |
| RpcPending.DroppedEntryStays | core/trans4mers-providers/src/mcp_client.rs:799 | after a caller was cancelled, the entry of its call is in the table at a later time if and only if no response with its id was received since |
| RpcPending.SenderNeverGone | core/trans4mers-providers/src/mcp_client.rs:633-640 | a waiting call never finds its sender dropped |
| RpcPending.AnswerIsThere | core/trans4mers-providers/src/mcp_client.rs:120-130 | a waiting call misses no response: once one with its id was received and handled, an answer lies in its channel |
| RpcPending.IdsDiffer | core/trans4mers-providers/src/mcp_client.rs:606 | two calls never have the same id |
| RpcPending.PendingTable.TakeId | core/trans4mers-providers/src/mcp_client.rs:606 | gives out the next id and is the machine's first step of a call |
| RpcPending.PendingTable.Insert | core/trans4mers-providers/src/mcp_client.rs:625-626 | is the registering step of the machine |
| RpcPending.PendingTable.Resolve | core/trans4mers-providers/src/mcp_client.rs:122-127 | takes a sender out exactly when the response has an id that is pending |
| RpcPending.PendingTable.Remove | core/trans4mers-providers/src/mcp_client.rs:627-652 | the id is gone and no other entry changes |
| WorkflowWalk.ProcessDag | core/trans4mers-engine/src/workflow_engine.rs:141-377 | the nodes started are the ends of the first paths of the walk; the run completes if and only if no enabled cycle is in reach and every enabled path leads to a node it gets past; it is paused exactly when the last started node is a review without approval, failed exactly at a condition without a script or an id without a node, and every node started before exists, is approved and has its script |
| WorkflowWalk.VisitByType | core/trans4mers-engine/src/workflow_engine.rs:166-281 | what the walk makes of a node, by its type: missing, unapproved review, condition without a script, or passed |
| WorkflowWalk.FollowsByType | core/trans4mers-engine/src/workflow_engine.rs:173-376 | which edges a passed node enables: none for an end, those labelled with the outcome for a condition, all others without regard to labels |
| WorkflowWalk.FindIsFirst | core/trans4mers-engine/src/workflow_engine.rs:166-171 | lookup finds the first node with the id, and fails exactly when there is none |
| WorkflowWalk.FindStartIsFirst | core/trans4mers-engine/src/workflow_engine.rs:129-138 | the walk begins at the first start node, and fails exactly when there is none |
| WorkflowWalk.Targets | core/trans4mers-engine/src/workflow_engine.rs:283-376 | the nodes that follow a node of each type are the targets of its enabled edges, in order |
| WorkflowWalk.StopsExactlyWhen | core/trans4mers-engine/src/workflow_engine.rs:141-377 | the loop ends if and only if no enabled cycle is in reach or some enabled path leads to a node that ends the run |
| WorkflowWalk.CompletesExactlyWhen | core/trans4mers-engine/src/workflow_engine.rs:141-377 | the queue is empty at the end if and only if no cycle is in reach and every enabled path leads to a node the walk gets past |
| WorkflowWalk.StartsArePaths | core/trans4mers-engine/src/workflow_engine.rs:141-377 | a node is started once for each different enabled path that leads to it, for all such paths when the queue empties, in nondecreasing path length |
| WorkflowWalk.InvNext | core/trans4mers-engine/src/workflow_engine.rs:366-376 | each round keeps the started and queued paths different, ordered by length, and closed under parents and children |
| WorkflowWalk.AcyclicBounds | core/trans4mers-engine/src/workflow_engine.rs:366-376 | without a cycle no enabled path has more edges than the graph |
| WorkflowWalk.EmptiedMeansNoCycle | core/trans4mers-engine/src/workflow_engine.rs:141-142 | an emptied queue proves that no enabled cycle is in reach |
| Chunker.Split | core/trans4mers-engine/src/document_chunker.rs:43-137 | for every document, kind and estimator the result is the document's chunking: each chunk ends at the first line where it may or must |
| Chunker.ChunkFile | core/trans4mers-engine/src/document_chunker.rs:10-31 | the extension decides the rule, and with it the limits: 80 to 800 tokens for Markdown, 60 to 750 for code, 100 to 600 for other text |
| Chunker.HeadingRule | core/trans4mers-engine/src/document_chunker.rs:61-64 | a Markdown boundary has one to four number signs and then a space |
| Chunker.DeclarationRule | core/trans4mers-engine/src/document_chunker.rs:158-176 | a code boundary is a keyword with a space, behind the words that may stand before it |
| Chunker.BlankRule | core/trans4mers-engine/src/document_chunker.rs:267 | a text boundary is a line of white space |
| Chunker.ChunkingIsUnique | core/trans4mers-engine/src/document_chunker.rs:139-247 | a document has only one chunking, so the rule determines every chunk |
| Chunker.ChunkingPartitions | core/trans4mers-engine/src/document_chunker.rs:249-338 | chunks are numbered 0, 1, 2, …, have at least one line, cover the lines from 1 to the last without gap or overlap, and their joined texts are the joined lines |
| Chunker.ChunkSizes | core/trans4mers-engine/src/document_chunker.rs:65-116 | every chunk without its last line is within the ceiling, and a chunk other than the last either passed the ceiling or reached the minimum before a boundary line |
| VectorIndex.UpsertIsUpdate | core/trans4mers-storage/src/vector_store.rs:110-134 | an upsert is a map update of one id in one table, and changes no other id, no other table and no orphan |
| VectorIndex.RemovedIsDelete | core/trans4mers-storage/src/vector_store.rs:136-158 | a delete removes the id from every table's map; another table is left as it was if and only if it does not hold the id |
| VectorIndex.TableNames | core/trans4mers-storage/src/vector_store.rs:78-89 | each table answers to its name with and without the prefix, and no other name is known |
| VectorIndex.RowCount | core/trans4mers-storage/src/vector_store.rs:351-362 | the rows of a table are its ids and its orphans, one row each |
| VectorIndex.CountCheckIsExact | core/trans4mers-storage/src/vector_migration.rs:119-138 | after a batch the row count equals the record count if and only if the table held no other ids and no orphans |
| VectorIndex.UpsertedLookup | core/trans4mers-storage/src/vector_store.rs:328-344 | after a batch each record's vector is found under its id and other ids keep what they had |
| VectorIndex.MappedKeeps | core/trans4mers-storage/src/vector_store.rs:91-107 | giving an id a row number changes no table's contents, because numbers are never used again |
| VectorIndex.PutAllIsUpdate | core/trans4mers-storage/src/vector_store.rs:328-344 | a batch updates the ids of its records in one table, and changes nothing else |
| VectorRuns.RunIsPlain | core/trans4mers-storage/src/vector_store.rs:91-158 | over any sequence of upserts, batches and deletes in which no delete meets an id of another table, each table is a plain map of its own and no row is orphaned |
| VectorRuns.LooksPlainExactlyWhen | core/trans4mers-storage/src/vector_store.rs:136-158 | over any sequence the tables look like three independent maps throughout if and only if no delete names an id that another table holds |
| VectorRuns.SharedIdIsLost | core/trans4mers-storage/src/vector_store.rs:136-158 | a concrete sequence in which an id comes to be in two tables and a delete from one takes it from the other |
| VectorIndex.SqliteVecStore.EnsureMapping | core/trans4mers-storage/src/vector_store.rs:91-107 | the id has the returned row number, an old one where it had one |
| VectorIndex.SqliteVecStore.UpsertRow | core/trans4mers-storage/src/vector_store.rs:110-134 | a map update of the table, or a failure exactly for a wrong dimension |
| VectorIndex.SqliteVecStore.BatchUpsert | core/trans4mers-storage/src/vector_store.rs:328-344 | all records or none, by whether all vectors have the right dimension |
| VectorIndex.SqliteVecStore.DeleteEmbedding | core/trans4mers-storage/src/vector_store.rs:136-158 | the delete of a known table, and an error that changes nothing for another name |
| VectorIndex.SqliteVecStore.Count | core/trans4mers-storage/src/vector_store.rs:351-362 | ids plus orphans |
| VectorMigration.LanceStore.BatchUpsert | core/trans4mers-storage/src/lancedb_store.rs:259-298 | old records of the same ids go and the new ones are appended; with a wrong dimension it fails and the old records are gone |
| VectorMigration.CountCheck | core/trans4mers-storage/src/vector_migration.rs:119-138 | for both stores: the count check passes if and only if every old row belongs to a record, and then the table holds exactly the records with their vectors |
| VectorMigration.FitsExactlyWhen | core/trans4mers-storage/src/lancedb_store.rs:62-75 | a batch fits if and only if one dimension suits the table and all its records |
| VectorMigration.FittingKeepsUniform | core/trans4mers-storage/src/lancedb_store.rs:259-298 | and then all vectors of the table keep one dimension |
| VectorMigration.MigrateVectorBackend | core/trans4mers-storage/src/vector_migration.rs:28-151 | succeeds if and only if the backends are two known ones, all vectors fit and every old row of the target belongs to a record; then each table holds exactly its records and the backend is switched; on any error the backend in use stays, and the other store is never touched |
| RankFusion.Fuse | core/trans4mers-storage/src/rrf.rs:6-18 | every listed id once, with the sum of 1/(k + rank) over its occurrences, sorted descending, for all lists and k > 0 |
| RankFusion.RankingsDifferInTiesOnly | core/trans4mers-storage/src/rrf.rs:15-17 | any two rankings of the same lists have the same score at every place |
| RankFusion.ListOrderIrrelevant | core/trans4mers-storage/src/rrf.rs:8-13 | scores do not depend on the order of the lists |
| RankFusion.MassIsConserved | core/trans4mers-storage/src/rrf.rs:8-13 | the scores add up to the weights that the places of all lists hand out |
| RankFusion.BetterPrecedes | core/trans4mers-storage/src/rrf.rs:8-17 | an id that comes before another in every list that has the other precedes it in the ranking |
| RankFusion.TopKeepsTheBest | core/trans4mers-engine/src/document_rag.rs:313-318 | an id left out by the limit scores no higher than any id taken |
| RankFusion.SingleListIsItsRanking | core/trans4mers-engine/src/memory_engine.rs:298-307 | a single list without repetitions is its own and only ranking |
| RankFusion.ShortcutIsFusion | core/trans4mers-engine/src/memory_engine.rs:298-307 | taking the one list that is not empty gives what fusing would give |
| RankFusion.RetrieveMemories | core/trans4mers-engine/src/memory_engine.rs:270-307 | the inlined copy and its shortcuts return the rows of the top ids of the fusion of both lists |
| RankFusion.RetrieveRules | core/trans4mers-engine/src/memory_engine.rs:552-581 | the same contract through the shared function, so both searches agree up to ties |
| RankFusion.SearchDocuments | core/trans4mers-engine/src/document_rag.rs:276-318 | the top of the fusion of both lists, or of the fallback list when both are empty |
| RankFusion.SearchWeights | core/trans4mers-engine/src/memory_engine.rs:278-287 | the weight of a rank is one over 60 plus the rank |
| RankFusion.Sorted | core/trans4mers-storage/src/rrf.rs:15-17 | the map's entries, each once, from the highest score to the lowest |

## Left out

- The check whether an execution is running (core/trans4mers-engine/src/scheduler.rs:94): a run may start at any time, also beside others of its execution.
- Wake-ups, the wake latch and the run queue of the scheduler: a task at the gate tries again at any time. A closed semaphore is not modelled.
- Nothing in the engine sets a project cap, so the default of 4 applies. The theorems hold for any caps of at least 1.
- The resumption of a workflow after a crash, and the runs of the agents that a workflow starts. Condition scripts and reviews have a fixed outcome per node.
- The `CheckpointSaved` projection, checkpoint pruning, housekeeping of stalled runs, failed serialization, ignored write errors, and checkpoints without a readable snapshot.
- Event contents other than what replay reads, message payloads, and the thoughts and results of steps.
- Machine integers: sequence numbers, generations, step totals and request ids are unbounded. Only SHA-256 works on 32-bit words, and its length on 64 bits.
- The roll-over of the budget windows: both see one ledger for the whole run, while a reservation before midnight and its adjustment afterwards fall into different days.
- Floating point: costs, scores and vector components are reals, so rounding, infinities and not-a-number are not modelled.
- The reader of JSON texts takes no white space and no surrogate pairs, which canonical texts do not contain.
- JSON numbers are tokens. Two numbers count as equal when they print alike, so 0.0 and -0.0 are different here.
- `HashArguments` sees SHA-256 as a function: collision resistance is not a provable property.
- Bytes of a response stream that are not valid UTF-8 in one chunk are dropped by the reader and not modelled. Reconnection, the same-origin check of endpoints and JSON parsing of responses are left out as well.
- The id of a direct HTTP reply is not checked by the program (core/trans4mers-providers/src/mcp_client.rs:629-632), and the model does not promise it.
- Token estimators and generated summaries come from outside. The chunk sizes assume that the empty text is within the ceiling.
- Nearest-neighbour and full-text searches come from outside, as ranked lists. Each finds a row once.
- Metadata of vectors, optimizing an index, and a database that cannot be opened.
- The SQL engine, git, HTTP, terminals, the browser, providers and user interfaces.
- Policy lattice, tier promotion, prices, query quoting, interval parsing and configuration: they would only add easy members.
- ProcessDag: its precondition is the exact condition under which the loop ends (`StopsExactlyWhen`), since the engine's loop does not end on an enabled cycle.
- ChunkFile: takes the extension in lower case, because finding it in the path is library code. Chunk ids and creation times are left out.
- Library sorts are written out as insertion into a sorted sequence, and a hash map hands out its entries in any order.
