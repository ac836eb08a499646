# Verified model of protoAgent's stateful protocols

This project models the parts of the agent server whose correctness depends on more than one
function: background jobs and their fan-out join, the streaming of a turn and its reassembly by
a client, the configuration documents (cascade, reset, merge-on-boot, credentials), the durable
history of a task, the event bus, checkpoint retention and compaction, fact consolidation and
the rate limiter. Run `dafny verify dfyconfig.toml` to check all of it.

How it is laid out:

- **Background jobs.** `JobTable` holds the rows of the job table and the effect of each SQL
  statement; `ExactlyOnce` proves exactly-once delivery over every run of statements, and
  `JobHistory` reads every field of a row off the history;
  `BackgroundStore` is the store, updated in place. `BatchJoin` is the manager as a transition
  system — one action for each run of its code between two suspension points, actions
  interleaving freely; `BatchJoinInvariant` proves what every action keeps,
  `BatchJoinTheorems` what that means over whole runs, `NudgeTheorems` what each nudge says and
  what makes it go out, and `BackgroundManager` is the manager's own code, each method proved to
  be one action.
- **Turn streaming.** `TurnLog` holds events, frames and the readings of both; `TurnRun` the
  turn as a fold over its events, with every flush time open; `TurnCounters` the accounting;
  `TurnExecutor` the event loop with its buffers, proved against the fold; `StreamClient` the
  client and the round trip.
- **Configuration.** `ConfigTree` (nested maps, cascade, reset to inherited, model identity),
  `SeedMerge`, `SeedReport` and `SeedTracking` (three-way merge on boot, its report, image rolls),
  `Secrets` (stripping,
  the overlay file, what a load sees).
- **Compaction.** `Compaction` rewrites one thread behind an archive of its transcript. `Passages`
  and `Chunking` split a document for storage (`PassageBoundaries` and `PieceOverlaps` say where and
  with what overlap), `KnowledgeIngest` stores it piece by piece, and
  `CompactionArchive` says what the archive then holds of the history.
- **The rest.** `HistoryCoalescing`; `EventBus` and `EventDelivery`; `CheckpointId`,
  `Retention` (the code) and `RetentionTheorems` (what a prune promises); `FactMemory`,
  `FactDecisions` and `FactInvariants`; `RateLimiter`. `Wrappers`, `Strings`, `Sequences` and `Sets` are shared.

Places where the code does less than its own comments say, each stated exactly:

- A cancel that finds a work job's row running but no task to stop settles the row and
  publishes no completion event (`OneEventPerTerminalWork`, `TerminalWithoutEvent`). It takes a
  work coroutine that was cancelled from elsewhere first (`UnseenCancelNeedsUninvitedUnwind`).
- "Credentials never ride the declarative merge" holds key by key, but a section the live
  document lacks, or still holds exactly as last applied, is taken whole from the seed,
  credential included (`CredentialRidesOnlyAWholeSection`, `CredentialArrivesWithItsSection`).
- A straggler nudge says the remaining jobs "will notify separately"; no nudge about the batch
  is ever sent again, and only the drain delivers them (`StragglerPromiseIsLeftToDrain`).
- A boot-time merge that fails is said to leave the live config as it was. If the snapshot write
  is what fails, the live file has changed already. Whether the next image then arrives at a plain
  leaf, and where it fares otherwise than after an unbroken boot, is stated exactly
  (`NextImageAfterABrokenBoot`, `BrokenBootCostsTheRoll`): it is ignored, for one, where the failed
  boot added or changed the leaf and the next image ships another value, on an unedited volume too
  (`NextImageIsIgnored`). Booting the same image again first repairs it (`RebootRepairs`).
- Compaction is said never to drop history it could not archive. An unforced pass rewrites the
  thread once *some* piece of the transcript is stored (`ArchivesOnSomePiece`); the archive holds
  all pieces if and only if none was skipped and no write raised (`ArchiveIsWholeIffAllLand`), and
  then, with nothing scrubbed, every passage of the transcript (`WholeArchiveHoldsTheTranscript`).
  Any history that has something to archive can be rewritten with a piece missing
  (`RewriteCanMissAPiece`). Even a whole archive holds the lines of the transcript only
  (`LinesAreTheVoices`): the output of a tool ahead of the cut is lost (`CutToolOutputsAreLost`).
- Facts are said to be compared within their namespace; a batch without one is compared with, and
  supersedes, the facts of all (`UnscopedBatchReachesOthers`, `RevisionInTheBand`).

Some promises hold under an exact condition, each proved in both directions, with inputs that
break it:

- Pruning twice equals pruning once, in both tables, if and only if no thread is within the age
  limit by its newest checkpoint and past it by the newest one the cap keeps (`PruneTwice`); a
  second prune then drops exactly those threads (`SecondPruneDropsTurnedThreads`). Canonical ids
  are always fine (`CanonicalPruneTwice`); ids in mixed case need not be (`CapCanAgeAThread`).
- Valid facts stay apart throughout a batch if and only if no fact is added that copies one the
  listing missed (`BatchKeepsFactsApart`). A listing misses nothing exactly when it succeeds with
  at most 500 valid facts (`ListingIsSound`); a failed one makes the batch store a fact twice
  (`FailedListingStoresTwice`).
- A load resolves the same credential before and after a strip if and only if its test for an
  unset overlay value agrees with the strip's (`LoadSeesTheSameSecret`, with the two ways it fails
  in `StripUnmasksTheKey` and `StripDropsTheKey`).
- Resetting a key shows the host's value after a load unless the key is, or is inside, an identity
  key the host loses because the agent still names its model (`ResetAtLoad`,
  `ResetCanLoseTheName`).
- A stream subscriber misses as many events as found its queue full, so it misses none if and only
  if none did (`NothingMissedUnlessFull`, with `OverflowLosesTheOldest`); the whole stream of one
  that joins with a mark is gap-free exactly when, besides, the mark is no further back than the
  ring (`StreamIsGapFree`).

## Model

| member | source | states |
|---|---|---|
| JobTable.TalliesSumToSize | background/store.py:292-336 | for every table and batch key, blank ones included, the four status tallies add up to the batch size |
| BackgroundStore.Store.Create | background/store.py:176-221 | a taken id is refused and changes nothing; otherwise exactly one running row appears, a blank batch key stored as none |
| BackgroundStore.Store.SetTaskId | background/store.py:223-237 | the task handle is filled only while blank, no other row or field changes |
| BackgroundStore.Store.MarkComplete | background/store.py:239-266 | refuses a non-terminal status; reports a transition exactly when the row was running; a terminal row keeps its verdict |
| BackgroundStore.Store.DrainPending | background/store.py:268-290 | returns exactly the settled unannounced rows of the session, each once, oldest completion first, with their contents, and flags exactly those |
| BackgroundStore.Store.ReconcileInterrupted | background/store.py:338-352 | fails every running row with the interruption text, counts them, and touches no other row |
| BackgroundStore.Store.Dismiss | background/store.py:397-412 | true exactly for a settled, undismissed row, which alone is hidden |
| BackgroundStore.Store.DismissFinished | background/store.py:414-428 | hides and counts exactly the settled undismissed rows, of one session or of all |
| BackgroundStore.Store.BatchSize | background/store.py:292-304 | the number of members; zero for a blank key |
| BackgroundStore.Store.BatchOutstanding | background/store.py:306-320 | the number of members still running |
| BackgroundStore.Store.BatchStatusCount | background/store.py:322-336 | one tally of the per-status counts |
| JobHistory.RowKeepsItsCreation | background/store.py:176-221 | after any run a row has the session, the kind and the batch key of the create that first named it, a blank key being none |
| JobHistory.FirstVerdictSticks | background/store.py:239-265 | the first mark or reconciliation that meets a created row settles it for good, with its status, text and time |
| JobHistory.RowHoldsFirstHandle | background/store.py:223-237 | a row's task handle is the first one announced that was not blank |
| JobHistory.DismissedMeansDismissed | background/store.py:397-428 | a row is hidden exactly if some dismissal of it, of its session or of all ran when it had settled |
| JobHistory.DrainReturnsWhatIsOwed | background/store.py:268-290 | a drain returns a job if and only if it drains the job's session, some verdict has been passed on the job and no earlier drain returned it |
| ExactlyOnce.RunIsLater | background/store.py:239-265 | over any run, rows stay, a terminal row never changes verdict, text or completion time, and no flag is ever lowered |
| ExactlyOnce.RowHoldsFirstVerdict | background/store.py:239-265 | after any run a row holds the first terminal status and result in the history, and runs while there is none |
| ExactlyOnce.DrainCarriesFirstVerdict | background/store.py:268-288 | whatever a drain returns carries the job's first verdict |
| ExactlyOnce.AtMostOneDrain | background/store.py:268-288 | no job is returned by two drains of a run |
| ExactlyOnce.NotifiedMeansDelivered | background/store.py:276-288 | the notified flag is up exactly when some drain of the run returned the job |
| ExactlyOnce.ExactlyOnceDelivery | background/store.py:239-288 | over any run of creates, settles, drains, dismissals and reconciliations every job is running, or settled and owed, or delivered by exactly one drain with its first verdict |
| ExactlyOnce.NothingOwedAfterDrain | background/store.py:268-288 | right after a drain every settled report of the session has been handed over by some drain |
| ExactlyOnce.SplitDrainNeedsQuiet | background/store.py:276-288 | with SELECT and UPDATE as two steps, a drain hands over exactly what it flags if and only if it selected nothing or no settle and no other drain of the session ran in between |
| BackgroundManager.Manager.Spawn | background/manager.py:116-154 | one row and one queued turn, nothing else changes |
| BackgroundManager.Manager.SpawnWork | background/manager.py:158-204 | one deterministic row and one work task that a cancel can find |
| BackgroundManager.Manager.FireFails | background/manager.py:401-422 | a delivery error settles the row only if nothing has, and frees the slot |
| BackgroundManager.Manager.RunWorkSettles | background/manager.py:206-229 | frees the slot and settles; publishes and schedules delivery only if this call made the transition |
| BackgroundManager.Manager.RunWorkUnwinds | background/manager.py:214-217 | a cancelled coroutine frees its slot and settles nothing |
| BackgroundManager.Manager.Cancel | background/manager.py:290-319 | which of the five replies is given, what the row becomes, and that only stopping a work task publishes |
| BackgroundManager.Manager.CancelLanded | background/manager.py:337-344 | after the cancel request, settles a row that is still running |
| BackgroundManager.Manager.WorkDone | background/manager.py:201 | a finished work task can no longer be found by a cancel |
| BackgroundManager.Manager.ClaimBatch | background/manager.py:482-491 | true for the first claim of a batch and for no other |
| BackgroundManager.Manager.EnsureBatchTimeout | background/manager.py:526-553 | arms one straggler unless one is armed or the batch has joined |
| BackgroundManager.Manager.CancelBatchTimeout | background/manager.py:555-560 | takes the straggler out of the map and asks a live one to stop |
| BackgroundManager.Manager.ResumeOriginBatch | background/manager.py:562-587 | the nudge quotes the table's size and tallies at that moment |
| BackgroundManager.Manager.ResumeForTerminal | background/manager.py:493-524 | singleton, held, duplicate and last-member cases, with the join state each leaves |
| BackgroundManager.Manager.JoinByLastMember | background/manager.py:518-524 | only the winner of the claim disarms the straggler and nudges |
| BackgroundManager.Manager.Straggle | background/manager.py:537-543 | a waking straggler claims and nudges, or stops if the batch has joined |
| BackgroundManager.Manager.StragglerDone | background/manager.py:553 | the done-callback pops the batch's entry whatever task it names |
| BatchJoinInvariant.ActionKeepsJoin | background/manager.py:482-560 | every action keeps: one honest nudge per joined batch, armed stragglers exactly for unjoined batches, every delivered job accounted for |
| BatchJoinInvariant.ActionKeepsPool | background/manager.py:206-229 | every action keeps: events at most one per work job and only for terminal rows, tasks and rows in agreement |
| BatchJoinInvariant.ActionKeepsSlots | background/manager.py:210 | every action keeps the sum of free slots and slots held |
| BatchJoinInvariant.JobsMoveForward | background/manager.py:116-344 | no action of the manager ever undoes a row, verdict or flag |
| BatchJoinTheorems.OneNudgePerBatch | background/manager.py:482-543 | over every interleaving each batch gets one batch nudge, exactly when it is claimed; tallies add up to the size; a last-member nudge reports none running |
| NudgeTheorems.EveryNudgeQuotesTheTable | background/manager.py:571-587 | every nudge of every run was sent by one action; a batch nudge tells the size of its batch and how many of its jobs were running, completed, failed and canceled, each under its own name, in the state it was sent from, and goes to the session of a delivered job of the batch |
| NudgeTheorems.StepSends | background/manager.py:493-543 | a delivery nudges about its job alone if it is in no batch or alone in it, else about a batch that has not joined; a waking straggler about its own; nothing else sends, and nothing sends two |
| NudgeTheorems.LastMemberDisarms | background/manager.py:518-560 | a last member that joins its batch leaves no straggler armed for it and asks the one that was to stop |
| NudgeTheorems.WhatIsScheduled | background/manager.py:206-229 | a delivery is scheduled exactly by a turn's end the host wants delivered that leaves the row not canceled, and by a coroutine's end that settles its row |
| NudgeTheorems.WhatSettles | background/manager.py:290-422 | the verdict, with its text and time, that each action passes on a running row |
| NudgeTheorems.NothingElseSettles | background/manager.py:116-422 | no other action, and none on another job, settles a row |
| NudgeTheorems.OtherWritesTakeEffect | background/store.py:223-412 | what a drain, a dismissal and an announcement do to each row |
| NudgeTheorems.SpawnsTakeEffect | background/manager.py:116-204 | a spawn adds one running row and a turn or a task for it |
| BatchJoinTheorems.JoinedBatchFallsSilent | background/manager.py:487-491 | once a batch has joined, no later event of the run sends any nudge about it or about one of its jobs |
| BatchJoinTheorems.NoStrandedBatch | background/manager.py:493-560 | in every reachable state each delivered job was nudged alone, or its batch has joined, or a live straggler is armed for it |
| BatchJoinTheorems.ArmedStragglerCanJoin | background/manager.py:537-543 | an armed straggler can always wake, and waking joins its batch and nudges about it |
| BatchJoinTheorems.NudgeNeedsADelivery | background/manager.py:420-422 | a batch joins only on behalf of a member whose delivery ran, so one that only failed to fire or was canceled is never nudged about |
| BatchJoinTheorems.StragglerPromiseIsMade | background/manager.py:577-582 | a reachable straggler nudge that promises one report separately |
| BatchJoinTheorems.StragglerPromiseIsLeftToDrain | background/manager.py:571-587 | after a join no nudge about the batch is ever sent, and a member whose report was not returned by then, every running one included, has it returned after the join, by one drain alone, wherever the run has just drained its session with the job settled |
| BatchJoinTheorems.ManagerRunsAreTableRuns | background/manager.py:116-344 | the table after any interleaving is the run of its table operations alone |
| BatchJoinTheorems.ManagerDeliversExactlyOnce | background/manager.py:116-344 | in every interleaving of the manager a job runs, or is settled and owed, or was returned by exactly one drain with the first verdict passed on it |
| BatchJoinTheorems.OneEventPerTerminalWork | background/manager.py:206-229 | a work job has one completion event if its row is terminal and none if not, in every interleaving, if and only if no cancel found the row running without a task |
| BatchJoinTheorems.UnseenCancelNeedsUninvitedUnwind | background/manager.py:297-315 | that exception needs a work coroutine cancelled by someone other than cancel |
| BatchJoinTheorems.TerminalWithoutEvent | background/manager.py:310-315 | a run in which the exception happens |
| BatchJoinTheorems.SlotsAreBounded | background/manager.py:210 | at most the configured number of jobs hold a slot |
| TurnRun.NoTextIsLost | a2a_impl/executor.py:552-565 | at every prefix, for every flush timing, the streamed chunks plus the buffer are the text of the events |
| TurnRun.NoThoughtIsLost | a2a_impl/executor.py:541-550 | the same for reasoning |
| TurnRun.TextAndToolsInOrder | a2a_impl/executor.py:705-767 | un-batched, the frames show text and tool cards exactly in event order |
| TurnRun.ThoughtsAndToolsInOrder | a2a_impl/executor.py:705-788 | un-batched, the frames show reasoning and tool cards exactly in event order |
| TurnRun.ReasoningLeadsText | a2a_impl/executor.py:702-706 | every chunk comes after all reasoning that precedes any of its text |
| TurnRun.ReasoningOvertakesText | a2a_impl/executor.py:702-788 | an event sends reasoning exactly when it flushes that buffer; at that frame the text sent falls short of the text before the event by the text buffer, so reasoning overtakes text exactly where some is buffered |
| TurnRun.OvertakingRun | a2a_impl/executor.py:779-788 | a run in which text that came first is sent last |
| TurnRun.ChunksBuildOneArtifact | a2a_impl/executor.py:552-565 | the first chunk creates the answer artifact and every later one appends to it |
| TurnRun.BuffersStaySmall | a2a_impl/executor.py:538-539 | fewer than 24 characters stay buffered |
| TurnRun.WhenTextGoes | a2a_impl/executor.py:538-565 | an event sends text exactly if that makes 24 characters, or the buffer is old and not empty, or a tool card is next |
| TurnRun.WhenReasoningGoes | a2a_impl/executor.py:702-706 | an event sends reasoning exactly if its own makes the buffer due, or it is no reasoning and some is buffered |
| TurnRun.ComponentsInOrder | a2a_impl/executor.py:769-777 | each component is shown once, in order |
| TurnCounters.CountersAddUp | a2a_impl/executor.py:720-734 | at the end of any turn the totals are sums over all usage reports, the context reading is the largest lead prompt, tool calls are the distinct ids plus id-less starts, models are distinct |
| TurnCounters.ContextIsThePeak | a2a_impl/executor.py:794-806 | delegated calls never move the context reading |
| TurnCounters.CallsAreDistinctIds | a2a_impl/executor.py:721-732 | a call announced twice counts once |
| TurnExecutor.StopIsTheFirstClosingEvent | a2a_impl/executor.py:689-856 | a turn stops at its first final answer, error or pause, having handled what came before, or else as its stream ends, having handled everything |
| TurnExecutor.HowATurnCloses | a2a_impl/executor.py:816-885 | state, text, error and last frame for each way to stop |
| TurnExecutor.ClosingReadsTheEvents | a2a_impl/executor.py:577-633 | the closing artifact holds the answer, the largest lead prompt with what the last lead call took and gave, and structured output beside an answer; the readout exactly if a prompt was measured |
| TurnExecutor.WhenNothingCloses | a2a_impl/executor.py:623-633 | a turn closes without an artifact exactly if it has no answer, measured no prompt, was given no state delta and spent no tokens |
| TurnExecutor.Turn.FlushReasoning | a2a_impl/executor.py:541-550 | sends the buffered reasoning in one frame and clears it; an empty buffer sends nothing |
| TurnExecutor.Turn.FlushText | a2a_impl/executor.py:552-565 | sends the buffered text as one chunk and clears it only if the send succeeds |
| TurnExecutor.Turn.OnText | a2a_impl/executor.py:708-712 | accumulates, buffers and flushes as one step of the fold |
| TurnExecutor.Turn.OnTool | a2a_impl/executor.py:714-757 | both buffers go out before the tool card; a start is counted once per id |
| TurnExecutor.Turn.OnReasoning | a2a_impl/executor.py:779-788 | reasoning accumulates without flushing the text |
| TurnExecutor.Turn.OnUsage | a2a_impl/executor.py:794-814 | one usage report moves the counters as the fold says |
| TurnExecutor.Turn.HandleEvent | a2a_impl/executor.py:689-814 | any non-terminal event advances the turn by exactly one step of the fold |
| TurnExecutor.Turn.Finalize | a2a_impl/executor.py:577-633 | the closing artifact holds the whole answer and replaces what was streamed; none is sent when it would be empty |
| TurnExecutor.Turn.HandleTerminal | a2a_impl/executor.py:816-852 | done, error and a pause for input close the turn with the frames and the one outcome the fold predicts |
| TurnExecutor.Turn.HandleException | a2a_impl/executor.py:862-885 | whatever sends fail, cancellation records a canceled outcome, stall and crash at most one, failed with their error and shown by its frame; exactly the predicted one when sends succeed |
| TurnExecutor.Turn.Execute | a2a_impl/executor.py:541-885 | a turn records at most one outcome whatever sends fail, and the chunks sent then hold the text of the handled events up to some point and nothing else, the rest of it still buffered, an outcome other than completion carrying both; when all sends succeed exactly one outcome, and the whole frame log is that of the fold; with all sends sound the state, text, error and last frame of its outcome are spelled out for each way to stop; a completed, failed or parked outcome is recorded only behind the frame that says so |
| StreamClient.ConsumeSse | evals/client.py:326-372 | the frame loop computes the reply at the first status that ends the stream, terminal, canceled included, or marked final, under the append and replace rule |
| StreamClient.FindArtifact | evals/client.py:345-348 | the first artifact of that id, or none |
| StreamClient.AnswerSurvivesLoss | evals/client.py:335-354 | for every event log ending in done or end of stream, every flush timing and every part of the streamed frames that arrives, the client holds the answer exactly once and replies with it trimmed |
| StreamClient.CompletedTurnRoundTrip | evals/client.py:293-372 | fed the whole frame log of any turn that completes, the client replies with its outcome, trimmed |
| StreamClient.FailureIsReported | evals/client.py:355-370 | after any frames that do not end the stream, a failure is replied to as failed, its message the last line, whatever follows |
| StreamClient.PauseIsReported | evals/client.py:355-370 | a pause for input is replied to as parked, its prompt the last line |
| StreamClient.ServerStatusIsReported | evals/client.py:355-370 | a server's own status that is terminal or final is replied to in the state it names, its last words last |
| StreamClient.SilentStatusIsReported | evals/client.py:355-370 | one without words leaves the text of the artifacts |
| StreamClient.FailedTurnRoundTrip | evals/client.py:293-372 | fed the frame log of any turn that failed, the client replies that it failed, with the error last, and holds the text the turn had sent: all of it after a stall, all but the unsent buffer after an error or a crash |
| StreamClient.ParkedTurnRoundTrip | evals/client.py:293-372 | the same for a turn paused for input, with its prompt and all its text |
| StreamClient.CanceledTurnRoundTrip | evals/client.py:293-372 | a canceled turn sends nothing to reply to, and the server's own status is replied to as canceled |
| StreamClient.ClosingStreamsTheRest | a2a_impl/executor.py:816-880 | where a turn completes, pauses or stalls, its chunks hold all its text and its frames all its reasoning |
| StreamClient.ErrorStreamsTheReasoning | a2a_impl/executor.py:702-706 | where the producer reports an error, its frames hold all its reasoning |
| StreamClient.MergeTouchesOneArtifact | evals/client.py:338-354 | a frame touches the artifact of its own id and no other; an append puts its parts last, anything else replaces them |
| StreamClient.SnapshotReplaces | evals/client.py:332-334 | a task snapshot replaces all that came before it unless it is empty |
| StreamClient.ClosingReplaces | evals/client.py:338-354 | a non-append artifact replaces whatever arrived under its id |
| StreamClient.LosslessPrefix | evals/client.py:351-352 | with nothing lost, at every prefix the reassembled artifact plus the text buffer is the text so far |
| ConfigTree.DeepMerge | graph/config.py:208-216 | the loop over the overlay computes the recursive overlay of maps |
| ConfigTree.OverlayLeafWins | graph/config.py:208-216 | a leaf the overlay sets wins whatever the base holds |
| ConfigTree.BaseShowsThrough | graph/config.py:208-216 | where the overlay is silent along a path, the lookup is the base's |
| ConfigTree.PopKey | graph/config_io.py:847-868 | walk, delete and pruning of emptied ancestors leave exactly the pruned document; a missing key leaves it alone |
| ConfigTree.PopKeysFromYaml | graph/config_io.py:836-869 | the keys are popped one after the other |
| ConfigTree.PopSilences | graph/config_io.py:861-868 | after a pop nothing is left at the path, no scalar above it and no ancestor emptied by it |
| ConfigTree.OtherLeavesSurvive | graph/config_io.py:861-868 | every leaf not under the popped path keeps its value |
| ConfigTree.ResetFallsBackToHost | graph/config_io.py:841-846 | popping a key the agent sets makes its merged lookup exactly the host's, whatever shapes the two documents have |
| ConfigTree.ResetIsIdempotent | graph/config_io.py:845-846 | resetting the same keys again changes nothing, even when one key is a prefix of another |
| ConfigTree.ResetAtLoad | graph/config.py:68-116 | through a load a reset key reads the host's value, if and only if it is not an identity key, or inside one, that the host has and loses because the agent still names its model |
| ConfigTree.ResetOfAnIdentityKey | graph/config.py:55-89 | resetting name or provider reaches the host's value exactly when the host has none or the agent names no other identity key |
| ConfigTree.ResetCanLoseTheName | graph/config.py:68-89 | a host and an agent for which a load finds no model name after the agent's is reset |
| ConfigTree.DropHostModelIdentity | graph/config.py:68-89 | drops exactly the host identity keys the agent leaves out, and only if the agent names one |
| ConfigTree.ReadConfigDocs | graph/config.py:92-116 | the merged document of a load, with and without a host layer |
| ConfigTree.IdentityMixesOnlyWhenBlank | graph/config.py:55-89 | name and provider come from different documents exactly when the agent carries only blank identity keys, one of them, and the host sets the other |
| ConfigTree.IdentityTravelsTogether | graph/config.py:61-66 | an agent that names its model gets nothing of the host's identity; one that carries none inherits the pair |
| ConfigTree.BlankNameTakesTheHostsProvider | graph/config.py:68-89 | an agent whose name is a text of white space takes the host's provider; with any other text it takes none |
| Strings.SplitJoins | graph/config.py:223 | splitting a dotted key loses nothing and no piece holds a dot |
| SeedMerge.MergeSeedKey | graph/config_io.py:505-524 | one key of the seed: credential, descent, addition, tracking or operator's edit, with its report entry |
| SeedMerge.MergeThreeWay | graph/config_io.py:493-536 | both loops compute the merged document and the report, retractions included |
| SeedMerge.OperatorWins | graph/config_io.py:505-536 | a live leaf that is not the snapshot's value at its path is unchanged, whatever shapes the three documents have |
| SeedMerge.SeedIsFixed | graph/config_io.py:505-536 | a document that already is the seed is left alone with any snapshot or none |
| SeedMerge.RemergeIsIdentity | graph/config_io.py:505-536 | merging the same seed again, against itself as snapshot, changes nothing |
| SeedMerge.ReportTellsChange | graph/config_io.py:579-581 | the report names an addition, update or removal exactly when the document changed |
| SeedReport.EveryEntryIsTrue | graph/config_io.py:505-536 | every entry of the report names a path at which it is true of the live, seed, last applied and merged values: added, updated, kept or removed |
| SeedReport.NothingGoesUnreported | graph/config_io.py:505-536 | at every path the merge reaches, what is true is reported |
| SeedTracking.UntouchedFollowsSeed | graph/config_io.py:505-536 | over an untouched document every credential-free path reads the seed afterwards, dropped leaves gone, except inside a section the seed dropped whole |
| SeedTracking.UntouchedBecomesSeed | graph/config_io.py:530-536 | with no credentials declared an untouched document becomes the seed if and only if the seed drops no map section |
| SeedTracking.ConfigVolume.ApplySeedMerge | graph/config_io.py:539-604 | an empty seed is skipped; the live file is written exactly when it changes; the snapshot is refreshed after it; a failing write of either leaves the files as they were at that point and reports nothing |
| SeedTracking.RebootIsIdentity | graph/config_io.py:577-596 | a second boot of the same image changes neither file |
| SeedTracking.RebootRepairs | graph/config_io.py:579-604 | a boot broken off at either write is repaired by booting the same image again |
| SeedTracking.MergeDecidesByLeaves | graph/config_io.py:505-536 | on a credential-free path along which the three documents hold maps as far as they go, and none at its end, the merge takes the seed's leaf where the live one is missing or as last applied and keeps the live one otherwise, or if the seed lacks its section; the result has the sections of both |
| SeedTracking.NextImageAfterABrokenBoot | graph/config_io.py:579-604 | at such a path, after a boot broken off between the two writes, the next image's leaf arrives if and only if the leaf that boot left is missing, or the image has its section and the leaf is what the old snapshot or the image holds |
| SeedTracking.NextImageByItsLeaves | graph/config_io.py:579-604 | the same by the four leaves alone, where no document lacks a section an earlier one has: on an untouched leaf the broken boot had none or nothing new to apply or the next image ships the same, and on an operator's leaf the image ships that |
| SeedTracking.BrokenBootCostsTheRoll | graph/config_io.py:579-604 | at such a path the next boot ends as after an unbroken one, except exactly where the broken boot left a leaf that either its image or the old snapshot holds, not both, and the next image has the leaf's section and another leaf there, or none |
| SeedTracking.NextImageIsIgnored | graph/config_io.py:579-604 | an unedited volume and two images for which the second does not arrive, and would have after an unbroken boot |
| SeedTracking.BrokenBootPinsItsChanges | graph/config_io.py:579-604 | over any further images and shapes, a leaf changed by a boot whose snapshot was not written survives every roll until some seed ships that very value |
| SeedTracking.RollsTrackTheImage | graph/config_io.py:453-463 | over any sequence of image rolls a path in step with the snapshot reads the latest seed, provided no roll drops or flattens a section on it |
| SeedTracking.UntouchedRollsReplayTheImage | graph/config_io.py:453-463 | a document nobody edits is the latest seed after any rolls of credential-free seeds that drop no section, sections flattened to a scalar included |
| SeedTracking.FreshVolumeIsInStep | graph/config_io.py:593-596 | a volume seeded verbatim is in step everywhere after its first boot |
| SeedTracking.OperatorWinsEveryRoll | graph/config_io.py:456-458 | an operator's leaf survives every roll until some seed ships that very value |
| SeedTracking.CredentialRidesOnlyAWholeSection | graph/config_io.py:507-517 | the live value of a credential changes if and only if its section is taken whole from a seed that differs on it |
| SeedTracking.CredentialArrivesWithItsSection | graph/config_io.py:571-574 | every volume without the section receives the credential of every seed that has it |
| Secrets.SecretsFile.SaveSecrets | graph/config_io.py:1013-1044 | merges key by key; raises on a section that is not a map or a failing write; says in each case what the file holds |
| Secrets.SavedReads | graph/config_io.py:1030-1036 | a save changes exactly the slots it names |
| Secrets.StripSecretsFromDoc | graph/config_io.py:929-989 | both passes leave exactly the document and overlay the specification says, for each way the write can fail |
| Secrets.StrippingLosesNothing | graph/config_io.py:929-989 | the effective credential of every slot is the same before and after, whether the write succeeds, fails, or raises after landing |
| Secrets.StrippingRelocates | graph/config_io.py:945-975 | a credential that is inline and not blank ends up in the overlay, trimmed, unless one that is not blank was there; every other overlay value stays |
| Secrets.EmptyTrimsAway | graph/config_io.py:945-960 | blank are null and the strings that trim to nothing |
| Secrets.StrippingLeavesInline | graph/config_io.py:977-988 | no credential stays inline when no write raises, else exactly the queued ones; other slots keep their values |
| Secrets.StrippingTwice | graph/config_io.py:945-989 | once a write has gone through, stripping again does nothing |
| Secrets.LoadSeesTheSameSecret | graph/config.py:1486-1498 | a load resolves the same credential before and after a strip if and only if the two tests for an unset overlay value agree on a usable inline slot |
| Secrets.StripUnmasksTheKey | graph/config_io.py:957-975 | an overlay value of white space hides the inline key from a load until a strip relocates the key over it |
| Secrets.StripDropsTheKey | graph/config_io.py:957-975 | an overlay value of false lets a load see the inline key until a strip drops it |
| Secrets.SplitSecretUpdates | graph/config_io.py:902-926 | the document half and the credential half of an edit, repeated slots included |
| Secrets.EditRoutesCredentials | graph/config_io.py:902-926 | after split and save a credential slot whose value is a string that does not trim to nothing holds it trimmed in the overlay; every other slot holds what it held, and the document half no credential |
| HistoryCoalescing.Task.CoalesceReasoningHistory | a2a_impl/stores.py:240-328 | the run-accumulating loop and its skipped rewrite compute the message-by-message reference; the count is the drop in length |
| HistoryCoalescing.IncrementalAgreesWithBatch | a2a_impl/stores.py:284-328 | coalescing, appending and coalescing again equals coalescing the whole, up to joining the parts of a reasoning message |
| HistoryCoalescing.SavesCoalesceTheWholeHistory | a2a_impl/stores.py:331-342 | the same over any sequence of saves, failed coalescings included |
| HistoryCoalescing.StoredIsMerged | a2a_impl/stores.py:316-328 | with or without the rewrite the stored history is the reference's and has no two adjacent reasoning messages |
| HistoryCoalescing.NothingToRemove | a2a_impl/stores.py:318-319 | nothing is removed exactly when no two reasoning messages are adjacent |
| HistoryCoalescing.NothingIsLost | a2a_impl/stores.py:259-261 | every other message whole and in its place, every character of reasoning between them |
| HistoryCoalescing.UntouchedMessagesStay | a2a_impl/stores.py:277-287 | a message that is not the agent's, has no part, or has one that is no reasoning is left exactly as it was |
| HistoryCoalescing.RunsKeepTheirHeads | a2a_impl/stores.py:284-316 | one message is left per run, with its first message's identity |
| EventBus.TopicMatches | events/bus.py:43-62 | the segment scan matches exactly the patterns' declarative meaning |
| EventBus.LiteralMatchesOnlyItself | events/bus.py:46-47 | a pattern without wildcards matches its own topic and no other |
| EventBus.MatchesBySegment | events/bus.py:43-62 | segment by segment: `#` takes whatever is left, `*` one segment, any other itself |
| EventBus.WildcardEnds | events/bus.py:46-47 | behind a plain prefix `#` matches the prefix and all below it, `*` exactly one segment below |
| EventBus.HashMatchesBelow | events/bus.py:46-47 | `artifact.#` matches `artifact` and whatever begins with `artifact.` |
| EventBus.PostsOfOne | events/bus.py:116-135 | a publish nobody reacts to is one post |
| EventBus.PostsNest | events/bus.py:116-147 | one more reaction of a handler comes after all before it, with everything it leads to, and only if the handler's pattern matches the topic |
| EventBus.PostsAreNumbered | events/bus.py:116-135 | a sequence of posts is logged in order, each under the next number |
| EventBus.Bus.PublishOnLoop | events/bus.py:116-147 | a publish and all the publishes its handlers make nested inside it leave the state of one flat sequence of publishes, in numbering order |
| EventBus.Bus.Enqueue | events/bus.py:116-135 | numbers, retains if asked, and puts the event on every queue |
| EventBus.Bus.FanOut | events/bus.py:126-135 | a full queue gives up exactly its oldest event; an unbounded one none |
| EventBus.Bus.Subscribe | events/bus.py:165-178 | joins the fan-out and takes its catch-up in the same step |
| EventBus.Bus.Next | events/bus.py:175-179 | the catch-up is read before the queue |
| EventBus.Bus.Close | events/bus.py:180-181 | a reader that leaves takes its queue along and no other |
| EventBus.Bus.SubscribeHandler | events/bus.py:149-155 | a new handler comes last in the order of calls |
| EventDelivery.PublishKeepsInv | events/bus.py:116-135 | every publish keeps numbering, ring, queues and order |
| EventDelivery.QueueIsSuffixSinceJoining | events/bus.py:126-135 | over every interleaving each queue is a contiguous suffix of the events since its subscriber joined, within its limit |
| EventDelivery.SeenInOrder | events/bus.py:173-179 | read, then catch-up, then queued events are strictly increasing, so nothing is seen twice across the seam |
| EventDelivery.NothingMissedUnlessFull | events/bus.py:126-135 | over every interleaving a subscriber misses exactly as many of the events published since it joined as found its queue full, and none if and only if none did |
| EventDelivery.NothingMissedWithinTheLimit | events/bus.py:126-135 | so it misses none without a limit, or while no more than a queue of events has been published since it joined, read or not |
| EventDelivery.OverflowLosesTheOldest | events/bus.py:126-135 | a run in which an event is lost |
| EventDelivery.CatchUpIsCompleteWithinTheRing | events/bus.py:173-177 | the ring holds the newest retained events, and a catch-up is complete if and only if no more than a ring of them follow the mark |
| EventDelivery.StreamIsGapFree | events/bus.py:165-181 | a subscriber that joins with a mark sees all retained events after the mark up to the join, then every event, if and only if the mark is no further back than the ring and no publish since the join finds its queue full |
| CheckpointId.CanonicalReads | graph/checkpoint_prune.py:35-48 | a canonical id is a version 6 UUID whose time is the value of its 15 time digits |
| CheckpointId.CanonicalTime | graph/checkpoint_prune.py:35-48 | a canonical id's time is its tenths of a microsecond since 15 October 1582, as seconds since 1970 |
| CheckpointId.IdOrderIsTimeOrder | graph/checkpoint_prune.py:7-11 | among canonical ids a later id in text order never carries an earlier time |
| CheckpointId.MixedCaseBreaksOrder | graph/checkpoint_prune.py:35-48 | two ids in mixed case for which it fails |
| Retention.IsAged | graph/checkpoint_prune.py:129-132 | the newest datable checkpoint decides; a thread with none is never aged |
| Retention.CheckpointDb.FindAgedThreads | graph/checkpoint_prune.py:51-67 | exactly the aged threads |
| Retention.Beyond | graph/checkpoint_prune.py:148-155 | the ids past the greatest ones |
| Retention.CheckpointDb.CapNamespace | graph/checkpoint_prune.py:148-165 | deletes exactly the stale checkpoints of one namespace and their writes, and counts them |
| Retention.CheckpointDb.CapThread | graph/checkpoint_prune.py:140-165 | the same over all namespaces of a thread |
| Retention.CheckpointDb.DropAged | graph/checkpoint_prune.py:123-136 | deletes exactly the aged threads with all their writes, and counts them |
| Retention.CheckpointDb.PruneCheckpoints | graph/checkpoint_prune.py:101-170 | checkpoints, writes and both counts after a prune |
| Retention.LatestCount | graph/checkpoint_prune.py:148-155 | a namespace keeps as many ids as the cap, or all if there are no more |
| Retention.LatestAreTheGreatest | graph/checkpoint_prune.py:148-155 | every id kept is greater than every id removed |
| RetentionTheorems.SurvivorsAreTheLatest | graph/checkpoint_prune.py:138-165 | after a prune each surviving namespace holds exactly its greatest ids, the latest always among them |
| RetentionTheorems.EachThreadKeepsItsCap | graph/checkpoint_prune.py:138-165 | in a namespace of a thread that the age limit leaves, as many of the greatest ids survive as its cap, never less than one, or all: the background cap, if there is one, for a thread that begins with `a2a:background:`, the plain one for any other |
| RetentionTheorems.WholeThreadsGoByAge | graph/checkpoint_prune.py:124-136 | a thread goes whole exactly if there is an age limit, something in it can be dated and nothing is dated at the limit or later |
| RetentionTheorems.CountsAreOfWhatIsGone | graph/checkpoint_prune.py:121-167 | the two counts of a prune are of the threads that are gone and of the checkpoints gone from the others |
| RetentionTheorems.WritesFollowTheirCheckpoints | graph/checkpoint_prune.py:133-164 | a write goes exactly when its checkpoint goes |
| RetentionTheorems.CanonicalIdsAreDateOrdered | graph/checkpoint_prune.py:7-11 | within a thread canonical ids are in the order of their dates |
| RetentionTheorems.DateOrderKeepsTheDate | graph/checkpoint_prune.py:7-11 | ids in the order of their dates meet the condition below |
| RetentionTheorems.CapKeepsAges | graph/checkpoint_prune.py:51-67 | the cap leaves a thread's age as it was for every cutoff if and only if each date of the thread is matched by one within the cap that is no earlier |
| RetentionTheorems.SecondPruneDropsTurnedThreads | graph/checkpoint_prune.py:121-167 | a second prune at the same time drops, from both tables, exactly the threads the first one's cap took past the age limit |
| RetentionTheorems.PruneTwice | graph/checkpoint_prune.py:121-167 | pruning again changes nothing if and only if there is no such thread, and then the writes stay as well |
| RetentionTheorems.CanonicalPruneTwice | graph/checkpoint_prune.py:7-11 | with canonical ids the cap changes no thread's age and a second prune nothing |
| RetentionTheorems.AgedThreadsAreDropped | graph/checkpoint_prune.py:51-67 | the threads found aged are exactly the ones a prune drops |
| RetentionTheorems.CapCanAgeAThread | graph/checkpoint_prune.py:138-165 | with ids in mixed case a second prune can drop a thread the first one kept |
| Compaction.SafeCutIndex | graph/compaction_op.py:50-89 | for any history the index the scans arrive at |
| Compaction.CutNeverStartsAtAResult | graph/compaction_op.py:80-89 | for any history the tail never starts at a tool result, and is shorter than asked only when nothing asked for that block |
| Compaction.CutIsTheLargestSafeOne | graph/compaction_op.py:51-61 | over a well-formed history the cut is the largest index that keeps enough and orphans no tool result |
| Compaction.TailIsWellFormed | graph/compaction_op.py:25-30 | a tail orphans no tool result exactly when it does not start at one |
| Passages.SegmentsShow | knowledge/chunking.py:81-143 | breaking a text into passages drops nothing but white space, and each passage is trimmed and within the limit |
| PassageBoundaries.SpaceSeparatesWords | knowledge/chunking.py:122-140 | white space separates words |
| PassageBoundaries.SolidIsOneWord | knowledge/chunking.py:122-140 | and nothing else does |
| PassageBoundaries.SentenceEnds | knowledge/chunking.py:22-25 | a sentence ends at the white space behind a full stop, an exclamation or a question mark |
| PassageBoundaries.OneSentence | knowledge/chunking.py:22-25 | and nowhere else |
| PassageBoundaries.ParagraphEndsAtBlankLine | knowledge/chunking.py:22-24 | a paragraph ends at a blank line, of which only white space is kept on either side |
| PassageBoundaries.OneParagraph | knowledge/chunking.py:22-24 | and nowhere else |
| PassageBoundaries.WhenAPartIsDone | knowledge/chunking.py:104-119 | an item joins the part being filled exactly if both fit the limit |
| Chunking.HardSplit | knowledge/chunking.py:122-143 | the loop packs words up to the limit and cuts longer ones into windows |
| Chunking.SplitOversized | knowledge/chunking.py:96-119 | the loop packs sentences up to the limit and splits longer ones harder |
| Chunking.Segment | knowledge/chunking.py:81-93 | the loop yields the passages of all paragraphs in order |
| Chunking.ChunkText | knowledge/chunking.py:28-78 | the loop fills pieces with passages, repeats the overlap and folds a short last piece back |
| Chunking.PiecesHoldTheText | knowledge/chunking.py:35-46 | for any sizes, the passages are the text up to white space and every one of them is whole in some piece |
| Chunking.PiecesAreBounded | knowledge/chunking.py:35-46 | no piece is longer than the limit and an overlap together, but for a last one that took a short one in |
| PieceOverlaps.WhenAPieceIsDone | knowledge/chunking.py:60-72 | a passage joins the piece being filled exactly if both fit the limit; else the next piece is the end of that one, if it is longer than the overlap, and the passage |
| PieceOverlaps.TailIsTheEnd | knowledge/chunking.py:146-157 | the repeated end is not empty, no longer than the overlap, and begins at a word unless the overlap lies within one |
| PieceOverlaps.LastPieceIsNotThin | knowledge/chunking.py:74-77 | the last of several pieces is never shorter than the least size |
| KnowledgeIngest.Store.AddChunk | knowledge/store.py:487-536 | a piece that is blank, or blank once scrubbed, gets no id; another gets one exactly when the database takes it |
| KnowledgeIngest.Store.AddDocument | knowledge/store.py:562-619 | the loop skips what does not land, ends at a write that raises and leaves what was stored before it |
| KnowledgeIngest.SomeRowIffSomeLands | knowledge/store.py:601-619 | some row is added exactly when some piece lands |
| KnowledgeIngest.AllRowsIffAllLand | knowledge/store.py:601-619 | there are as many rows as pieces exactly when every piece lands |
| KnowledgeIngest.RowsHoldTheirPieces | knowledge/store.py:601-619 | and each row then holds its piece |
| KnowledgeIngest.EachPieceAddsItsRow | knowledge/store.py:601-619 | unless a write raises, each piece adds its scrubbed text behind the rows of those before it, if it is not blank and the database takes it |
| KnowledgeIngest.FirstRaiseEndsIt | knowledge/store.py:601-619 | the first write that raises ends it with the rows of the pieces before |
| Compaction.RenderTranscript | graph/conversation_harvest.py:27-50 | the loop renders the lines of the messages that say something |
| Compaction.WhatALineSays | graph/conversation_harvest.py:36-46 | a line names who said what, trimmed; tool results and blank messages have none |
| Compaction.TranscriptsJoin | graph/conversation_harvest.py:36-50 | lines keep the order of their messages |
| Compaction.LinesJoin | graph/conversation_harvest.py:47-50 | and stand on lines of their own |
| Compaction.WhatIsKept | graph/compaction_op.py:139-140 | the caller's number, or the configured one; never less than zero |
| Compaction.Thread.ArchiveHistory | graph/compaction_op.py:145-191 | which rows are stored, what the code takes for an archive, and which of the four refusals an unforced pass gives without one |
| Compaction.Thread.Rewrite | graph/compaction_op.py:202-246 | the new thread: the note, its lead followed by the summary or, only if forced without one, the stub, and the safe tail |
| Compaction.Thread.Compact | graph/compaction_op.py:106-273 | untouched or rewritten to a note and the safe tail; the note ends in the summary where there is one, and in the stub exactly if forced without one, and its lead is that of an archived transcript exactly if there was an archive; the case each refusal reports; unless forced the latter exactly when the archive write stored some piece and did not raise and there is a summary; which rows are stored in every case; kept plus removed is the length; shorter exactly from a cut of two |
| CompactionArchive.ArchivesOnSomePiece | graph/compaction_op.py:166-191 | a pass takes its history for archived exactly when some piece of the transcript lands |
| CompactionArchive.ArchiveIsWholeIffAllLand | graph/compaction_op.py:21-24 | the archive holds every piece if and only if no piece is skipped and no write raises |
| CompactionArchive.WholeArchiveHoldsTheTranscript | graph/compaction_op.py:13-15 | with no piece missing and nothing scrubbed, every passage of the transcript is whole in some row, and the passages are the transcript up to white space |
| CompactionArchive.RewriteCanMissAPiece | graph/compaction_op.py:21-24 | for any history with something to archive, a store at which an unforced pass rewrites the thread with a piece missing |
| CompactionArchive.LinesAreTheVoices | graph/conversation_harvest.py:36-46 | the transcript has the line of every message that says something, and no other |
| CompactionArchive.CutToolOutputsAreLost | graph/conversation_harvest.py:36-46 | histories that differ in tool outputs ahead of the cut leave the same rows and the same thread |
| Compaction.RewriteIsWellFormed | graph/compaction_op.py:25-30 | a rewrite of a well-formed thread is well-formed |
| Compaction.NothingToCut | graph/compaction_op.py:73-87 | a thread longer than asked for whose cut is zero |
| FactMemory.ConsolidateAndStore | graph/memory_facts.py:108-176 | the loop computes the fold over the batch: best match, skip, supersede, insert |
| FactMemory.BestIsGreatest | graph/memory_facts.py:151-152 | the match chosen has the greatest score and is the latest that does |
| FactDecisions.WhatAFactDoes | graph/memory_facts.py:149-175 | with a best match at 0.85 or more nothing is stored; from 0.6 on the match stops being valid, if the store does that; below, nothing is given up; rows, candidates and counts in each case |
| FactDecisions.WhatAFirstFactDoes | graph/memory_facts.py:149-175 | with nothing to compare with the fact is added, if the store does that |
| FactDecisions.JaccardIsTheShare | graph/memory_facts.py:102-105 | the score is the share of the words of either text that are words of both |
| FactDecisions.WordIsItsToken | graph/memory_facts.py:98-99 | a word is its own token, in lower case |
| FactDecisions.SeparatorsSeparate | graph/memory_facts.py:98-99 | anything that is no letter, digit, underscore or apostrophe separates words |
| FactInvariants.BatchKeeps | graph/memory_facts.py:149-175 | whatever the listing missed and whatever the store carries out, the facts a batch can see stay apart and those it cannot see stay the same |
| FactInvariants.FactKeepsApart | graph/memory_facts.py:149-175 | one fact keeps all valid facts apart if and only if it is not added or copies nothing the listing missed |
| FactInvariants.BatchKeepsFactsApart | graph/memory_facts.py:149-175 | valid facts stay apart throughout a batch if and only if no fact is added that copies one the listing missed at its start |
| FactInvariants.CompleteListingKeepsFactsApart | graph/memory_facts.py:141-175 | so after a complete listing no batch makes two facts near-duplicates |
| FactInvariants.CountsAddUp | graph/memory_facts.py:149-175 | for any listing, valid rows change by added less superseded; added plus skipped is the batch less at most the failed additions |
| FactInvariants.RowsAreKept | graph/memory_facts.py:122-127 | for any listing, no row is deleted or edited; rows stop being valid only in scope: in the batch's namespace, or anywhere if it has none |
| FactInvariants.ListingIsSound | graph/memory_facts.py:141-146 | any listing, failed ones included, is a sound start, and it misses nothing exactly when it succeeds within its limit of 500 or there are no valid facts |
| FactInvariants.FailedListingStoresTwice | graph/memory_facts.py:141-146 | after a failed listing a fact the namespace already holds is stored a second time |
| FactInvariants.UnscopedBatchReachesOthers | knowledge/store.py:851-853 | a batch without a namespace supersedes a fact that a namespace holds and stores the revision in none |
| FactInvariants.RevisionInTheBand | graph/memory_facts.py:97-105 | texts similar enough to supersede and not to be skipped: any two letters as words, and the same with a third |
| RateLimiter.Limiter.Check | enforcement/rate_limiter.py:27-44 | an action without a limit is always allowed; otherwise the decision and the kept list are those of the run of checks |
| RateLimiter.Limiter.Reset | enforcement/rate_limiter.py:46-51 | forgets one action; without a name, or with an empty one, all |
| RateLimiter.WindowIsNeverExceeded | enforcement/rate_limiter.py:27-44 | for any clock that does not run backwards every half-open interval of the window's length holds at most the limit of allowed calls |
| RateLimiter.RefusedExactlyAtTheLimit | enforcement/rate_limiter.py:41-42 | a check is refused exactly when the window ending now holds the full limit |
| RateLimiter.KeptAgreesWithLog | enforcement/rate_limiter.py:38-39 | the pruned list agrees with the full log of allowed calls |

## Left out

- Restart of the process: the manager's in-memory sets and tasks are those of one process lifetime; only the store's reconciliation is modelled.
- The server's terminal hook: it settles rows and asks for deliveries as actions of the environment, with the decision to deliver left open.
- The order in which waiters get a semaphore slot: any waiting task may be next.
- Elapsed time: the age of a buffer, a straggler's sleep and a stall show only as choices of the environment.
- SQLite, files and HTTP: tables are maps and sets, a file is its parsed content, a send succeeds or fails; the write-ahead log, vacuuming and schema migration are not modelled.
- ConfigTree.DeepMerge: nested maps are values, so updating a map in place through an alias is not captured; the same holds for SeedMerge.MergeThreeWay, ConfigTree.PopKey and Secrets.StripSecretsFromDoc. Key order and comments of a document are not modelled.
- ConfigTree.Blank: equality and emptiness across number and truth values (`1 == True`) are not modelled; YAML keys are strings.
- SeedMerge.MergeThreeWay: the report is a set of entries; the order and repetition of its lists is not modelled.
- Secrets.SecretsFile.SaveSecrets: an overlay file that cannot be read or parsed counts as empty, as the loader reports it; permissions are not modelled.
- TurnExecutor.Turn.Execute: a send that raises has not sent; one that raises after its frame has landed is not modelled, and the text kept would then be in a chunk and in the buffer. A turn's durations, traces, attached images and progress hooks are not modelled, nor what a structured answer is made of.
- StreamClient.ConsumeSse: frame decoding, task ids and cost metadata are not modelled.
- EventBus.Bus.PublishOnLoop: rerouting of publishes from other threads, and handlers that raise, are not modelled; asynchronous handlers publish later as separate publishes.
- HistoryCoalescing.Task.CoalesceReasoningHistory: of a reasoning part, everything but its text is one opaque tag.
- CheckpointId.UuidBits: the `urn:` and braced spellings of a UUID are not modelled, nor the digits grouped by underscores and the digits of other scripts that Python's integer parser takes.
- Retention.CheckpointDb: deleting one thread with its goal iterations, and reclaiming space, are simple deletes that would add only easy members.
- Compaction.Thread.Compact: how an assistant's text is cleaned, and a piece scrubbed, are left open; the summarizer and its prompt are not modelled, and the wording of the note's lead and of the stub is left open; a message whose content is not plain text is taken for one that says nothing.
- KnowledgeIngest.Store.AddDocument: embeddings, and how a piece's context is made, are not modelled; a plug-in store that takes a document in one write is not either.
- FactMemory.Tokens: words are of ASCII letters and digits; thresholds are compared on reals, where the program compares floating-point quotients of small integers.
- FactMemory.ConsolidateAndStore: which 500 rows a listing returns, of more than that, is an input.
- RateLimiter.Limiter.Check: time is real, not floating point.
- Request authentication, prompts, middleware, plug-in discovery, knobs, delegations and the field-by-field parse of the configuration: wiring, or easy members.
