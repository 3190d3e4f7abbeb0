# Store-and-forward: a verified model

The agent receives syslog datagrams, appends each as one JSON line to a spool file named after the
UTC day, and forwards the lines in batches to a collector. A saved offset says how far forwarding has
got; a janitor deletes and compresses old files; the collector removes duplicates by batch id and by
event key. This project models that pipeline and proves what it promises: that no line is lost
silently, that the collector ends up with every line once and in order, that the counters balance, and
exactly where such a promise stops holding.

## How it is built

Three levels describe the same spool.

* **Bytes.** `Spool.Spool` is the Go object with its fields; its methods are `OpenSpool`, `Append`,
  `readBatch`, `Commit`, `Sizes` and `Cleanup` as they update those fields, on files that are byte
  sequences. `Scanning` holds the chunked loops over file content, `Cleaning` the specification of
  deletion, counting and compression, `OffsetStore` the atomic write of the offset file, and `TornReads`
  one file while it is being written, truncated and read at the same time.
* **Lines.** `SpoolModel` defines `Rest(dir, p)`, what a reader at position `p` has still to pass over
  all plain files, for any unit of content. `SpoolBytes` shows that the bytes after a position hold
  exactly the lines after the matching line position (`UnreadRefines`).
* **Runs.** `Pipeline` is a step machine: receiver, forwarder, janitor, network and collector, with a
  kill possible at any step. `PipelineInvariant` and `PipelineTheorems` carry the per-step proofs,
  `PipelineRuns` the theorems about whole runs, `PipelineCounters` what the counters count in terms of the
  actions, `PipelineLosses` the runs that their conditions exclude. `Removals` ties the machine's removals
  to those of `Cleaning`.
  There an entry of a file is the index of a line in `history`, the list of all lines ever appended.

`Collector` is the database's two tables, `MockServer` the in-memory server that must answer alike,
`Forwarder` the batching loop and the delivery loop over a real `Spool` object, `Backoff` the waiting
times, `Follow` the `tail` command, and `Syslog` the parser.

Some names: a *day* is the number of a file's date, and 0 is the empty name; `committed`, `inflight` and
`curName` are the Go fields; `Later(p)` is the later of `committed` and `inflight`; a batch is *settled*
when the collector has accepted it or it is in a dead-letter file.

### Hypotheses

They are written into the definitions the theorems use.

* A crash is a process kill: bytes already written stay, possibly with a torn last line. A kill can come
  before any step, and a read of the offset file at start-up may fail (`Start(readable)`), which leaves
  the file as it is.
* `ClockFit`: at the first open of a run the newest file ever used still exists or the clock shows a
  later day. Within a run the clock may do anything.
* `CleanupFit`: a removal does not hit the writer's file. The code checks that against the name that
  `Cleanup` looked up when it began; `PipelineInvariant.StaleNameOnly` shows that this can only go wrong
  when that name is out of date: empty, or older than the writer's with an age limit past the writer's.
* `KillsFit`: see the first two findings. This one is not assumed away: `SafeExactlyWhenKillsFit` shows it
  is the exact condition.
* The truncate after a failed write works, and in the pipeline all lines are valid JSON and not blank.
  `Spool.Spool.ReadBatch` and `Cleanup` are proved for arbitrary lines.
* Batch ids are fresh, and the agent id is written in lower case (`Uuid(me) == me`).
* The reader's pass over one file is one step of the pipeline. `TornReads` opens that step up.

### Findings

These are results about the code as it is.

* **A kill can lose a batch in flight.** If `Cleanup` deletes a file while a batch from it is being
  delivered, its lines are not counted as dropped, because the batch will still be sent. If the agent is
  killed before the collector answers, they are in no file, no request and no counter
  (`PipelineLosses.KillMidDeliveryLoses`).
* **A kill can lose a count.** The number of unread lines that `Cleanup` has deleted reaches the dropped
  counter only after it has returned, when all files are compressed. If the agent is killed before that,
  those lines are nowhere either (`PipelineLosses.KillMidCleanupLoses`). `PipelineTheorems.KillSafe` and
  `PipelineRuns.SafeExactlyWhenKillsFit` give the exact condition for both.
* **An offset file that cannot be read is ahead of memory.** A start that fails to read it begins from the
  empty position and leaves the file; until it is written again, a later start may resume further on
  (`PipelineLosses.UnreadableOffsetAhead`). No line is lost by that, because what lies before the saved
  position is settled. `PipelineRuns.BehindExactlyWhenRead` gives the exact condition.
* **A torn line can be read.** A reader that takes bytes of a line whose write then fails, and goes on
  after the truncate, hands out the old beginning with the end of the next line. `TornReads.TornRead`
  gives the run; `TornReads.FaithfulExactly` says that it goes wrong exactly when the next line does not
  begin with the torn bytes and they are handed out. The positions returned stay line ends all the same.
* **`removeLocked` and the reader disagree** on a saved offset past the end of its file: the count takes
  the file as read, the reader would start it over (`Cleaning.CountedVanish`). So does `Sizes`
  (`Cleaning.BacklogIsRest`).
* **A failed fsync in `Append` is reported as a failed write** although the line is in the spool: the
  contract of `Spool.Spool.Append` says when `ok` is false with the line written. So datagrams received
  less write errors is the number of lines in the spool exactly if no fsync has failed
  (`PipelineRuns.ReceivedAddsUp`).
* **`lastLines` falls short** when the log ends in blank lines (`Scanning.BlankEndFails`); it is right
  exactly when `SawEnough` holds.
* **`tail` passes over a file** when two new ones appear between two polls; it is right exactly when
  those in between hold no lines (`Follow.TailExactly`); `Follow.TailPassesOver` is a run where it is not.
* **The mock and the database differ** on an `event_id` that is not a string (`MockServer.NumberIdsDiffer`)
  and when two agents use the same batch id (`SharedBatchDiffers`). `SameReplyExactly`,
  `SharedBatchExactly` and `SameRepliesExactly` say exactly when their answers are the same.
* **The parser accepts a sign** in the priority (`Syslog.SignedPriority`) and in the PID
  (`Syslog.SignedPid`), as `Atoi` does.

## Model

| member | source | states |
|---|---|---|
| PipelineRuns.NoLoss | internal/agent/forwarder.go:103-187 | in every run whose kills are fit, a line that will not be read again from `committed` or from the saved offset, and is neither in flight nor in the count of a `Cleanup` that has not returned, is in the events table, in a dead-letter file or counted as dropped |
| PipelineRuns.SafeExactlyWhenKillsFit | internal/agent/spool.go:374-450 | all states of a run account for every line if and only if no kill comes while an unsettled line is in memory alone: in flight or in `Cleanup`'s count, with its file gone |
| PipelineTheorems.KillSafe | internal/agent/agent.go:199-204 | a kill in a safe state leaves a safe state if and only if every line in flight or in `Cleanup`'s unreported count is settled or still in a file |
| PipelineLosses.KillMidDeliveryLoses | internal/agent/spool.go:424-428 | a run in which a line is lost by a kill in mid-delivery, and stays lost in every continuation |
| PipelineLosses.KillMidCleanupLoses | internal/agent/agent.go:199-204 | a run in which a line that `Cleanup` has counted is lost by a kill before the count is reported, and stays lost in every continuation |
| PipelineLosses.LostForever | internal/agent/forwarder.go:103-181 | a line that is nowhere never reaches the collector, a dead letter or a count again |
| PipelineRuns.ExactlyOnceInOrder | internal/collector/store.go:49-98 | while nothing is dead-lettered or taken by `Cleanup`, the agent's event keys in insertion order are the distinct keys of a prefix of the append history, late and repeated requests, new batch boundaries after restarts and unreadable offset files included |
| PipelineTheorems.ServeOrdered | internal/collector/store.go:66-80 | serving any posted batch, old or new, moves that prefix forward or leaves it |
| PipelineTheorems.FinishGapless | internal/agent/spool.go:191-222 | a batch handed over by the reader skips no unsettled line before its last one |
| PipelineRuns.Conservation | internal/agent/agent.go:199-204 | left at start + appended = forwarded + dead-lettered + dropped + settled and not yet counted + removed by a `Cleanup` that has not reported + in flight + unread after `Later`, in every state of every run |
| PipelineRuns.ReceivedAddsUp | internal/agent/agent.go:156-197 | since the last start `received` counts the datagrams, `writeErrors` those whose append failed, be it only at the fsync, `appended` those whose line went into the spool and `unsynced` those of them not synced; so received less write errors is the number of lines that went in if and only if no fsync has failed |
| PipelineCounters.ForwarderCounts | internal/agent/forwarder.go:134-167 | since the last start `forwarded` is the number of lines in the batches accepted and `deadLettered` that in the batches rejected, but for the one batch just settled and not yet counted |
| PipelineTheorems.BalanceStep | internal/agent/spool.go:421-450 | every step keeps that balance, removals in mid-delivery included |
| PipelineRuns.ReaderSkipsNothing | internal/agent/spool.go:191-222 | what the reader hands over, read file by file while files grow and new ones appear, is the head of the unread lines as they are at the end of the read, and what follows its position is the remainder; the writer's file is the newest; a batch that is not full is handed over only if that is allowed |
| PipelineInvariant.AppendReader | internal/agent/spool.go:195-213 | an append in mid-read leaves the reader's view right: a file it may leave for a newer name is not written again |
| PipelineInvariant.NextFileKeeps | internal/agent/spool.go:210-213 | moving to the next name of the old listing skips no line |
| PipelineInvariant.RemoveKeeps | internal/agent/spool.go:374-407 | deleting any file that is not the writer's keeps every thread's invariant |
| PipelineInvariant.StaleNameOnly | internal/agent/spool.go:376-396 | the code's check lets the writer's file through only when the name looked up is out of date |
| PipelineInvariant.CompressKeeps | internal/agent/spool.go:412-415 | a file compressed without the lock lies before `committed` and is one no reader or writer opens any more |
| PipelineInvariant.AppendKeeps | internal/agent/spool.go:87-137 | an append, also a failed or half-done one, keeps the whole invariant |
| PipelineInvariant.StructureStep | internal/agent/spool.go:52-69 | every step of every thread keeps the invariant |
| PipelineTheorems.NetStep | internal/collector/store.go:49-81 | the lines of every batch the collector has recorded are in its events table, whatever is in the network |
| PipelineTheorems.SafeStep | internal/agent/forwarder.go:103-187 | every step but an unfit kill keeps all lines accounted for |
| PipelineTheorems.BelowStep | internal/agent/spool.go:271-282 | every step keeps the lines before the saved offset settled, so that a start from it or from the beginning is safe |
| PipelineRuns.NothingGoesBack | internal/agent/spool.go:273-282 | within a run neither the committed position nor the writer's file ever goes back |
| PipelineRuns.OffsetRecovery | internal/agent/spool.go:284-298 | whatever the kills, the saved offset is the empty position or one the agent had committed in memory; it is not ahead of the one in memory once a start has read it or it has been written again |
| PipelineRuns.DiskExactly | internal/agent/spool.go:273-282 | the saved offset is the position in memory at the last write of it that worked, over any run |
| PipelineRuns.BehindExactlyWhenRead | internal/agent/spool.go:284-298 | in all states of a run the saved offset is not ahead of memory if and only if every start reads what is saved |
| PipelineLosses.UnreadableOffsetAhead | internal/agent/spool.go:284-298 | a run in which it is ahead |
| OffsetStore.Store.WriteFileAtomic | internal/agent/spool.go:607-634 | a kill or failure at any step leaves the file with the old or the new data whole; done means new, an error means old; it is done exactly if no step that can fail does and no kill comes |
| OffsetStore.Store.WriteAll | internal/agent/spool.go:607-634 | over any history of writes and kills the file holds one of the data written, never one older than the last write that was done |
| OffsetStore.LastDone | internal/agent/spool.go:607-634 | if the last write was done, a restart finds exactly its data |
| Spool.Spool.constructor | internal/agent/spool.go:71-80 | every plain file is cut to the longest beginning of complete lines, and both positions are the one in the offset file, or the empty one if it holds none |
| Spool.Spool.RepairTails | internal/agent/spool.go:319-336 | of each plain file exactly the longest beginning that ends in a newline stays, compressed files are untouched |
| Spool.Spool.OpenLocked | internal/agent/spool.go:114-137 | the file opened is the later of the day and the newest there is; a failed open leaves the writer closed and its name as it was |
| Spool.Spool.Append | internal/agent/spool.go:87-112 | the file written is the later of the day and the newest there is; a full write ends the unread lines of every position not past it, a failed open or a short write changes no one's unread lines; the error after a full write is that of the fsync |
| Spool.Spool.WriteLine | internal/agent/spool.go:100-111 | a short write is truncated away without a trace; a full one counts towards the fsync, made for every hundredth |
| Spool.Spool.ReadBatch | internal/agent/spool.go:191-222 | there are increasing indices into the complete lines passed after `committed` such that the i-th record is the line at the i-th index without the CR and NL at its end, not empty and valid, and every other line passed is blank or not valid without them; exactly the lines not passed follow the returned position; at most `max` records, fewer only if nothing is left; a refused short batch or a failed read leaves `inflight` as it was |
| Spool.ReadFiles | internal/agent/spool.go:191-214 | the loop over one listing passes the first unread lines, going forward from line end to line end, and takes the records of those; it ends with the maximum or with nothing unread |
| Spool.ReadNext | internal/agent/spool.go:199-211 | a missing file means the start of the next one; the lines passed and those left still make up the whole |
| Spool.ReadFrom | internal/agent/spool.go:224-263 | reading stops at the maximum or when no complete line is left; an offset past the end starts the file over; the new records are the bodies of exactly those lines passed that are neither blank nor damaged |
| Spool.KeepRecord | internal/agent/spool.go:251-261 | a line adds its body without CR and NL at the end if that is not empty and valid, and nothing otherwise |
| Lines.RecordsSelected | internal/agent/spool.go:251-261 | the records of any lines are the bodies of the lines at some increasing indices, each not empty and valid, and every line at another index is blank or damaged |
| Lines.TrimIsBody | internal/agent/spool.go:252 | what is left after trimming is the one beginning of the line that does not end in CR or NL and is followed by those only |
| Spool.Spool.Commit | internal/agent/spool.go:273-282 | memory moves even if the offset file cannot be written, and `inflight` is not left behind; if it was written, a start from it resumes at that position |
| Spool.Spool.Sizes | internal/agent/spool.go:301-314 | the total is the size of all files, the backlog the one `Cleaning.BacklogIsRest` relates to the reader |
| Spool.Spool.RemoveLocked | internal/agent/spool.go:421-450 | the file is gone unless it cannot be removed; the count is the lines that vanish from the unread ones, 0 if it stays |
| Spool.CountUnsent | internal/agent/spool.go:428-440 | the count of a file against a position, from the start, from the offset, or none |
| Spool.Spool.Expire | internal/agent/spool.go:382-392 | a file is left if and only if its day is not before the cutoff, or it is the writer's, or it cannot be removed; those left keep their order; all that vanishes is counted |
| Spool.Spool.Shrink | internal/agent/spool.go:393-407 | the oldest files go as long as the total is over the limit, and it ends within the limit unless the oldest left is the current one or cannot be removed; within the limit from the start none goes |
| Spool.Spool.Compress | internal/agent/spool.go:452-492 | after success the compressed form is there and the original is not, unless it could not be removed; after a failure all is as before; no content is lost, no other file is touched, no later reader notices |
| Spool.Spool.Cleanup | internal/agent/spool.go:374-418 | the three loops together: what is left by age, in order, then by size, then compressed file by file as each attempt ended, and a count equal to the lines that vanish from the unread ones; if no file is before the cutoff and the total is within the limit, nothing is deleted and nothing counted |
| Cleaning.CountedVanish | internal/agent/spool.go:428-436 | the count of a removal equals the number of vanished lines if and only if the offset does not lie past the end of a file that is not empty |
| Cleaning.RemovalKeeps | internal/agent/spool.go:421-450 | removing any file but the writer's keeps the writer's file in place and counts what is gone |
| Cleaning.RetainedMember | internal/agent/spool.go:382-392 | a file is retained if and only if its day is not before the cutoff, or it is the plain file of the current name, or it cannot be removed |
| Cleaning.RetainedInOrder | internal/agent/spool.go:382-392 | the files retained stood in the listing at increasing indices, and exactly the files that must stay are among them |
| Removals.RemovedMay | internal/agent/spool.go:382-407 | whatever file a `Cleanup` of any directory takes away, by age or by size, is one the step machine's janitor may remove |
| Removals.MayBeRemoved | internal/agent/spool.go:382-407 | and every file it may remove goes in the `Cleanup` of some directory with that cutoff and current name |
| Cleaning.CurrentSurvives | internal/agent/spool.go:382-400 | neither deletion ever takes the file the writer has |
| Cleaning.CompressKeeps | internal/agent/spool.go:452-492 | the original or its compressed form is there afterwards, and all other files are as before |
| Cleaning.CompressedExactly | internal/agent/spool.go:452-492 | which files of its day are there after each way compressing can end, an older compressed form included; those of other days are as before |
| Cleaning.SqueezedUnread | internal/agent/spool.go:408-415 | compressing what lies before `committed` takes no line from anyone |
| Cleaning.BacklogIsRest | internal/agent/spool.go:301-314 | the backlog is the byte length of all that is unread if and only if the offset is not past the end of a file that is not empty |
| Cleaning.BacklogMatchesReader | internal/agent/spool.go:301-314 | with deliverable lines the backlog is 0 exactly when a read returns nothing |
| Cleaning.AppendBacklog | internal/agent/spool.go:107 | an append adds exactly the line's length to the backlog |
| Cleaning.CommitBacklog | internal/agent/spool.go:273-282 | a commit takes from the backlog exactly the bytes passed, which came first |
| Scanning.CompleteLength | internal/agent/spool.go:339-369 | -1 exactly for complete content, otherwise one past the last newline, for any size |
| Scanning.CutIsRepaired | internal/agent/spool.go:328 | cutting there leaves exactly the complete lines |
| Scanning.RepairIsLongest | internal/agent/spool.go:319-336 | what repair leaves is the longest beginning that is empty or ends in a newline |
| Scanning.RepairKeepsLines | internal/agent/spool.go:319-336 | repairing loses no complete line, and repairing twice is repairing once |
| Scanning.CountLines | internal/agent/spool.go:583-604 | counting newlines in chunks counts the complete lines from the offset on, none when it is past the end |
| Scanning.LastLines | internal/agent/logging.go:131-168 | the last `n` lines of the log without the CR and NL at its end if and only if the backward scan saw enough newlines |
| Scanning.NoBlankEnd | internal/agent/logging.go:145-160 | it always did when the log does not end in blank lines |
| Scanning.BlankEndFails | internal/agent/logging.go:145-160 | a log with blank lines at its end of which too little is seen |
| Scanning.SplitConcat | internal/agent/logging.go:160-163 | all pieces of the last part of a text but its first come out as they do for the whole text |
| Scanning.SplitJoin | internal/agent/logging.go:160-163 | the pieces hold no newline, and joined by newlines they are the text again |
| Lines.LinesOfAppend | internal/agent/spool.go:245-250 | after complete content, lines are read as they would be alone |
| Lines.LinesRebuild | internal/agent/spool.go:245-250 | the lines of a complete file, one after another, are the file |
| Lines.BreaksCountLines | internal/agent/spool.go:594-598 | the number of newlines is the number of complete lines |
| SpoolBytes.UnreadRefines | internal/agent/spool.go:191-263 | the bytes after a position hold exactly the lines after the matching line position, over all files |
| SpoolBytes.RecordsRefine | internal/agent/spool.go:251-261 | the records taken in bytes are those of the lines left at line level |
| SpoolBytes.GrowRefines | internal/agent/spool.go:100-107 | a line appended in bytes is one entry appended at line level |
| Cleaning.WithoutRefines | internal/agent/spool.go:441 | a file removed in bytes is that file removed at line level |
| Cleaning.CountedRefines | internal/agent/spool.go:424-440 | the lines counted in bytes are as many as the removal takes at line level |
| Cleaning.OnLineGrows | internal/agent/spool.go:100-107 | a position at the end of a line stays one when a line is appended |
| SpoolBytes.CreatedKeeps | internal/agent/spool.go:127-136 | a new empty file takes its place in the listing and changes no one's unread content |
| SpoolBytes.WriteEndsUnread | internal/agent/spool.go:100-107 | a line written to the newest file ends the unread lines of positions up to that file, and of no others |
| SpoolModel.RestGrow | internal/agent/spool.go:100-107 | content added to the newest file is seen at the end if and only if the position is not past that file |
| SpoolModel.RestSuffix | internal/agent/spool.go:38-43 | what is left after a later position is the end of what was left after an earlier one |
| TornReads.NoTornReads | internal/agent/spool.go:241-261 | in particular, if no truncate cuts bytes that the reader holds, the reader returns exactly the whole lines between where the read began and its position |
| TornReads.FaithfulExactly | internal/agent/spool.go:100-106 | all lines returned at every moment of a run are whole lines if and only if, whenever a failed write cuts bytes that the reader holds, the line written there next begins with them or a new read begins before they are handed out |
| TornReads.PositionsStay | internal/agent/spool.go:100-106 | whatever the interleaving, a returned position is the end of a line that stays, and no truncate cuts below it |
| TornReads.TornRead | internal/agent/spool.go:100-106 | a partial write, a truncate and the next line give the reader a line nobody appended, unless the torn bytes begin that line |
| Collector.PostgresStore.SaveEvents | internal/collector/store.go:49-81 | one transaction: on success the new tables and counts that add up to the request, on any failing statement the old tables; an agent whose id differs in more than the case of hexadecimal letters has its keys and replies as before, and a request with the same batch id from the same agent, in letters of either case, is then a replay |
| Collector.UuidExactly | internal/collector/migrations/001_init.sql:10-18 | two agent ids are one if and only if they are equally long and differ in the case of hexadecimal letters only |
| Collector.EventKeyExactly | internal/collector/store.go:83-98 | two events have one key if and only if both have the same identifier, or neither has one and receive time and hash agree |
| Collector.SeenExactly | internal/collector/store.go:55-61 | after any requests one is a replay if and only if the same agent has sent one with its batch id before |
| Collector.RowsExactly | internal/collector/store.go:62-77 | after any requests every row has the agent, batch id, event and key of a request and an event of it, and every event of a request that was no replay has a row |
| Collector.EachSaved | internal/collector/store.go:49-81 | a request changes no other agent's keys and replies, and makes any further one with its batch id from its agent a replay |
| Collector.SavedKeys | internal/collector/store.go:66-77 | a request adds the agent's new keys, each once, in order of first occurrence, and nothing for others |
| Collector.FirstSeenContents | internal/collector/migrations/001_init.sql:26 | deduplicating loses no key and repeats none |
| Collector.AllConsistent | internal/collector/migrations/001_init.sql:9-28 | after any requests event keys are unique per agent and every event row has its batch row |
| Collector.AcceptedAddsUp | internal/collector/store.go:77-80 | the accepted counts of all replies add up to the number of event rows |
| Collector.ReplayAddsNothing | internal/collector/store.go:55-61 | a replayed request changes nothing, and its events under another batch id add no event row, whatever came in between |
| MockServer.Server.HandleEvents | internal/mockserver/mockserver.go:214-261 | the reply, the new state and statistics that add up |
| MockServer.HandledExactly | internal/mockserver/mockserver.go:230-261 | more than 10000 events are refused, a known batch id gives duplicates only, and any other request adds its id and one entry for each key that is new, with the fields of an event of it |
| MockServer.SameKeys | internal/mockserver/mockserver.go:290-301 | two regular events have the same mock key exactly when they have the same agent and the same database key |
| MockServer.SameStep | internal/mockserver/mockserver.go:236-261 | one request keeps mock and database in the same state and gets the same counts from both |
| MockServer.SameReplies | internal/mockserver/mockserver.go:236-261 | mock and database answer every sequence of regular requests with the same counts if no two agents share a batch id |
| MockServer.SameReplyExactly | internal/mockserver/mockserver.go:236-261 | in any two states and for any request, non-text ids included, the answers are equal if and only if the request has as many new distinct keys for one as for the other |
| MockServer.SharedBatchExactly | internal/mockserver/mockserver.go:241-246 | with the same events on both sides a regular request gets equal answers if and only if its batch id is known to both or to neither, or it holds nothing new |
| MockServer.SameRepliesExactly | internal/mockserver/mockserver.go:236-261 | a whole sequence of regular requests gets equal answers if and only if that holds at each of them |
| MockServer.SharedBatchDiffers | internal/mockserver/mockserver.go:241-246 | two agents with the same batch id: the mock takes the second request for a replay, the database does not |
| MockServer.NumberIdsDiffer | internal/mockserver/mockserver.go:290-301 | two events with the same numeric id: the mock accepts both, the database one |
| Forwarder.Forwarder.Receive | internal/agent/agent.go:156-197 | a line lands exactly if a file is open for it or can be opened and the write is full, and then it ends the unsent records; the append reports an error exactly if it did not land or its fsync failed; a report of success is what is notified |
| Forwarder.Forwarder.ReceiveAll | internal/agent/forwarder.go:44-51 | of any datagrams, those that landed end the unsent records in order, every other one had an open or a write that failed, and when the pending ones make a full batch the loop is woken |
| Forwarder.Forwarder.Try | internal/agent/forwarder.go:116-172 | one attempt, over the response itself: a status from 200 to 299 counts the batch as forwarded, one from 400 to 499 other than 429 as dead-lettered if the dead letter is written, and both commit it; with no connection, any other status or a failed dead letter position, offset file and counters stay and the wait is the one of a 429 with a delay, or the next of the backoff; an ended context changes nothing |
| Forwarder.Forwarder.Deliver | internal/agent/forwarder.go:103-181 | every attempt made posts the same batch id and events, none before the last was answered with such a status, and position, offset file and counters change exactly as the answer to the last one says; how many waits there are, and each one: the delay of a 429, or the backoff after as many draws as there were other failures before it |
| Forwarder.UndictatedWaits | internal/agent/forwarder.go:127-172 | waits of which none is dictated are consecutive waits of the backoff, so that their bounds hold |
| Forwarder.WaitsExactly | internal/agent/forwarder.go:127-172 | the waits of failed attempts one by one: the delay of a 429, or the backoff after as many draws as there were other failures before it |
| Forwarder.Forwarder.Read | internal/agent/forwarder.go:76-91 | a short batch comes only when allowed, and a read tells whether less than a batch was unread |
| Forwarder.Forwarder.Send | internal/agent/forwarder.go:93-97 | settled and unread records still make up the whole after a delivery, however it ends; after a batch is settled its lines are no longer pending |
| Forwarder.Forwarder.HandOver | internal/agent/forwarder.go:76-98 | a read that may be short hands over all that is unread, up to a batch; one that may not hands over a full batch or nothing |
| Forwarder.Forwarder.Run | internal/agent/forwarder.go:53-100 | each turn has its read, until the context ends, and what arrived in the turns begun has landed unless an open or a write failed; it blocks only after a read that failed or found less than a batch, and only while the interval since the last send has not passed; a read hands over all that is unread, up to a batch, at start-up and once the interval has passed, and else a full batch or nothing; the start-up read happens once; settled and unread records always make up the initial unread ones and what has landed since, in order, and the counters count the settled ones; no fewer lines are pending than were appended and not settled |
| Backoff.Backoff.Next | internal/agent/backoff.go:23-31 | the wait is 0.8 to 1.2 times 1, 5, 15, 30 and then always 60 seconds, linear in the random number |
| Backoff.FirstWaitsGrow | internal/agent/backoff.go:15-38 | whatever the jitter, the first five waits after a reset strictly increase |
| Backoff.LaterWaits | internal/agent/backoff.go:15-38 | all later ones lie between 48 and 72 seconds |
| Backoff.TotalWait | internal/agent/backoff.go:15-38 | `n >= 5` waits add up to between 0.8 and 1.2 times 111 + 60(n - 5) seconds |
| Follow.TailRead | internal/agent/cli.go:375-396 | all complete lines from the offset on are printed and counted, a torn one is left; an offset past the end starts over |
| Follow.ReadKeeps | internal/agent/cli.go:375-396 | a read prints the head of what the reader has before it, no line of it twice |
| Follow.SwitchExactly | internal/agent/cli.go:350-356 | going on to a newer file leaves nothing out if and only if no file with lines lies in between |
| Follow.TailExactly | internal/agent/cli.go:335-363 | at every moment of a run the lines printed and those still before the reader are the lines appended since the start, each once and in order, if and only if every switch is such |
| Follow.CatchesUp | internal/agent/cli.go:335-363 | left alone, from any state between polls, the reader follows the newest file and has nothing left to print after at most two polls |
| Follow.TailPrintsAll | internal/agent/cli.go:335-363 | then what is printed is a prefix of what was appended, and all of it once nothing is left to read |
| Follow.TailPassesOver | internal/agent/cli.go:350-356 | a run in which two files appear between polls and a line is never printed |
| Syslog.RoundTrip | internal/agent/parser.go:37-85 | a message printed in the format of section 4.1 of RFC 3164 is parsed back field by field without error |
| Syslog.PartsParsed | internal/agent/parser.go:37-85 | any message of a priority in range, a timestamp, a host and a tag gives a result with these fields, whatever follows |
| Syslog.ParsedParts | internal/agent/parser.go:37-85 | conversely, any message that gives a result consists of those parts, with the fields taken from them |
| Syslog.AcceptedExactly | internal/agent/parser.go:37-85 | a message gives a result if and only if it has such parts, is free of error if and only if its payload is an object too, and otherwise has the error for that |
| Syslog.StampErrors | internal/agent/parser.go:45-55 | after a priority field the first of number, timestamp field and timestamp that is not good gives the error |
| Syslog.TagErrors | internal/agent/parser.go:57-75 | a tag without a colon, empty or with a blank is no program, one whose PID is no number gives that error, and every other one a result |
| Syslog.PayloadExactly | internal/agent/parser.go:78-83 | a payload is taken if and only if, without the white space at both ends, it begins with a brace and is valid JSON |
| Syslog.TrimExactly | internal/agent/parser.go:78 | trimming removes exactly the white space at both ends |
| Syslog.DigitsAreDec | internal/agent/parser.go:45 | any digits are zeros and the decimal form of the number they are read as |
| Syslog.PriorityOf | internal/agent/parser.go:45-48 | what stands between the angle brackets is a priority exactly if Atoi gives a number from 0 to 191 |
| Syslog.PriorityBack | internal/agent/parser.go:38-48 | every priority from 0 to 191 is read back, with what follows it |
| Syslog.SignedPriority | internal/agent/parser.go:45-48 | every number with a plus sign that there is room for is read as the one without; of the negative ones only -0 is accepted |
| Syslog.SignedPid | internal/agent/parser.go:66-71 | a PID may have either sign |
| Syslog.TagBack | internal/agent/parser.go:62-75 | program and PID are read back from the tag |

## Left out

- UDP sockets, the HTTP client, TLS, the proxy and gzip bytes: a post is an outcome, compression an uninterpreted function.
- HTTP routing, authentication, field validation and the fault injection of the mock: shallow branches before the modelled handlers. The database and the mock are modelled from a valid request on.
- `json.Valid`, `time.Parse`, SHA-256 and JSON encoding are parameters or fields; `MarshalRecord` gives a line with one newline at its end.
- Follow.TailPrintsAll: starts at a line end; a start in the middle of a line that is being written prints its tail, or the whole file again after the truncate.
- Pipeline.Apply: the reader's pass over one file is one step, and so is an append with the update of the receiver's counters. A file is opened and created in one step, so a failed stat after it appears only in the `Spool` class.
- Pipeline.DoAppend: the step machine numbers lines and the `Spool` class holds their bytes; that every method of the class simulates a step of the machine is shown for what is unread, appended, removed and counted, not as one simulation theorem.
- Spool.Spool.Append: the truncate after a failed write is taken to work; the error of a failing `fsync` on a change of files is ignored as in the code.
- Spool.Spool.RemoveLocked: an I/O error while counting lines, after which the code removes the file with the count so far, is not modelled.
- Spool.Spool.RepairTails: files that cannot be opened or truncated are not modelled.
- Spool.Spool.Cleanup: looks up the current name in the same step; in the pipeline the name may be out of date. Retention of dead-letter files and log messages are not modelled; a file whose size cannot be read while listing is not modelled.
- Forwarder.Forwarder.Deliver: a dead-letter write is done or not done; one that fails half-way is not modelled. The delay of a `Retry-After` header is arbitrary.
- Forwarder.Forwarder.Run: cleanups during the loop are not modelled here but in the pipeline; what arrives during a delivery is appended before the next read; the script of turns is finite.
- Backoff.Backoff.Next: exact arithmetic instead of floating point cut to nanoseconds.
- Syslog.TrimExactly: `TrimSpace` removes ASCII spaces only, not the other Unicode ones; the byte values of a Go string are characters.
- TornReads.NoTornReads: one file, whose reads may begin at the end of any line; the 256 KiB limit of the reader's buffer is not modelled, a fill may take any number of bytes.
- `BuildRecord` beyond the parser, redaction, `status.json`, heartbeats, configuration, installers and service registration: presentation, or state outside the spool.
- Power loss, after which a file may be shorter than the saved offset, and wall-clock latency.
- `newUUIDv7`: batch ids are fresh by hypothesis.
