# Verified model of the ChordV node agent and its neighbours

This project models, in Dafny, the parts of the repository whose correctness depends on whole runs:
crashes between two writes, power losses, commands delivered twice or out of order, uploads that
repeat, chunks cut anywhere. Each part is written in the form of its source (classes and loops where
the source changes things step by step, functions where it computes), every method is proved against
a specification function or property, and the theorems are about every run or every input.
`dafny verify dfyconfig.toml` checks all of it.

## What is in it

| files | component |
|---|---|
| `InboundHelper`, `InboundRuns`, `InboundRules` | the root helper that deploys the Xray inbound with a journal, and what each request to it leaves behind |
| `IdentityReset`, `ResetRuns`, `ResetBoots`, `ResetDeletions` | identity and state resets across process crashes and power losses, and exactly which boots are safe |
| `AgentTables`, `AgentStore` | the agent's database as tables, and as the object whose methods are its transactions |
| `Metering`, `RowRules` | conservation of metered traffic, quota and offline allowance, and what happens to a single row |
| `UploadQueue` | sequence numbers, acks, watermarks, and exactly-once billing with the receiver |
| `EndToEnd` | metering, queue and receiver as one system: what the counters grew by is what is billed or still queued |
| `Commands`, `CommandProcessor`, `CommandRuns`, `CommandRules` | user commands as effects, the code that performs them, what holds over every delivery order, and the outcome of each kind |
| `Reconciliation`, `EmailConflicts` | reconcile, and exactly when UNIQUE(email) stops it |
| `Runner`, `StateMutation` | config refresh, recovery, sampling, the command handler, and the serialising promise chain |
| `ShadowComparison`, `ShadowReport`, `ShadowCounts` | the restart-aware shadow comparison, and what its counts mean |
| `SseFraming` | both incremental event-stream framers |
| `Ipv6Text`, `Ipv6Parsing`, `AddressScope` | both IPv6 parsers and the internal and public address tests |
| `WorkLifecycle` | the drain protocol of the API process |

How crashes are modelled: a method of the helper or the command processor keeps a ghost `trace` of its
effects (file writes, restarts, table updates), its contract says which effects happen in which order,
and a crash is any prefix of them. On disk, every directory entry has a list of versions: the last is
visible, a sync keeps only it, a power loss picks any one. A durable write is a rename and, later, a sync
of its directory; crashes and power losses may fall between them.

Outside values are parameters or nondeterministic choices: the host's answers (`Host`), Xray calls that
may throw, the clock of a drain, what happens between two polls, which file versions survive. Hashing
and key derivation are injective functions, JSON text is its contents, integers that the source reads
as BigInt are `nat`.

## Results that differ from what one might expect

- **A reset is atomic only if each boot finds its journal entry durable.** Neither a resume nor a boot
  syncs the journal's directory first. If the process died between the rename and the directory sync of
  the journal write, a power loss during the resume can drop the journal and keep a move of any one
  file: the reset is torn with nothing to resume it. `ResetBoots.SettledBootIsExact`: for any two files
  the reset is to move, that boot is safe if and only if the journal entry is durable.
- **A finished reset can lose an archive if its journal's deletion is not durable.** A power loss brings
  the journal back, and the resume archives a new file over the old archive. It is enough that the new
  file has been renamed into place before any sync of the journal's directory, so it makes no difference
  whether credentials and database share a directory. `ResetDeletions.SettledDeletionIsExact`: the archive
  of a file is safe from a boot on if and only if the deletion is durable or the file is the credentials,
  whose successor is written only after the pending secret and a sync of that directory.
  `ResetBoots.KilledBeforeSync` and `ResetDeletions.KilledBeforeLastSync` show that both unsettled states
  are reached.
- **Framing is chunk-independent exactly for streams without CR CR LF** (`SseFraming.ChunkIndependenceIsExact`);
  streams whose every CR is followed by LF are among them.
- **reconcile can fail on distinct emails.** Upserts come before deletions, so two users that swap
  emails conflict (`Reconciliation.SwappedEmailsConflict`). `EmailConflicts.ConflictsExactly` gives the
  condition a caller can check, in both directions, for every list.
- **A refresh that preserves local disables can keep a locally disabled user's email live** under another
  user's uuid. `Runner.DisabledEmailLiveIff`: it does if and only if the last snapshot user with that email
  is enabled and not itself locally disabled. Two users under one email can do it
  (`Runner.SharedEmailStaysLive`), but distinct emails do not exclude it (`Runner.MovedEmailStaysLive`).
- **An ENSURE or ENABLE at the stored row's own revision changes Xray but not the store**, because the
  upsert is skipped at an equal revision (`CommandRuns.EnsureInstalls` has the exact condition,
  `CommandRuns.SameRevisionDiverges` an input).

- **An offline allowance of zero disables a user that recovery does not recognise.** Offline, such a user is
  cut off by the first sample even if it has used nothing and has quota left, but counts neither as out of
  quota nor as over its allowance. `RowRules.UsageDisabledIffCutOff`: every other row a sample has cut off
  is recognised, and no row that was switched off for another reason.

## Model

| member | source | states |
|---|---|---|
| `InboundHelper.Helper.PublishAndRestart` | apps/node-agent/src/xray-apply.ts:698-715 | Success exactly when the restart works and the port, if any, listens; the writes and restarts made are those of the plan, in order, with the previous file back in place after a failure. |
| `InboundHelper.Helper.PublishJournalled` | apps/node-agent/src/xray-apply.ts:665-678 | The pending record comes before the publication, and the committed record or the previous state file after it. |
| `InboundHelper.Helper.DeployInbound` | apps/node-agent/src/xray-apply.ts:546-691 | The effects and the answer of an ensure request are those of the plan, through every refusal and both no-op branches. |
| `InboundHelper.Helper.ClearInbound` | apps/node-agent/src/xray-apply.ts:520-544 | The effects and the answer of a reset request, including nothing-to-clear and the restored record after a failure. |
| `InboundHelper.Helper.ApplyRequest` | apps/node-agent/src/xray-apply.ts:487-691 | Status, reset and ensure each do exactly their plan. |
| `InboundRuns.DeployTrail` | apps/node-agent/src/xray-apply.ts:657-715 | Config file, record and running Xray after each of the four or six effects of a deployment, failed publications and their rollback included. |
| `InboundRuns.AttemptKeepsInv` | apps/node-agent/src/xray-apply.ts:533-543 | One attempt, killed anywhere, keeps the invariant: a record is that of the request that produced it, and unless it is pending the config file is exactly the rendering of that very request. |
| `InboundRuns.EveryRunKeepsInv` | apps/node-agent/src/xray-apply.ts:657-678 | The same after every run of ensure, reset and status requests with failures, and crashes between any two effects; the producer is the last ensure that got past its journal write and did not live to roll it back. |
| `InboundRuns.RerunSettles` | apps/node-agent/src/xray-apply.ts:630-678 | From any crash state, re-running a request to success leaves a committed record and the file it implies. |
| `InboundRuns.ThrowLeavesFiles` | apps/node-agent/src/xray-apply.ts:535-541 | An attempt that throws and lives leaves both files exactly as they were; Xray too, once the rollback restart works. |
| `InboundRuns.AnswerDescribesDisk` | apps/node-agent/src/xray-apply.ts:581-690 | Every successful ensure reports the public key, short id, port and listen address of the file on disk, both no-op branches included; a status probe then reports the same. |
| `InboundRuns.ResetClears` | apps/node-agent/src/xray-apply.ts:507-544 | After a successful reset nothing is deployed, status says so, and a second reset does nothing. |
| `InboundRuns.NonRotatingRunKeepsKeys` | apps/node-agent/src/xray-apply.ts:624-648 | Over every run of non-rotating ensures with failures and crashes, the Reality keys of the record, and of the file that serves them, never change. |
| `InboundRuns.RedeliveryKeepsKeys` | apps/node-agent/src/xray-apply.ts:620-625 | Once a command's record is in the state file, pending or not, no redelivery of that command changes the pair, even a rotating one. |
| `InboundRuns.CrashedRotationIsRecorded` | apps/node-agent/src/xray-apply.ts:665-667 | A rotation that got as far as its journal write is recorded with the pair it chose, so the redelivery law applies to it. |
| `InboundRules.NoOpIsForTheSameInbound` | apps/node-agent/src/xray-apply.ts:168-179 | An ensure answered without effect, other than the recorded command again, has the tag, port, dest, server names, flow, fingerprint and spiderX of the request that produced the record, and asks for no rotation. |
| `InboundRules.AnswerIsAsRequested` | apps/node-agent/src/xray-apply.ts:606-689 | Every successful ensure that is no redelivery reports, and has on disk, the port, tag and server names it asked for. |
| `InboundRules.ForeignTagsAreSafe` | apps/node-agent/src/xray-apply.ts:550-563 | A tag of another fragment, an unreadable fragment or a refused fallback ends the request before any effect. |
| `InboundRules.SuccessMeans` | apps/node-agent/src/xray-apply.ts:606-689 | A success without effects found Xray serving; one with effects passed the config test, port and listen checks, restarted and listens, with file, record and Xray exactly as asked, the fallback pinned, and a new key pair exactly when there was none or a rotation is new. |
| `InboundRules.DeployableSucceeds` | apps/node-agent/src/xray-apply.ts:645-689 | A host that can take the inbound succeeds whatever the files held. |
| `InboundRules.RefusedWithoutEffect` | apps/node-agent/src/xray-apply.ts:645-677 | Only a failed restart or a port that does not listen makes a failing ensure have effects. |
| `InboundRules.EnsureAgainDoesNothing` | apps/node-agent/src/xray-apply.ts:606-643 | The same ensure again, a rotation only as the same command, gets the same answer and has no effect while Xray serves. |
| `InboundRules.OldRecordsStillAnswer` | apps/node-agent/src/xray-apply.ts:581-643 | A committed record without listen, port, fallback and server name answers for the IPv4 file it stands beside. |
| `InboundRules.ResetSucceedsIff` | apps/node-agent/src/xray-apply.ts:520-544 | A reset succeeds exactly if there is nothing to clear or the empty fragment passes the test and Xray restarts, and then nothing but the empty fragment is on disk and loaded. |
| `InboundRules.StatusSeesAnyTrace` | apps/node-agent/src/xray-apply.ts:495-518 | Status changes nothing and says deployed for any record, pending or not, and any fragment but the empty one. |
| `IdentityReset.ResetAgent.ArchiveWithStamp` | apps/node-agent/src/credentials.ts:56-76 | The disk afterwards is that of the renames followed by a sync of every directory covered; the answer lists the files found. |
| `IdentityReset.ResetAgent.ArchiveFiles` | apps/node-agent/src/credentials.ts:78-90 | Journal, archive, drop the journal, sync: exactly the instructions of the reset program; the answer lists the files that were there, in order. |
| `IdentityReset.ResetAgent.WriteFileDurable` | apps/node-agent/src/durable-write.ts:18-36 | The rename, then the sync of the directory: the new content is the one version left, archives kept. |
| `IdentityReset.ResetAgent.FinishInterruptedReset` | apps/node-agent/src/credentials.ts:106-127 | Without a journal nothing happens; with one, exactly its files are resumed under its stamp. |
| `ResetRuns.ReportsWhatWasThere` | apps/node-agent/src/credentials.ts:57-63 | The files a reset reports as archived are those that were there before it, in order. |
| `ResetRuns.ProgramStep` | apps/node-agent/src/credentials.ts:56-90 | Each instruction of a reset takes the disk from one stage to the next: which files moved, which directories are durable, what the journal says. |
| `ResetRuns.GoodRunKeepsInv` | apps/node-agent/src/credentials.ts:56-127 | The invariant holds after every run of resets, renames, syncs, crashes and power losses, also ones between the rename and the sync of a write, whose boots find the journal settled and whose resets take a fresh stamp. |
| `ResetRuns.AllOrNothing` | apps/node-agent/src/credentials.ts:65-89 | Whatever a power loss leaves at any step of a reset either still names it in the journal, consists of versions from before it with none of its moves, or shows all of them. |
| `ResetRuns.ResumptionReachesFinal` | apps/node-agent/src/credentials.ts:119-123 | Resuming from any mixture of moved and unmoved files reaches the layout of an uninterrupted reset, under the same stamp, journal gone. |
| `ResetRuns.FinalKeepsContent` | apps/node-agent/src/credentials.ts:94-103 | A completed reset keeps every archive and every live content; files it does not cover are untouched, so a state-only reset keeps the credentials live. |
| `ResetRuns.MoveLosesIff` | apps/node-agent/src/credentials.ts:58-64 | A rename loses content exactly when the stamp's archive name already holds something else. |
| `ResetRuns.ArchivesAreForever` | apps/node-agent/src/credentials.ts:56-127 | Over every such run, no crash, power loss, reset, rename or sync loses an archived content. |
| `ResetDeletions.OverwritingRun` | apps/node-agent/src/durable-write.ts:28-31 | From a deletion of the journal not yet synced, the run of a rename of a new file, a power loss before its sync and the resume that overwrites the archive, for every file but the credentials and with one directory or two. |
| `ResetDeletions.GuardedForever` | apps/node-agent/src/credentials.ts:201-222 | Over every run with fresh stamps, settled boots or not, an archive keeps its content once its reset is gone for good; that of the credentials even while its journal may come back, because new credentials come after the pending secret and its sync. |
| `ResetDeletions.SettledDeletionIsExact` | apps/node-agent/src/credentials.ts:87-89 | After a finished reset, the archive of a file is safe from a boot on, whatever the later boots find, if and only if the deletion of the journal is durable or the file is the credentials. |
| `ResetDeletions.KilledBeforeLastSync` | apps/node-agent/src/credentials.ts:87-88 | A process killed between the deletion and its sync leaves exactly that state, from any state without a journal, unsynced files included. |
| `ResetBoots.NeverTorn` | apps/node-agent/src/credentials.ts:106-123 | From a durable journal on, no run at all, settled boots or not, ever shows one file of the reset moved and another not without a journal naming it. |
| `ResetBoots.SettledBootIsExact` | apps/node-agent/src/durable-write.ts:28-35 | Booting on the journal of a reset not begun never leaves one file moved and another, durably created one not, whatever later boots find, if and only if that journal entry is durable. |
| `ResetBoots.KilledBeforeSync` | apps/node-agent/src/durable-write.ts:28-31 | A process killed between the rename of the journal and its sync leaves exactly that state, from any state without a journal. |
| `AgentStore.Store.InitializeBoot` | apps/node-agent/src/store.ts:203-209 | The boot becomes current; a boot seen before keeps its next sequence number. |
| `AgentStore.Store.AdvanceConfigRevision` | apps/node-agent/src/store.ts:270-273 | The revision becomes the larger one; nothing else changes. |
| `AgentStore.Store.ApplyConfigSnapshot` | apps/node-agent/src/store.ts:288-298 | Stale below the current revision, conflicted on UNIQUE(email), applied otherwise; the first two change nothing. |
| `AgentStore.Store.ReplaceDesiredUsers` | apps/node-agent/src/store.ts:300-309 | Upserts in order, then the deletion of every row not named, then the config revision; a conflict rolls everything back. |
| `AgentStore.Store.UpsertDesiredUser` | apps/node-agent/src/store.ts:322-347 | Ignored at an old revision, refused on a taken email, otherwise written with counters and offline usage kept. |
| `AgentStore.Store.UpdateQuota` | apps/node-agent/src/store.ts:349-354 | New quota and revision and offline usage reset, unless the row is newer. |
| `AgentStore.Store.SetUserEnabled` | apps/node-agent/src/store.ts:356-361 | The switch and the revision, unless the row is newer. |
| `AgentStore.Store.HasUsageDisabledUsers` | apps/node-agent/src/store.ts:384-390 | The scan of the rows finds one exactly if some disabled row has no quota left or a used-up offline allowance. |
| `AgentStore.Store.RestoreBackendConfirmedUsers` | apps/node-agent/src/store.ts:392-406 | The rows named by the backend, restored one after the other. |
| `AgentStore.Store.RecordSample` | apps/node-agent/src/store.ts:408-467 | Rows, ledger entries and disabled emails of the whole sample, and one batch under the boot's next number if anything was metered. |
| `AgentStore.Store.MeterRow` | apps/node-agent/src/store.ts:419-448 | The generation rises, by one, exactly if the row is initialized and a counter read is below the stored one; the counters read are stored; deltas are zero, the whole counters or the differences accordingly. |
| `AgentStore.Store.AckThrough` | apps/node-agent/src/store.ts:476-485 | Exactly the boot's batches up to the number go, and the answer counts them. |
| `AgentStore.Store.PendingBatchWatermarks` | apps/node-agent/src/store.ts:491-501 | Each boot with pending batches, with its highest pending number. |
| `AgentStore.Store.BeginCommand` | apps/node-agent/src/store.ts:507-519 | The stored result exactly if the command completed, changing nothing; otherwise the row is open. |
| `AgentStore.Store.CompleteCommand` | apps/node-agent/src/store.ts:521-524 | The result is recorded on an existing row and nothing else changes. |
| `Metering.ObserveConserves` | apps/node-agent/src/store.ts:419-447 | One observation, a rollback or a first sight included, keeps the conservation law of its row. |
| `Metering.StepConserves` | apps/node-agent/src/store.ts:322-467 | Samples, upserts, snapshots, quota writes, switches, restores and deletions all keep the law for every row. |
| `Metering.Conservation` | apps/node-agent/src/store.ts:408-467 | Over every run, per row and direction: all deltas ever batched add up to the current counter plus the last counter of every earlier generation minus the first-seen baseline. |
| `Metering.QuotaLaw` | apps/node-agent/src/store.ts:430-438 | Between quota writes, remaining quota is the quota granted less the usage, and never below zero. |
| `Metering.OfflineLaw` | apps/node-agent/src/store.ts:433-434 | Offline usage is what was metered since the last online sample of the row. |
| `Metering.DisabledAtFirstExhaustion` | apps/node-agent/src/store.ts:430-448 | A user stays enabled through a run of samples if and only if none of them exhausts the quota or, offline, the allowance. |
| `Metering.SampleActsPerRow` | apps/node-agent/src/store.ts:416-449 | A sample of the table acts on each row as its own counters alone would. |
| `Metering.RestoreIsSafe` | apps/node-agent/src/store.ts:392-406 | A backend restore never raises a quota, never enables a user without one, never goes beyond the backend's word, and touches only rows it names. |
| `RowRules.GrowingCounters` | apps/node-agent/src/store.ts:419-433 | While the counters of a row do not fall it stays in its generation and uses, of quota too, exactly last minus first, up to the sample that cuts it off. |
| `RowRules.IdleUserKeepsAccess` | apps/node-agent/src/store.ts:424-438 | Samples that repeat a row's counters never change its quota or disable it. |
| `RowRules.ReportedAreCutOff` | apps/node-agent/src/store.ts:435-448 | The email of a row is reported exactly if the sample disabled it, and a sample never enables a row. |
| `RowRules.OnlyRowsAreReported` | apps/node-agent/src/store.ts:417-448 | No other email is reported. |
| `RowRules.UsageDisabledIffCutOff` | apps/node-agent/src/store.ts:384-390 | A row switched off after a sample counts as usage-disabled if and only if the sample cut it off, except an unused one with quota left and an allowance of zero. |
| `RowRules.RestoreIsExact` | apps/node-agent/src/store.ts:396-404 | For every list and named row: the least quota of the row and all its entries, enabled if and only if the last entry is and quota is left, offline usage cleared, nothing else changed. |
| `RowRules.RestoredExactly` | apps/node-agent/src/store.ts:392-406 | The same for the whole table; rows not named are as before. |
| `RowRules.UpsertsKeepMeters` | apps/node-agent/src/store.ts:326-347 | No list of upserts touches a counter, a generation or offline usage; a new row starts with none. |
| `UploadQueue.EveryRunIsGapless` | apps/node-agent/src/store.ts:454-485 | In every run of samples, restarts and acks, each boot's pending numbers form one interval ending just below its next number. |
| `UploadQueue.WatermarksCoverEverything` | apps/node-agent/src/runner.ts:417-422 | Once every watermark of a disable or remove result is acknowledged, whatever else happens meanwhile, no batch metered up to that command is pending. |
| `UploadQueue.WatermarkIsLastNumber` | apps/node-agent/src/store.ts:491-501 | In a gap-free queue a watermark is the last number handed out. |
| `UploadQueue.SimulateIdempotentBatchAcceptance` | scripts/agent-migration/batch-fixtures.ts:31-47 | The loop computes the acceptance function. |
| `UploadQueue.FirstBatchWins` | scripts/agent-migration/batch-fixtures.ts:34-42 | The first batch under a key is the one kept. |
| `UploadQueue.NothingElseIsAccepted` | scripts/agent-migration/batch-fixtures.ts:34-42 | Whatever is kept under a key is the first batch that came under it. |
| `UploadQueue.AcceptanceIgnoresOrder` | scripts/agent-migration/batch-fixtures.ts:27-47 | Batches identified by their keys are accepted once each without conflict, however repeated and reordered. |
| `UploadQueue.ConflictsAreReported` | scripts/agent-migration/batch-fixtures.ts:39-41 | The conflicts are the keys of exactly those batches that differ from the first one under their key, in order. |
| `UploadQueue.EveryRunKeepsInv` | apps/node-agent/src/runner.ts:334-345 | The queue is always the history without the acknowledged keys, and acknowledged keys are accepted, under repeated uploads, lost and late acks and restarts. |
| `UploadQueue.ExactlyOnce` | apps/node-agent/src/runner.ts:334-345 | In every such run each batch ever metered is queued or accepted, no conflict arises, and per user what was metered is what is billed plus what is queued and not yet accepted. |
| `UploadQueue.AcksCatchUp` | apps/node-agent/src/store.ts:454-485 | Numbers start at one without a gap, so once the receiver holds everything it can acknowledge each boot up to its last number, which empties the queue of it. |
| `EndToEnd.CountersAreBilled` | apps/node-agent/src/store.ts:408-485 | In every run of store transactions and of restarts, repeated uploads, lost and late acks, per row: what is billed plus what is queued and not yet accepted is the current counters plus the last ones of closed generations minus the first-seen baseline, plus what earlier rows of the binding had used. |
| `Commands.FindStoredIsFirstMatch` | apps/node-agent/src/command-processor.ts:271-276 | The stored user found is the first match in listing order by binding or email; none is found only if nothing matches. |
| `CommandProcessor.Processor.EnsureUser` | apps/node-agent/src/xray-adapter.ts:70-85 | Nothing when the uuid matches, otherwise remove and add; a throw leaves a prefix of these calls. |
| `CommandProcessor.Processor.RemoveUser` | apps/node-agent/src/xray-adapter.ts:87-94 | The account is gone, or a throw changed nothing. |
| `CommandProcessor.Processor.Reconcile` | apps/node-agent/src/command-processor.ts:278-287 | Completed, or stopped by an email conflict, both tables are those of the reconcile function. |
| `CommandProcessor.Processor.Ensure` | apps/node-agent/src/command-processor.ts:61-76 | ENSURE and ENABLE perform their plan, up to the Xray call that throws. |
| `CommandProcessor.Processor.Terminate` | apps/node-agent/src/command-processor.ts:77-92 | DISABLE and REMOVE perform their plan, up to the Xray call that throws. |
| `CommandProcessor.Processor.Apply` | apps/node-agent/src/command-processor.ts:56-119 | Each user command performs its plan; without write permission only REFRESH_QUOTA has one. |
| `CommandProcessor.Processor.Execute` | apps/node-agent/src/command-processor.ts:30-54 | The effects in order are begin, apply, advance, record; a completed id has none and answers the stored result. |
| `CommandRuns.RevisionNeverFalls` | apps/node-agent/src/store.ts:270-309 | Over every run of commands, reconciles, refreshes and rewrites with crashes anywhere, the config revision never decreases. |
| `CommandRuns.SupersededDoesNothing` | apps/node-agent/src/command-processor.ts:63-70 | A superseded ENSURE or ENABLE touches no user and no account, wherever it is cut off. |
| `CommandRuns.NoResurrection` | apps/node-agent/src/command-processor.ts:30-92 | After a DISABLE or REMOVE at revision r completed, then after any further run, no ENSURE or ENABLE below r changes a user or an account. |
| `CommandRuns.NoResurrectionAtSameRevision` | apps/node-agent/src/command-processor.ts:66-70 | The same at revision r for a stored row still disabled at r. |
| `CommandRuns.CompletedForever` | apps/node-agent/src/store.ts:507-524 | A completed result stays recorded unchanged over every run. |
| `CommandRuns.CompletedIsAnswered` | apps/node-agent/src/command-processor.ts:30-32 | After any run, a completed command id is answered with that result and has no effect at all. |
| `CommandRuns.RerunAfterCrash` | apps/node-agent/src/command-processor.ts:30-84 | Re-running an ENSURE, ENABLE or DISABLE that crashed anywhere before its result was recorded ends in the same store and live table as one uninterrupted run. |
| `CommandRuns.EnsureInstalls` | apps/node-agent/src/command-processor.ts:71-75 | An ENSURE or ENABLE that goes through makes exactly its user live under its uuid; the stored row reads back as that user if and only if it was older or agreed already. |
| `CommandRuns.SameRevisionDiverges` | apps/node-agent/src/store.ts:325 | An ENABLE at the stored row's own revision with another uuid completes with the new uuid in Xray and the old one in the store. |
| `CommandRuns.TerminateTakesOut` | apps/node-agent/src/command-processor.ts:77-92 | A DISABLE or REMOVE that goes through takes exactly its account out of Xray, and switches off or drops exactly its row. |
| `CommandRules.ReadOnlyTouchesNothing` | apps/node-agent/src/command-processor.ts:57-59 | Without write permission, cut anywhere, every command but REFRESH_QUOTA leaves users, accounts and revision alone, and is recorded and answered as failed. |
| `CommandRules.ResultIsRecorded` | apps/node-agent/src/command-processor.ts:34-53 | The result answered is the one recorded, and the revision rises to the command's exactly if it completed. |
| `CommandRules.CompletedMeansDone` | apps/node-agent/src/command-processor.ts:34-51 | A command answered as completed did everything it does when no Xray call throws. |
| `CommandRules.CallsAreNeeded` | apps/node-agent/src/xray-adapter.ts:70-94 | No command adds an account over a live one or removes one that is not live. |
| `CommandRules.EnsureCallsAreNeeded` | apps/node-agent/src/xray-adapter.ts:70-76 | ensureUser makes no call if the account is right already. |
| `CommandRules.StoreComesFirst` | apps/node-agent/src/command-processor.ts:73-74 | Cut anywhere, an ENSURE or ENABLE has changed no account before its row is stored. |
| `CommandRules.XrayComesFirst` | apps/node-agent/src/command-processor.ts:81-90 | Cut anywhere, a DISABLE or REMOVE has switched off or dropped no row whose account is still live. |
| `CommandRules.LateEnsure` | apps/node-agent/src/command-processor.ts:63-70 | An ENSURE or ENABLE below the config revision or the row's, or at the revision of a disabled row, completes and changes nothing. |
| `CommandRules.EnsureOfNewUser` | apps/node-agent/src/command-processor.ts:304-317 | For a user not stored: completes exactly if binding, account and uuid are given and the flow is supported; then row and account are the payload's, with the defaults spelled out; otherwise nothing changes. |
| `CommandRules.EnsureOfStoredUser` | apps/node-agent/src/command-processor.ts:251-260 | For a stored user: completes exactly if the flow is supported and, at a newer revision, no other row holds the email; then row and account differ exactly in what the payload says, at the row's own revision only the account. |
| `CommandRules.LateTerminate` | apps/node-agent/src/command-processor.ts:79-87 | A DISABLE or REMOVE older than the row completes and changes nothing, cut anywhere. |
| `CommandRules.TerminateFailsIff` | apps/node-agent/src/command-processor.ts:264-269 | A DISABLE or REMOVE fails, changing nothing, exactly if no stored user matches and binding or account is missing. |
| `CommandRules.RefreshQuotaSets` | apps/node-agent/src/command-processor.ts:114-119 | REFRESH_QUOTA completes exactly with binding and quota, in every mode, and sets quota and revision and clears offline usage unless the row is newer. |
| `Reconciliation.ReconcileByLast` | apps/node-agent/src/command-processor.ts:278-287 | For every list, whatever was live before, the live accounts are exactly the enabled ones among the users that come last with their email. |
| `Reconciliation.ReconcileIsExact` | apps/node-agent/src/command-processor.ts:278-287 | Over users with distinct emails the live accounts are exactly the enabled users with their uuids. |
| `Reconciliation.ReconcileTwice` | apps/node-agent/src/command-processor.ts:278-287 | A second run succeeds, changes neither table, and asks Xray to change nothing. |
| `Reconciliation.SwappedEmailsConflict` | apps/node-agent/src/command-processor.ts:281-285 | Two stored users that swap emails make reconcile fail although all emails are distinct. |
| `Reconciliation.StoredReconcile` | apps/node-agent/src/runner.ts:268-274 | Reconciling with the stored users cannot conflict, keeps the store, and makes Xray equal to it. |
| `EmailConflicts.ConflictsExactly` | apps/node-agent/src/store.ts:300-308 | For every list, a reconcile and a snapshot go through if and only if no user of the list, when its turn comes, is newer than its row while another row then holds its email. |
| `EmailConflicts.RowsAfter` | apps/node-agent/src/store.ts:322-347 | After any part of a list each row is as it was, or reads back as the newest entry for it, the first of equals. |
| `EmailConflicts.SnapshotReadsBack` | apps/node-agent/src/store.ts:300-347 | A snapshot that goes through leaves exactly the bindings it names, each row as above. |
| `Runner.AgentRunner.ListDesiredUsers` | apps/node-agent/src/store.ts:373-376 | Every stored user once, as stored, ordered by email. |
| `Runner.AgentRunner.ReconcileUsers` | apps/node-agent/src/runner.ts:162-168 | Without an inbound only the intent is remembered; otherwise the tables are reconciled. |
| `Runner.AgentRunner.FlushPendingReconcile` | apps/node-agent/src/runner.ts:268-274 | The intent is dropped only when Xray has been made equal to the store. |
| `Runner.AgentRunner.SampleWithinStateMutation` | apps/node-agent/src/runner.ts:319-332 | A sample that returns has gone into the store as one sample of the counters read, and in direct_primary no user it exhausted is live. |
| `Runner.AgentRunner.RefreshConfig` | apps/node-agent/src/runner.ts:114-142 | A stale snapshot changes neither store nor Xray. In direct_primary a snapshot that takes a stored enabled user away or disables it is preceded by one recorded sample, any other by none. The store afterwards is one snapshot transaction on the rows at that point, local disables preserved exactly with unacknowledged batches and a usage-disabled user; unless provisioning is deferred the live accounts are exactly the deciding enabled ones of those users. Other modes leave Xray alone. The backend counts as online unless something threw. |
| `Runner.PreservedSnapshot` | apps/node-agent/src/runner.ts:124-133 | Applying the adjusted snapshot, reconciled before or not, enables none of the locally disabled users. |
| `Runner.ReconciledHidesDisabled` | apps/node-agent/src/runner.ts:125-129 | After reconciling with the adjusted snapshot every live account belongs to an enabled user that was not locally disabled, and a disabled row's email is live exactly if such a user is the last with it. |
| `Runner.DisabledEmailLiveIff` | apps/node-agent/src/runner.ts:124-129 | The email of a locally disabled user stays live if and only if the last snapshot user with that email is enabled and not locally disabled. |
| `Runner.SharedEmailStaysLive` | apps/node-agent/src/runner.ts:126-129 | With two snapshot users under one email, both rows as new as the snapshot, the locally disabled one's email stays live under the other's uuid. |
| `Runner.MovedEmailStaysLive` | apps/node-agent/src/runner.ts:126-129 | The same with distinct snapshot emails, when the snapshot has given the disabled row's email to another user. |
| `Runner.AgentRunner.RecoverBackendConfirmedUsers` | apps/node-agent/src/runner.ts:144-153 | Only when everything is acknowledged and a user is usage-disabled, every row is restored exactly as its entries say, and in direct_primary with an inbound Xray then equals the store; otherwise nothing changes. |
| `Runner.AgentRunner.HandleCommand` | apps/node-agent/src/runner.ts:399-424 | A disable or remove is metered first; result, store and Xray are those of one execution from there; a completed one carries watermarks of the queue as it then stands. |
| `StateMutation.EveryRunIsChained` | apps/node-agent/src/runner.ts:442-452 | In every interleaving each call waits for its predecessor's promise, which is resolved exactly when that call has ended. |
| `StateMutation.OneAtATime` | apps/node-agent/src/runner.ts:442-452 | Never two operations at once. |
| `StateMutation.FirstComeFirstServed` | apps/node-agent/src/runner.ts:443-446 | A call that begins finds all earlier calls ended and no later one begun. |
| `StateMutation.NeverStuck` | apps/node-agent/src/runner.ts:447-451 | Unless all calls have ended, the first open one can take its next step, even after operations that threw. |
| `ShadowComparison.Walk` | scripts/agent-migration/restart-aware-shadow.ts:127-205 | The loop fails exactly on a generation mismatch, a time that does not advance or a counter that goes back within a generation; otherwise its boundary and window rows and its steady count are those the positions call for. |
| `ShadowComparison.StabilizedIffRunsHaveTwo` | scripts/agent-migration/restart-aware-shadow.ts:155-184 | No boundary is unresolved exactly when every maximal same-generation run has two checkpoints. |
| `ShadowComparison.WithinIffSteadiesWithin` | scripts/agent-migration/restart-aware-shadow.ts:185-202 | No window is over its threshold exactly when every checkpoint two or more into its generation is within the tolerance. |
| `ShadowReport.IndexSamples` | scripts/agent-migration/restart-aware-shadow.ts:39-52 | The loop computes the index, or fails. |
| `ShadowReport.IndexIsExact` | scripts/agent-migration/restart-aware-shadow.ts:39-52 | Indexing fails exactly when a checkpoint is reported twice; otherwise the index holds exactly the samples. |
| `ShadowReport.SortDoesNotMatter` | scripts/agent-migration/restart-aware-shadow.ts:120-125 | Every time order of the common checkpoints gives the same walk; equal times are an error in all of them. |
| `ShadowReport.ToleranceMeans` | scripts/agent-migration/restart-aware-shadow.ts:72-76 | A difference is tolerated exactly when it is within the absolute bound or the percentage of x-ui's bytes, integer division notwithstanding. |
| `ShadowReport.CompareRestartAwareShadowUsage` | scripts/agent-migration/restart-aware-shadow.ts:78-240 | The whole computation gives the verdict and counts of the specification, or throws exactly where it does. |
| `ShadowReport.ReadyIff` | scripts/agent-migration/restart-aware-shadow.ts:207-236 | Where nothing throws, readyForDirect holds exactly when there is an identity, identities and checkpoints agree, every generation has two checkpoints, the last one minimumSteadyWindows plus two, and every steady window is within tolerance. |
| `ShadowReport.OrderDoesNotMatter` | scripts/agent-migration/restart-aware-shadow.ts:39-52 | Permuting either input changes neither whether it throws, nor the verdict, nor any count. |
| `ShadowCounts.IdentityCounts` | scripts/agent-migration/restart-aware-shadow.ts:109-215 | Per identity: common checkpoints, generations, generations of one checkpoint, steady windows, those beyond tolerance, unmatched checkpoints, and whether the last generation is too short, each counted once. |
| `ShadowCounts.AbsentCounts` | scripts/agent-migration/restart-aware-shadow.ts:104-107 | An identity only one source knows counts as one missing user and nothing else. |
| `ShadowCounts.ReportCounts` | scripts/agent-migration/restart-aware-shadow.ts:228-248 | Every count of the report is the sum over the identities of both sources, and these are counted once each. |
| `ShadowCounts.WarmupRow` | scripts/agent-migration/restart-aware-shadow.ts:177-184 | The second checkpoint of a generation stabilises its boundary with the bytes of both sources, their gap, and a first-observation gap exactly if the direct source metered more. |
| `ShadowCounts.ThrowsIff` | scripts/agent-migration/restart-aware-shadow.ts:148-175 | The comparison throws exactly for no required window, a checkpoint reported twice, two generations at one checkpoint, time that does not advance, or a counter that goes back within a generation; counters may stand still. |
| `SseFraming.ConsumeEvents` | apps/node-agent/src/api-client.ts:108-122 | The agent's reading loop yields the frames and the buffer of the incremental specification. |
| `SseFraming.ParseAdminBuffer` | apps/admin/src/api/client.ts:733-740 | Splitting on blank lines and keeping the last piece gives the complete frames and the unfinished rest. |
| `SseFraming.ConsumeAdminEvents` | apps/admin/src/api/client.ts:691-704 | The admin console's reading loop yields the same frames and buffer. |
| `SseFraming.FramesRejoin` | apps/node-agent/src/api-client.ts:114-120 | Frames and rest, rejoined with blank lines, are the text, and none of them contains a blank line. |
| `SseFraming.LineEndsDoNotMatter` | apps/node-agent/src/api-client.ts:112 | A stream with CR LF line ends is framed like the same one with LF. |
| `SseFraming.ChunksDoNotMatter` | apps/node-agent/src/api-client.ts:109-121 | Every way of cutting a stream without CR CR LF into chunks yields the frames and the tail of the whole stream. |
| `SseFraming.PairedCrsAreEnough` | apps/node-agent/src/api-client.ts:109-121 | In particular every stream whose every CR is followed by LF. |
| `SseFraming.ChunkIndependenceIsExact` | apps/admin/src/api/client.ts:697-704 | Independence of the chunks holds if and only if the stream has no CR CR LF. |
| `Ipv6Text.Expand` | apps/node-agent/src/xray-apply.ts:220-235 | The accumulating loop gathers the bytes of the pieces in order, or fails on one it cannot read. |
| `Ipv6Text.ParseIPv6` | apps/node-agent/src/xray-apply.ts:216-242 | The helper's parser computes its specification, accepted malformed texts included. |
| `Ipv6Parsing.ParseIPv6Bytes` | apps/node-agent/src/public-address.ts:12-34 | The agent's parser computes its specification, given the address family. |
| `Ipv6Parsing.HelperReads` | apps/node-agent/src/xray-apply.ts:216-242 | Every textual form of section 2.2 of RFC 4291 (case, leading zeros, any legal `::`, dotted tail), with blanks and brackets around it or not, parses to its 16 bytes. |
| `Ipv6Parsing.AgentReads` | apps/node-agent/src/public-address.ts:12-34 | The same for the agent's parser. |
| `Ipv6Parsing.EveryAddressIsSpelled` | apps/node-agent/src/xray-apply.ts:210-215 | Every 16-byte address has a textual form. |
| `AddressScope.InternalIPv4IsReserved` | apps/node-agent/src/xray-apply.ts:244-251 | Both IPv4 tests are one table of address blocks, the public one its negation. |
| `AddressScope.InternalIPv6IsReserved` | apps/node-agent/src/xray-apply.ts:253-263 | Both IPv6 tests are one table of prefixes, IPv4-mapped addresses judged by the address they carry. |
| `AddressScope.V6Verdicts` | apps/node-agent/src/xray-apply.ts:272-280 | For every IPv6 text the internal test holds exactly inside the table and the public test exactly outside. |
| `AddressScope.V4Verdicts` | apps/node-agent/src/public-address.ts:46-49 | The same for every dotted IPv4 text. |
| `AddressScope.TestsAreComplements` | apps/node-agent/src/public-address.ts:46-62 | On every valid address, however written, the public test and the internal test are exact complements. |
| `AddressScope.MappedIsItsQuad` | apps/node-agent/src/public-address.ts:53-55 | A mapped address, section 2.5.5.2 of RFC 4291, is judged as its IPv4 address. |
| `WorkLifecycle.Accounting` | apps/api/src/work-lifecycle.ts:29-33 | In every interleaving a work token is outstanding exactly when it was issued and never given back; giving it back again changes nothing. |
| `WorkLifecycle.FailureIsRemembered` | apps/api/src/work-lifecycle.ts:14-20 | No failure is recorded exactly when none ever happened. |
| `WorkLifecycle.LatestFailureCounts` | apps/api/src/work-lifecycle.ts:104-111 | The failure recorded is that of the latest failing event. |
| `WorkLifecycle.WaitingIff` | apps/api/src/work-lifecycle.ts:115-119 | A stream waits to be closed exactly if it was registered before any drain or fence and not withdrawn since, and no drain has started. |
| `WorkLifecycle.ClosedIff` | apps/api/src/work-lifecycle.ts:116-146 | A stream is closed exactly by being registered too late or by waiting when the drain starts. |
| `WorkLifecycle.Monotone` | apps/api/src/work-lifecycle.ts:14-20 | Draining, a recorded failure and the closing of the server are never undone. |
| `WorkLifecycle.AdmittedBeforeDraining` | apps/api/src/work-lifecycle.ts:121-132 | A request gets a token exactly if no drain or fence came before it. |
| `WorkLifecycle.NoStreamOutlivesDrain` | apps/api/src/work-lifecycle.ts:115-119 | Once a drain has started, every stream ever registered was closed or withdrawn. |
| `WorkLifecycle.WorkLifecycle.Middleware` | apps/api/src/work-lifecycle.ts:121-132 | The 503 answer while draining, a fresh token otherwise. |
| `WorkLifecycle.WorkLifecycle.DrainServer` | apps/api/src/work-lifecycle.ts:141-166 | Returns normally exactly when some poll, all before it being before the deadline, finds the server closed, no token and no failure ever; otherwise the first poll with a failure or past the deadline ends it; a second drain is refused. |
| `WorkLifecycle.AdvancingClockEnds` | apps/api/src/work-lifecycle.ts:155-164 | With a clock that only moves forward the loop ends whatever happens meanwhile. |
| `WorkLifecycle.PollsAreBounded` | apps/api/src/work-lifecycle.ts:160-163 | If every wait takes its 20 milliseconds, it ends within the timeout's worth of polls. |

## Left out

- `ENSURE_INBOUND` in the command processor and the `RECONCILE_USERS` wrapper: the reconcile and the snapshot they consist of are modelled, the request and result file handoff is not.
- `resolveCredentials` beyond the order of its writes, registration, and the check that rejects a corrupt reset journal: a journal here is one the code wrote.
- Request parsing and specification regexes on both sides: single checks around the journal.
- Malformed decimal strings: quantities and revisions are natural numbers, so `decimal` never throws.
- The parent-directory chain that a durable write creates and syncs: one sync of the directory stands for it.
- The contents of the database files: a torn page or an uncommitted transaction is SQLite's concern; that their names appear and go without a sync is modelled.
- File ownership and modes, `/proc` scanning, DNS, systemd, gRPC, HTTP and event-stream transport: outcomes are parameters or nondeterministic.
- `parseSseFrame` and the handling of event lines: a frame is handed on as text.
- The page size of 100 in `listPendingBatches`: an upload may pick any pending batch, which includes every page order.
- The sorting of accepted batches and of report rows, and the report's row lists beyond one identity: reports are compared by verdict and counts.
- The payload hash of a batch: two batches are the same exactly when their contents are.
- The relative threshold's floating-point rounding: it enters as the scaled integer.
- IPv6 zone identifiers, and malformed texts such as one with two `::` that the helper's parser accepts: the parsers are modelled on all texts, the theorems are about valid addresses.
- A stream closer that throws inside `drain`, and `awaitWithBudget`: the first leaves the drain by an exception, the second is an enter and a leave.
- `detectXrayRestart`'s uptime estimate: whether a restart is noticed is a nondeterministic choice.
- The running Xray after a failed rollback restart: nothing is claimed about it.
- `CommandRuns.RerunAfterCrash`: does not cover REMOVE, because a payload that names its user only by binding no longer resolves once the row is deleted.
- `ResetRuns.GoodRunKeepsInv`: assumes settled boots and fresh stamps; `ResetBoots.SettledBootIsExact`, `ResetDeletions.SettledDeletionIsExact` and `ResetRuns.MoveLosesIff` say exactly what happens without.
- `ResetBoots.SettledBootIsExact`: the file left behind is one whose creation was durable when the reset began; a power loss can take back any other, and written anew later it is no tear.
- `WorkLifecycle.WorkLifecycle.DrainServer`: assumes that the loop ends at some poll; a wall clock may step back, but one that never reaches the deadline leaves the source looping too.
