# A verified model of the agent bridge's durable protocols

The bridge hands coding jobs to agent processes, survives crashes of its own and of its neighbours, and refuses
to touch a repository whose state it does not know. This project models the parts that make those promises and
proves them in Dafny 4.11. `dafny verify dfyconfig.toml` checks everything.

The code that updates things in place is modelled as classes with fields and loops. Each method is proved
against a specification function over values, and the promises are theorems about that function over every
input, every interleaving or every run.

| area | modules | what is proved |
|---|---|---|
| queue and pipelines shared by several bridges | `QueueTables`, `QueueSteps`, `QueueInvariants`, `QueueShape`, `QueueRuns`, `QueueLegacy`, `QueueMeaning`, `QueueBridge` | single start, fencing of jobs and of pipelines, revisions as change counters, fail-stop, all-or-nothing batch release, over any interleaving of 22 kinds of action by any number of bridges with arbitrary clocks and crashes; a batch is released or given up once |
| process supervisor | `SupervisorModel`, `SupervisorVerdict`, `SupervisorTimers`, `SupervisorRuns`, `SupervisorBudget`, `SupervisorMeaning`, `SupervisorProcess`, `StdinFramer`, `Descendants` | one payload, one sound verdict, an armed watchdog, a timeout that is kept, the reason and status of every end, a tight wait budget, chunk-independent framing, exact descendant selection |
| setup transaction | `SetupModel`, `SetupProofs`, `SetupSuccess`, `SetupTransaction` | all new or all back under concurrent edits and failures at any await, when a setup succeeds, the journal as evidence |
| submission archive | `ShiftRegisters`, `Crc`, `Sorting`, `ZipFormat`, `ZipProofs`, `ZipSentinels`, `ZipMeaning`, `ZipWriter` | the table-driven checksum is CRC-32; a strict reader recovers exactly what was written |
| direct-run audit | `AuditTable`, `AuditDb`, `CappedResult` | the shared bound, exactly when a start succeeds, live runs are never lost, eviction order, the cap on stored text |
| digests and the sanitized workspace | `TreeDigest`, `DigestWalk`, `LibListing`, `ManifestPaths`, `SanitizedWorkspace`, `WorkspaceCheck` | one digest text means one tree, one lib/ pin the same files; the workspace check reports exactly the discrepancies there are |
| recovery passes | `BlockedRoots`, `RetryRecovery` | exactly when a repository leaves and enters the blocked set; every retry row is read in time and never dispatched twice |

`Options` holds the option type.

A crash changes no table: the bridge takes no further action and its leases run out. Clock advance is the
arbitrary `now` of each action; a transaction under `BEGIN IMMEDIATE` is one atomic step. Writers that are not
modelled line by line (persisting, renewing, cancelling, pruning, schema upgrades) are actions with the guard
their SQL has, so that the invariants hold beside them; three guards are their callers' instead and are named
under "Left out".

## What the proofs found

Where a promise is not true of the code, the model keeps the code; the lemmas and contracts named here give the
inputs on which it fails and say exactly when it holds.

- **A superseded bridge can still write to a job.** `claimQueueRecord` cancels a waiting job of a closed parent
  by the row's own owner and generation, not the caller's (`QueueRuns.StaleClaimStillCancels`). A refused claim
  writes exactly then (`QueueRuns.RefusedClaimWritesIff`), and it is the only way past a takeover
  (`QueueRuns.TakeoverFences`).
- **A legacy batch can be stuck**: with a complete manifest of which a listed job already has a relation row,
  every reconciliation throws (`QueueLegacy.LegacyBatchIsStuck`, `QueueShape.LegacyStuckIff`). Over runs this
  lasts exactly as long as the batch stays open, its listed jobs stay held or pending, no other job names it
  and such a row is there (`QueueLegacy.StuckExactlyWhile`); starting the job ends it
  (`QueueLegacy.ClaimFreesBatch`).
- **A failed activation** changes no row and no cache entry, but past its first guard the prepared children keep
  the lease it stamped on them (`QueueBridge.Bridge.ActivatePipelineBatch`).
- **A control event can follow the exit event.** On POSIX, after the payload closed by itself, a signal to the
  supervisor that meets a process group under the old id starts a termination that ends in
  `termination_unconfirmed` (`SupervisorRuns.NoticeAfterExit`). Nothing else can
  (`SupervisorRuns.SilentAfterExit`, `SupervisorRuns.OnlySignalsTerminateLate`).
- **The comment in `lib/run-command.js:26-29` gives 21.25 s** as the supervisor's longest containment on
  Windows. The code allows 25.25 s and can use all of it (`SupervisorBudget.BudgetIsAttained`), still below the
  31.25 s fallback.
- **Rollback can delete someone else's text**: when an edit lands between the check and the removal of a file
  the transaction created (a whole transaction: `SetupProofs.EditLostInRollback`), and in no other way (`SetupProofs.LostEditIff`).
  `replaceConfigAtomically` has the same gap between its read and its rename; it is modelled as one
  compare-and-swap.
- **The archive writer accepts two values that mean "see ZIP64"** (APPNOTE section 4.4.1.4): 65,535 entries and
  a file of 4,294,967,295 bytes. The strict reader refuses exactly those archives (`ZipProofs.RoundTrip`), and
  both exist (`ZipSentinels.FullDirectoryIsRefused`, `ZipProofs.FullFileIsRefused`).
- **A start record is also refused when its run id is already kept** (`AuditTable.StartSucceedsIff`).
- **Backslashes in names collide** on systems that allow them: two trees with one digest
  (`TreeDigest.BackslashCollides`), and a tree that passes the workspace check although its required file is not
  in it (`WorkspaceCheck.BackslashPasses`). Without them both are exact (`TreeDigest.TreeTextIsUnique`,
  `SanitizedWorkspace.TreeIsManifestIff`).
- **A control line of exactly the limit ended by CR LF** is accepted whole and refused when its line feed comes
  alone (`StdinFramer.SplitDecides`). No split is refused exactly when every line fits with its carriage return
  (`StdinFramer.NeverRefusedIff`).
- **A blocked repository can be unblocked without any news of it**: when the projects directory cannot be read,
  and when its database has no job table (`BlockedRoots.UnreadableDirectoryUnblocks`,
  `BlockedRoots.MissingJobTableUnblocks`). `BlockedRoots.LeavesIff` gives the exact condition over any run.

## Model

| member | source | states |
|---|---|---|
| QueueBridge.Bridge.ClaimQueueRecord | server.js:3911-4051 | The transaction, with its three rollbacks and in-place record updates, leaves the tables, the cached record and the outcome that the claim step of the protocol prescribes. |
| QueueBridge.Bridge.ClaimPersistedForStartup | server.js:4299-4359 | A takeover refused leaves everything as it was; one that succeeds caches a record equal to the new row. When it succeeds is TakeoverMatchesRow. |
| QueueBridge.Bridge.FailPersistedRecovery | server.js:4361-4395 | Failing a lost row and telling its parent is one step; when, and what it leaves, is RecoveryFailsIff and RecoveryFails. |
| QueueBridge.Bridge.PropagatePipelineTerminal | server.js:3121-3207 | The two bulk updates and the parent update amount to one propagation in which no sibling is touched twice. |
| QueueBridge.SiblingsStopped | server.js:3154-3188 | The second bulk update never meets a row the first has cancelled: each sibling changes by one revision. |
| QueueBridge.Bridge.ActivatePipelineBatch | server.js:3625-3819 | Success: the whole batch is in the tables and every cached child agrees with its row. Failure: no table row, cache entry or pipeline record changes; the children's stamped leases are the one trace. |
| QueueBridge.Bridge.ActivationTransaction | server.js:3674-3814 | Inserting one by one, releasing one by one and switching the pipeline last ends in the whole batch or in the old tables, with the first failed guard as the outcome. |
| QueueBridge.ConflictNext | server.js:3714-3745 | An insert violates a unique index of the growing table exactly when it conflicts with the old rows or repeats a key of its own batch. |
| QueueBridge.Bridge.ReconcileLegacyPipelineBatches | server.js:4143-4297 | The pass over all candidates, with its per-batch transactions, is the fold of single reconciliations up to the first that throws. |
| QueueRuns.ClaimSucceedsIff | server.js:3989-4044 | A claim succeeds if and only if status, owner, generation, revision, both leases, cancellation and parent all allow it; the row it then writes and the record it leaves are given column by column, and nothing else changes. |
| QueueRuns.RunKeepsKeyed | server.js:3520-3552 | In every run each row that names an owner has a generation. |
| QueueRuns.ClaimedRecordIsRow | server.js:3911-4044 | So after every successful claim of every run the cached record equals the row: the generation drawn for a record without one is never used. A cancellation only the record knows of is left as it was. |
| QueueRuns.RefusedClaimWritesIff | server.js:3944-3988 | A claim that does not start the job changes the tables if and only if the parent was released and has left running while the row waits under some owner, whoever calls, with whatever generation: it cancels that row. Any other refusal writes nothing and reports a cancellation it finds. |
| QueueRuns.TakeoverMatchesRow | server.js:4299-4359 | A takeover returns a record if and only if the row is there at the expected revision, held, pending, planned or blocked, with its lease missing or past and no running lease of its owner; the row then keeps held or becomes pending under the new owner and generation, the record equals it, and nothing else changes. |
| QueueMeaning.CoveredRowKept | server.js:4332-4383 | A row whose own lease or whose owner's lease runs is changed by no takeover, and by no recovery failure of it. |
| QueueMeaning.SiblingChangesIff | server.js:4366-4388 | A recovery failure changes another row if and only if it goes through, both are children of one planned or running pipeline and the other has not ended, however alive its owner is. |
| QueueMeaning.LiveSiblingStops | server.js:4384-4386 | Tables in which a live bridge's waiting job is cancelled that way. |
| QueueMeaning.RecoveryFailsIff | server.js:4367-4383 | A recovery failure goes through if and only if the row is there with the revision, owner and generation that were read, held, pending, planned or blocked, and neither its lease nor its owner's runs. |
| QueueMeaning.RecoveryFails | server.js:4367-4388 | The row is then failed with no lease at the next revision, and in the same transaction an open parent is failed, every sibling that waits is cancelled and every active one is told to stop; nothing else changes. |
| QueueRuns.OnlyClaimsStart | server.js:4012-4044 | Of all actions of all bridges only a successful claim makes a job active. |
| QueueRuns.OnlyOwnerPutsBack | server.js:3911-4051 | A started job waits again only by its owner's own write, or as a new row after it was pruned. |
| QueueRuns.SingleStart | server.js:3911-4051 | Between two successful claims of one job, in any interleaving, the job returned to a waiting status, and only through its owner. |
| QueueRuns.RevisionCountsChanges | server.js:4012-4016 | Over any run a row's revision grows by exactly the number of actions that changed it, so an equal revision proves an equal row. |
| QueueRuns.TakeoverFences | server.js:4299-4395 | After a takeover nothing done under an older generation changes the row, ever: no claim, owner's write or renewal, and no recovery failure that read the old generation; the one exception is the cancellation of a waiting job whose parent has closed. |
| QueueRuns.NeverHeldAgain | server.js:4299-4359 | A generation that was replaced never comes back unless it is drawn again. |
| QueueRuns.StaleClaimStillCancels | server.js:3944-3971 | The exception is real: a bridge that neither owns the row nor knows its generation changes it. |
| QueueRuns.ClosedPipelineStaysStopped | server.js:3154-3199 | Once a child's end closed the parent, at every later moment until pruning every child has ended or carries a cancellation request. |
| QueueRuns.ClosedPipelineNeverRunsAgain | server.js:3942-3988 | And no later action of any bridge starts one of its children. |
| QueueInvariants.StepEvolvesRow | server.js:3121-4395 | Every action keeps a row or raises its revision by one; terminal rows stay terminal, cancellations stay, and only claimable rows start. |
| QueueInvariants.ClosingStepStops | server.js:3154-3199 | The action that closes a parent leaves, in the same transaction, no sibling held, pending, planned or blocked and every active one told to stop, each by one revision. |
| QueueInvariants.ClosingIsExact | server.js:3140-3152 | A parent becomes failed iff some child counts as failed, cancelled iff none does and some child is cancelled, and stays as it was otherwise. |
| QueueMeaning.EndOfChild | server.js:3121-3199 | Whichever transaction ends a child, the tables it leaves: the parent failed if some child is failed, interrupted or not resumable, cancelled if none is and some child is cancelled, with every sibling cancelled or told to stop; otherwise only the child's row. |
| QueueMeaning.CancelledRow | lib/queue/store.js:475-500 | A cancellation that changes something cancels a waiting row, clearing its lease, or asks an active one to stop. |
| QueueMeaning.CommittedRow | lib/queue/store.js:610-724 | A terminal commit that changes something writes its status, or cancelled where that was requested, and leaves the owner and generation. |
| QueueMeaning.StaleRow | lib/queue/leases.js:16-125 | A row that the reconciliation of stale records changes ends cancelled where that was requested, else interrupted if it was active and not resumable if it was not, without a lease. |
| QueueInvariants.FailStopKept | server.js:3121-3207 | A stopped pipeline stays stopped under every action of every bridge. |
| QueueShape.StepKeepsShape | server.js:3625-3819 | A released pipeline is never planned and its relation rows are exactly ordinals 0..n-1 over n distinct jobs with n the expected count: kept by every action. |
| QueueShape.RunKeepsShape | server.js:3625-3819 | And hence by every run. |
| QueueShape.ActivatesIff | server.js:3629-3794 | An activation goes through if and only if there is capacity, the batch is not empty, complete, new to every unique index and wholly the bridge's own, and the pipeline is planned at exactly the cached revision, owner and generation, without relation rows, expected count or decided batch, while its lease and the bridge's run. |
| QueueShape.ActivationAllOrNothing | server.js:3725-3804 | Then every child is pending at revision 1 with its ordinal, the pipeline is running and released at the next revision with the manifest of the batch under the owner and generation it had, and nothing else changed. |
| QueueMeaning.RefusalIsTrue | server.js:3629-3812 | The reason a refused activation gives names a guard that failed. |
| QueueMeaning.PipelineRevisionNeverFalls | lib/pipelines/store.js:255-290 | Over any run, while its row is there, a pipeline's revision never falls. |
| QueueMeaning.PipelineTakenIff | lib/pipelines/store.js:249-302 | A pipeline held under another generation is taken over if and only if its row is at the expected revision and neither its lease nor its owner's runs; it then has the new owner, generation and lease at the next revision, and nothing else changes. |
| QueueMeaning.PipelineTakeoverFences | server.js:3693-3794 | After a takeover of its pipeline no activation by a record of the replaced generation, or of that or an older revision, changes anything, at any later moment of any run. |
| QueueRuns.BatchDecidedOnce | server.js:3693-3794 | However bridges race to activate or reconcile a batch, it is released or given up once; a second decision needs a new pipeline row. |
| QueueShape.LegacyEnds | server.js:4178-4286 | A legacy batch whose owner is gone ends released with every observed child pending and related, or failed with none left before execution, or, on a taken relation row, untouched. |
| QueueShape.LegacyStuckIff | server.js:4195-4207 | It stays untouched if and only if its manifest is complete and some listed job already has a parent. |
| QueueMeaning.ReconciliationIff | server.js:4143-4207 | A reconciliation changes something if and only if the batch is legacy, planned or running, without a running lease of its own or of its owner, and not both releasable and holding a job that has a parent: the conditions written out on the rows. |
| QueueMeaning.ReconciliationReleases | server.js:4201-4240 | What a release writes, row by row: held jobs pending, the relation rows of the manifest, the pipeline running and released under the holder it had. |
| QueueMeaning.ReconciliationGivesUp | server.js:4241-4286 | What giving up writes: every listed or naming job that waits is cancelled without a lease, the pipeline is failed and its batch incomplete. |
| QueueLegacy.StuckExactlyWhile | server.js:4178-4294 | From the moment a legacy batch is complete with a taken row, over every run: while it is open, its listed jobs wait, no other job names it and a listed job has a relation row, every reconciliation by anyone changes nothing; at the first moment one of these fails, if it is still legacy and open, a reconciliation that finds its owner gone releases it or gives it up. |
| QueueLegacy.LegacyBatchIsStuck | server.js:4202-4207 | Well-shaped tables with such a batch, on which reconciliation throws. |
| QueueLegacy.ClaimFreesBatch | server.js:4195-4200 | One ordinary claim of its listed job later the same batch is given up. |
| QueueShape.PassSettles | server.js:4143-4297 | A pass that does not throw settles every candidate; one that throws stopped at such a batch. |
| SupervisorProcess.SupervisorObject.Handle | bin/process-supervisor.js:248-883 | Every event, handled by updating the closure's variables, moves the object exactly as the machine of the theorems moves. |
| SupervisorProcess.SupervisorObject.CompleteWith | bin/process-supervisor.js:319-370 | Only the first completion is written, with the exit status its verdict deserves; it silences standard input and the timers. |
| SupervisorProcess.SupervisorObject.ResumeTermination | bin/process-supervisor.js:398-565 | Each leg of the POSIX and Windows routines between two awaits does what the machine's next move says. |
| SupervisorProcess.SupervisorObject.Request | bin/process-supervisor.js:567-600 | The first request wins; without a payload it completes at once. |
| SupervisorProcess.SupervisorObject.HandleMessage | bin/process-supervisor.js:784-833 | The first message must launch; later ones beat, terminate or break the protocol. |
| SupervisorProcess.SupervisorObject.LaunchNow | bin/process-supervisor.js:690-766 | A launch past its durable deadline completes without spawning; any other spawns once and arms its timers. Which, and for when, is LaunchStarts. |
| SupervisorVerdict.StepGood | bin/process-supervisor.js:319-833 | The invariant behind every verdict (phase, timers, payload facts and everything written so far) is kept by every event. |
| SupervisorTimers.StepArmed | bin/process-supervisor.js:602-638 | While a payload runs unterminated, every event leaves the watchdog armed for min(last heartbeat + allowance, durable deadline) and, after an exit with open pipes, the close check armed. |
| SupervisorTimers.WatchdogVerdict | bin/process-supervisor.js:609-615 | A watchdog that fires past its bound terminates; one that fires before is only armed again for the bound. |
| SupervisorRuns.RunGood | bin/process-supervisor.js:248-905 | The invariant holds after every sequence of events from either platform's start. |
| SupervisorRuns.OnePayload | bin/process-supervisor.js:690-720 | In every run at most one spawn, never at or after the launch deadline, and no taskkill once the payload's exit was observed. |
| SupervisorRuns.OneExit | bin/process-supervisor.js:319-370 | At most one exit event; what can follow it is one unconfirmed notice, on POSIX, after an exit nobody requested. |
| SupervisorRuns.ExitIsSound | bin/process-supervisor.js:398-430 | Tree termination is confirmed only without a payload, or on POSIX with the group observed absent and the direct child closed; best effort only on Windows with the child exited and closed. |
| SupervisorRuns.ExitStatusMeans | bin/process-supervisor.js:309-317 | Status 70 for every requested end that is neither confirmed nor best effort; status 0 of a spawned payload only for one that closed by itself with 0. |
| SupervisorRuns.SilentAfterExit | bin/process-supervisor.js:329-370 | After the exit event a step writes if and only if it is the failing end of a late termination. |
| SupervisorRuns.OnlySignalsTerminateLate | bin/process-supervisor.js:567-600 | Such a termination starts if and only if a signal meets a present group after a natural POSIX close. |
| SupervisorRuns.NoticeAfterExit | bin/process-supervisor.js:398-430 | A run in which the notice does follow the exit event. |
| SupervisorRuns.SilenceTerminates | bin/process-supervisor.js:602-616 | In every prompt run without heartbeats a payload still running is handled no later than its last heartbeat plus the allowance and its durable deadline. |
| SupervisorRuns.WatchdogFiresOnce | bin/process-supervisor.js:609-615 | And the first watchdog firing of such a run requests the termination. |
| SupervisorRuns.HeartbeatExtends | bin/process-supervisor.js:810-826 | A heartbeat moves the bound to min(its deadline, now + allowance); one whose deadline has passed terminates instead. |
| SupervisorRuns.ExitedPayloadIsChecked | bin/process-supervisor.js:651-654 | In every run an exited payload whose pipes are open has its close check armed. |
| SupervisorRuns.IdlePipesAreContained | bin/process-supervisor.js:622-638 | That check contains survivors if and only if neither backpressure nor output nor the exit itself is more recent than the grace period. |
| SupervisorMeaning.LaunchStarts | bin/process-supervisor.js:690-766 | A launch announces its one payload and arms the timeout for now plus its milliseconds and the watchdog for the earlier of allowance and deadline. |
| SupervisorMeaning.SpawnsIff | bin/process-supervisor.js:690-740 | Of all events exactly a valid first message that is not too late spawns. |
| SupervisorMeaning.TimeoutIsKept | bin/process-supervisor.js:757-761 | In every run, whatever comes after the launch, the timeout of a payload that still runs is due at exactly the launch plus its milliseconds, and there is none if there were none. |
| SupervisorMeaning.RunningWasLaunched | bin/process-supervisor.js:690-761 | Every running payload of every run was launched by one of its events, with that timeout. |
| SupervisorMeaning.TimeoutStopsPayload | bin/process-supervisor.js:757-761 | If the timeout is handled when it is due, every event that still meets the running payload comes no later; its firing comes exactly then and requests the termination with the reason timeout. |
| SupervisorMeaning.StopsIff | bin/process-supervisor.js:567-833 | Exactly which events end a running payload, each with its reason: twelve kinds, with the clocks they compare. |
| SupervisorMeaning.FirstStopDecides | bin/process-supervisor.js:567-600 | Over every run the event that first ends a running payload decides: every exit event written later is a requested one with its reason. |
| SupervisorMeaning.TimedOutExitsWith124 | bin/process-supervisor.js:309-317 | So after a timeout every exit event has that reason and status 124 if the payload was contained, 70 if not. |
| SupervisorMeaning.RequestedStatus | bin/process-supervisor.js:309-317 | The status of every requested end by reason and containment. |
| SupervisorMeaning.NaturalEnd | bin/process-supervisor.js:656-687 | A payload that closes by itself: one exit event with the first exit code seen, and that code as the status if it is one. |
| SupervisorMeaning.EndsWithoutProcess | bin/process-supervisor.js:768-883 | How each event from outside ends a supervisor that has no process: the fault told, the reason, and what the exit event claims. |
| SupervisorMeaning.StartsReady | bin/process-supervisor.js:890-905 | A supervisor says that it is ready, or with an identity that is not valid exits at once. |
| SupervisorMeaning.FirstExitCounts | bin/process-supervisor.js:640-654 | The first exit code and time seen are the ones kept. |
| SupervisorMeaning.PipesAreChecked | bin/process-supervisor.js:622-638 | While an exited payload's pipes are open they are looked at every 100 ms. |
| SupervisorMeaning.ConfirmsIff | bin/process-supervisor.js:398-430 | A resumed termination is confirmed if and only if the pipes are closed and the group is seen gone now, or was and the wait for the pipes ends. |
| SupervisorMeaning.BestEffortIff | bin/process-supervisor.js:432-565 | It ends in best effort if and only if the pipes are closed and the judged taskkill ended with 0 or 128 on an exited payload, or the payload had exited and its descendants, if looked for, were found and killed. |
| SupervisorMeaning.JudgedKill | bin/process-supervisor.js:522-545 | The taskkill that is judged is the first, unless the retry ended with 0. |
| SupervisorBudget.WindowsTerminationInBudget | bin/process-supervisor.js:477-565 | Along every path of events the waits of a Windows termination sum to at most 2*max(1000,c)+3c+250, strictly less after an observed exit. |
| SupervisorBudget.BudgetIsAttained | bin/process-supervisor.js:522-565 | For every c >= 1 a run of a fresh supervisor on Windows, from its start, waits exactly that long. |
| SupervisorBudget.DefaultBudget | bin/process-supervisor.js:110-118 | At the defaults 25,250 ms, below the caller's 31,250 ms. |
| SupervisorBudget.EveryWaitEnds | bin/process-supervisor.js:398-565 | No wait is stuck: every move shortens what is left of the routine, and the end of a wait's time moves it. |
| SupervisorBudget.PollUntil | bin/process-supervisor.js:238-246 | It answers the probe at the first look that succeeds, or at its deadline exactly, never later. |
| Descendants.DescendantsAfterExit | bin/process-supervisor.js:146-168 | On any process list with unique ids, cycles included, the selection is, without repeats, exactly the processes with a parent chain that starts in the payload's window and never goes back in time; never the root. |
| Descendants.ChainMeans | bin/process-supervisor.js:146-168 | A chain spelled out: pids above 4 and not the payload's, each the child of the one before and no older, the first created from a second before the start up to the observed exit. |
| StdinFramer.StdinReader.OnData | bin/process-supervisor.js:842-861 | The buffer, the dispatched lines and the refusals after a chunk are those of the framing function. |
| StdinFramer.StdinReader.OnEnd | bin/process-supervisor.js:862-864 | The rest of the buffer is dispatched once, unless blank. |
| StdinFramer.FramingIgnoresChunks | bin/process-supervisor.js:841-864 | For every stream whose lines fit with their carriage return, every split gives the same messages: the stream cut at newlines, one carriage return removed. |
| StdinFramer.PiecesAreLines | bin/process-supervisor.js:842-861 | A stream joined from lines is cut into exactly those lines, and at most one carriage return is taken off each. |
| StdinFramer.NeverRefusedIff | bin/process-supervisor.js:845-858 | No split of a stream is refused if and only if every line fits, carriage return included. |
| StdinFramer.SplitDecides | bin/process-supervisor.js:845-858 | A line of the limit's length ended by CR LF passes whole and is refused in two pieces. |
| SetupTransaction.DiskObject.ApplySetupChanges | bin/setup-transaction.js:18-92 | The loops that write, push and undo leave the files, the journal, the backups and the outcome of the specified transaction, whatever others write meanwhile and whichever await fails. |
| SetupTransaction.PreparePlan | bin/setup-transaction.js:27-36 | The manifest's content is changed to list this run's backups, or the plan is refused for its size or an unreadable manifest. |
| SetupProofs.ApplyOneIsSwap | bin/setup-transaction.js:42-75 | A file is written over exactly what the plan saw, after its backup, or not at all; when it is written is SetupSucceeds. |
| SetupProofs.UndoOneIsSwap | bin/setup-transaction.js:81-88 | Undoing replaces only this transaction's own content; with nothing failing, a file is left only if it holds something else. |
| SetupProofs.TransactionIsAtomic | bin/setup-transaction.js:18-92 | For every path nobody else edits: new content after success, prior content (or absence) after a refusal or a rollback, or the path is reported unresolved. |
| SetupProofs.ValueMeans | bin/setup-transaction.js:42-75 | The new content of a path is that of the last plan entry naming it, and a path not named keeps its own. |
| SetupProofs.CommitIsAtomic | bin/setup-transaction.js:40-91 | The same from the journal on, with every change recorded; when nothing fails, unresolved paths were edited by others. |
| SetupProofs.JournalOutlives | bin/setup-transaction.js:39-91 | The journal stays if and only if something is unresolved or its own removal failed; a refusal changes nothing; only planned paths are reported. |
| SetupProofs.UnresolvedWasEdited | bin/setup-transaction.js:80-89 | While nothing fails from the journal on, only a path someone else edited is unresolved. |
| SetupProofs.EveryChangeIsOwn | bin/setup-transaction.js:39-91 | Every own change is made under the journal, over what the plan saw or over this transaction's content, save the removal gap. |
| SetupProofs.LostEditIff | bin/setup-transaction.js:84-85 | An own change covers anything else if and only if it removes a created file at the instant another edit of it lands. |
| SetupProofs.EditLostInRollback | bin/setup-transaction.js:76-90 | A whole transaction that loses such an edit: it creates a file, its verification fails, the edit lands at the removal; the result reports nothing unresolved and leaves no journal. |
| SetupProofs.ManifestListsBackups | bin/setup-transaction.js:28-36 | After success each overwritten text is in a backup that the written manifest names. |
| SetupSuccess.SetupSucceeds | bin/setup-transaction.js:18-75 | When nothing fails while it runs, nobody edits a planned path, no journal and no backup is in the way, the plan names each path once and describes what is there and its manifest can list the backups, the setup is applied: every planned path holds its new content, every overwritten text is in its backup, the journal is gone. |
| SetupSuccess.AppliedIff | bin/setup-transaction.js:18-75 | With nobody editing the planned paths a setup is applied if and only if no await of the run fails, no journal is there, the plan is within its bounds, names each path once, describes what is there and finds no backup in the way. |
| SetupSuccess.AppliedHadNoFailure | bin/setup-transaction.js:18-75 | In any world, a setup that is applied had no failing await from its first look to the removal of its journal, a failed verification included. |
| SetupSuccess.StalePlanIsRefused | bin/setup-transaction.js:18-23 | A plan that does not describe a path nobody edits is refused, with nothing written. |
| SetupSuccess.PathNamedOnce | bin/setup-transaction.js:40-75 | A plan that names a path twice is never applied, unless somebody else edits that path. |
| SetupSuccess.PreparedMeans | bin/setup-transaction.js:26-36 | A plan with a manifest is prepared if and only if it has at most 1024 files and 1024 backups in a list that can be read; its first manifest then lists the backups known and new, and nothing else of the plan changes. |
| SetupSuccess.PlainPlanIsPrepared | bin/setup-transaction.js:26-27 | A plan without a manifest is written as it stands, up to 1024 files. |
| ShiftRegisters.ShiftIsLinear | bin/package-agensi.js:99-103 | One step of the reflected register distributes over exclusive or. |
| ShiftRegisters.LookUpFeeds | bin/package-agensi.js:105-109 | Hence a table look-up and a shift take in a whole message word as n single steps do. |
| Crc.UpdateFeeds | bin/package-agensi.js:107 | One round of the loop is eight bit steps of section 8 of RFC 1952. |
| Crc.BuildTable | bin/package-agensi.js:99-103 | Each of the 256 entries is its index after eight steps. |
| Crc.Crc32 | bin/package-agensi.js:105-109 | On every byte sequence the table-driven loop gives the bit-at-a-time CRC-32. |
| Crc.OneDamagedByteIsDetected | bin/package-agensi.js:105-109 | Two contents that differ in one byte, anywhere, have different checksums. |
| ZipMeaning.ChecksumOfA | bin/package-agensi.js:99-109 | The published CRC-32 of one byte comes out, which fixes polynomial, start and end value. |
| ZipWriter.SubmissionZip | bin/package-agensi.js:112-151 | The buffers filled in place make the specified archive of the sorted files; it throws exactly on an unsafe name or a value beyond its field. |
| ZipProofs.RoundTrip | bin/package-agensi.js:112-151 | A reader that follows the end record to the central directory to each local header, and refuses ZIP64 sentinels, recovers names, contents, checksums, sizes and offsets, and refuses exactly the archives that hold a sentinel. |
| ZipProofs.ExpectedAt | bin/package-agensi.js:133-141 | What it recovers at place k is file k at its own offset. |
| ZipProofs.FullFileIsRefused | bin/package-agensi.js:119-121 | An archive within the writer's limits that a strict reader refuses. |
| ZipSentinels.FullDirectoryIsRefused | bin/package-agensi.js:115-119 | Another: 65,535 empty files under different safe names. |
| ZipProofs.NamesTellApart | bin/package-agensi.js:19-24 | Different safe names have different bytes. |
| ZipMeaning.SafeNameMeans | bin/package-agensi.js:19-24 | A name is safe if and only if it begins with a letter or digit and is non-empty parts of letters, digits, dots, underscores and hyphens joined by slashes, none of them "." or "..". |
| ZipMeaning.AcceptedIff | bin/package-agensi.js:112-143 | An archive is written if and only if there are at most 65,535 files, of safe names, whose sizes fit their fields, and the sum of all records fits 32 bits. |
| ZipMeaning.HeadersAreFixed | bin/package-agensi.js:122-141 | Every header of every archive carries version 2.0, the UTF-8 flag, deflate and 1980-01-01, and no attribute, disk number or comment. |
| Sorting.SortSorts | bin/package-agensi.js:116 | With no name twice, sorting gives a strictly ascending order by code units. |
| Sorting.SortIsOrderFree | bin/package-agensi.js:116 | And the order in which distinct names come in does not show. |
| ZipProofs.OrderDoesNotMatter | bin/package-agensi.js:112-151 | The archive, and whether there is one, do not depend on the order in which the files were inserted. |
| AuditDb.AuditStore.StartRecord | bin/direct-run-audit.js:199-213 | The transaction writes the start record or leaves the table as it was, as specified. |
| AuditDb.AuditStore.FinishRecord | bin/direct-run-audit.js:214-235 | The same for the finish record. |
| AuditDb.AuditStore.Prune | bin/direct-run-audit.js:187-198 | Closing orphans, expiring and deleting the oldest finished rows amount to the specified pruning. |
| AuditDb.AuditStore.AbandonOrphans | bin/direct-run-audit.js:171-186 | Each orphan is closed once, and nothing else changes. |
| AuditTable.StartSucceedsIff | bin/direct-run-audit.js:204-213 | A start is written if and only if fewer than maxRows unfinished records remain after orphan closing and the id is not kept. |
| AuditTable.StartWithId | bin/direct-run-audit.js:204-213 | With a fresh id only the unfinished records matter; an unfinished record's id is refused however empty the table is. |
| AuditTable.BoundHolds | bin/direct-run-audit.js:187-213 | Over any interleaving of bridges sharing one bound, the table never exceeds it. |
| AuditTable.LiveRecordStays | bin/direct-run-audit.js:171-198 | A record whose owner every bridge sees alive is never closed, evicted or changed, over any interleaving. |
| AuditTable.LiveRunFinishes | bin/direct-run-audit.js:214-234 | So its finish always finds it. |
| AuditTable.FinishSucceedsIff | bin/direct-run-audit.js:214-234 | A finish succeeds exactly when pruning keeps the record; an abandoned record that has not expired yields to it. |
| AuditTable.RunningChangesIff | bin/direct-run-audit.js:168-240 | A turn closes, ends, evicts or replaces a running record if and only if it is written and finishes that run, or its bridge is another than the owner and sees the owner gone; a refused turn closes nothing. |
| AuditTable.ChangedByFinishOrJudged | bin/direct-run-audit.js:168-240 | Over any interleaving: a running record that is not there as it was has been changed first by exactly such a turn. |
| AuditTable.TurnsKeepForm | bin/direct-run-audit.js:182-234 | A record has no finish time if and only if it is started: kept by every turn, so eviction by finish time never meets a running record. |
| AuditTable.EvictedIsOldest | bin/direct-run-audit.js:193-196 | Everything evicted finished no later than every finished record that stays. |
| AuditTable.EvictedKeeps | bin/direct-run-audit.js:193-196 | No unfinished record is evicted and what stays is unchanged. |
| AuditTable.EvictedCounts | bin/direct-run-audit.js:191-196 | As many go as asked, or all finished ones. |
| AuditTable.PrunedMeans | bin/direct-run-audit.js:171-198 | What a prune leaves, on the rows: all that run as this bridge judges them, none finished before the retention time, the newest of the rest, exactly as many as there is room for. |
| AuditTable.WriteMeans | bin/direct-run-audit.js:199-234 | A written turn adds or ends exactly its own record on top of the prune; a refused one leaves the table as it was. |
| CappedResult.Cap | bin/direct-run-audit.js:118-141 | Text and detail together fit the limit before pointers are rewritten, the text has priority, both flags are exact; what is kept of the text is a prefix followed by a true marker, or the beginning of the marker where the limit is shorter than it; the detail goes exactly when 200 characters would not fit. |
| CappedResult.CutDetail | bin/direct-run-audit.js:132-138 | The detail is dropped exactly when fewer than 200 of its characters would fit beside the longest marker. |
| CappedResult.MarkerShrinks | bin/direct-run-audit.js:119 | The more is kept the shorter the marker, which is why the cut fits. |
| CappedResult.DecimalReads | bin/direct-run-audit.js:119 | The numbers in the marker are what they say, in digits without leading zeros. |
| TreeDigest.EntryIsRead | bin/plugin-tree-digest.js:28-31 | An entry can be read back from the text whatever follows, though its path may hold newlines. |
| TreeDigest.StreamIsUnique | bin/plugin-tree-digest.js:64 | Two lists of entries with one text are equal. |
| TreeDigest.RowsTellTree | bin/plugin-tree-digest.js:38-42 | The rows of a walk determine the tree it walked. |
| TreeDigest.TreeTextIsUnique | bin/plugin-tree-digest.js:24-64 | Two trees without backslashes in their names have one text if and only if they are equal. |
| TreeDigest.BackslashCollides | bin/plugin-tree-digest.js:25 | Two different trees with one text, one of them with a backslash in a name. |
| DigestWalk.TreeWalk.Walk | bin/plugin-tree-digest.js:24-42 | The recursive walk pushes exactly the rows of the tree, and stops exactly at a link or a special entry. |
| DigestWalk.TreeWalk.Digest | bin/plugin-tree-digest.js:64 | The hash is taken of the joined entries. |
| DigestWalk.LibDigestOf | bin/lib-digest.js:104-108 | The hash fed file by file is the hash of the whole text. |
| DigestWalk.LibTextIsUnique | bin/lib-digest.js:104-108 | One text, one list of files. |
| DigestWalk.PinsMeanOneTree | bin/lib-digest.js:104-108 | Under a collision-free hash equal pins mean equal file lists and equal trees. |
| LibListing.ListLibFiles | bin/lib-digest.js:54-95 | No listing exactly without lib/; refused exactly for a lib/ that is no directory, a link or special entry in it, or a pinned bin/ name that is no file; otherwise the files of the walk and the bin/ files that exist, sorted. |
| LibListing.LibWalk.Walk | bin/lib-digest.js:67-79 | The walk pushes exactly the files, and stops exactly at a link or a special entry. |
| LibListing.ListedAreLibPaths | bin/lib-digest.js:98-100 | Every listed path is one that the release manifest counts as part of the digest. |
| LibListing.PinMeansFiles | bin/lib-digest.js:54-108 | Two installations have one pinned text if and only if lib/ holds the same files with the same contents and the pinned bin/ files agree, whatever the order of reading and whatever empty directories there are. |
| ManifestPaths.SafePathMeans | server.js:2276-2285 | A manifest path is accepted exactly if it is the text of a path of plain names that cannot climb, without control characters or a drive letter. |
| SanitizedWorkspace.CleanIffMatches | server.js:2398-2415 | No discrepancy exists if and only if files with digests, directories, required and forbidden paths are all as demanded. |
| SanitizedWorkspace.AcceptableIff | server.js:2362-2388 | What a check is refused for, written out: entry counts, unsafe paths, shared case keys, digests that are not 64 hexadecimal digits, links and special entries, and the two bounds of the tree. |
| SanitizedWorkspace.DiscrepancyMeans | server.js:2398-2415 | What each of the seven kinds of discrepancy says of the manifest and of the entries of the tree. |
| SanitizedWorkspace.TreeIsManifestIff | server.js:2389-2415 | The tree's entries are the manifest's if and only if the compared texts match and no name holds a backslash. |
| WorkspaceCheck.Listing.Walk | server.js:2287-2328 | The walk lists exactly the tree's entries, and is refused exactly for a link, a special entry or a bound, however early it stops. |
| WorkspaceCheck.CheckManifest | server.js:2370-2388 | The manifest is accepted exactly if within bounds, with safe paths, no two sharing a case key, and proper digests. |
| WorkspaceCheck.Compare | server.js:2398-2415 | The seven loops report every discrepancy and nothing else; an unexpected file named like a member that every object inherits is reported a second time, as a mismatch with that member. |
| WorkspaceCheck.VerifySanitizedWorkspace | server.js:2343-2446 | Refused exactly for an unacceptable contract, manifest or tree; otherwise ok if and only if the tree matches. |
| WorkspaceCheck.BackslashPasses | server.js:2303 | A tree that passes although it is not the manifest's. |
| BlockedRoots.Recovery.ReconcileBlockedRoots | server.js:5005-5317 | The loops over maps and sets leave the remembered roots and the blocked set of one specified pass. |
| BlockedRoots.LeavesIff | server.js:5005-5317 | After any run of passes a blocked root leaves in the next one if and only if one of its operations needed recovery, that was not put off and it returned ok, or every database whose last completed scan lists it was overlooked since. |
| BlockedRoots.BlockedSurvivesBadScans | server.js:5262-5277 | With nothing overlooked the promise holds: a root some existing database last listed stays blocked until its recovery returns ok. |
| BlockedRoots.BadScanKeepsRoot | server.js:5262-5268 | A skipped, memoized or failed scan and a lock conflict unblock nothing and forget nothing. |
| BlockedRoots.EntersIff | server.js:5278-5317 | A root becomes blocked exactly if an operation of it needs recovery and that was refused, threw, or was put off because all are quarantined and it was tried recently. |
| BlockedRoots.RunRemembers | server.js:5005-5268 | After any run a database's memory is its last completed scan's list, or empty if it was overlooked since. |
| BlockedRoots.CandidateMeans | server.js:5084-5102 | Which roots are candidates, need recovery or are quarantined only, read off the operation rows alone. |
| BlockedRoots.RootsMean | server.js:5093-5096 | What a database is remembered to list is the roots its operation rows name. |
| BlockedRoots.UnreadableDirectoryUnblocks | server.js:4990-5007 | An unreadable projects directory unblocks a root that an existing database lists. |
| BlockedRoots.MissingJobTableUnblocks | server.js:5066-5067 | So does a database without a job table. |
| RetryRecovery.RetryRecoverer.RetryDeferred | server.js:4909-4965 | One pass dispatches the unscheduled rows of its page whose orphan is gone and moves the cursor. Nothing waits if and only if it read to the last row and every row it read is decided for good; so while no eligible row is decided, only when there is none. |
| RetryRecovery.PassMeans | server.js:4939-4953 | A pass gives exactly those jobs of its page to the policy that are not scheduled and whose orphan is gone. |
| RetryRecovery.RetryRecoverer.OnSettled | server.js:4954-4962 | An answer frees the job, unless it is one of the five final ones, which keep it reserved. |
| RetryRecovery.EveryRowIsRead | server.js:4909-4965 | While the eligible rows are stable or shrink from n, each is read within ceil(n/64)+1 passes from any stored cursor. |
| RetryRecovery.NeverTwice | server.js:4909-4965 | Over any passes and answers no job has two dispatches in flight. |
| RetryRecovery.FinalIsForGood | server.js:4909-4965 | A job that is scheduled and answered is never dispatched again. |
| RetryRecovery.AnswerDecides | server.js:4954-4958 | After a final answer no later pass, whatever it reads, dispatches the job again; after any other the next pass that reads it with its orphan gone does. |

## Left out

- SQL text, SQLite locking, JSON and the encryption of records: a transaction is one atomic step on maps, sealed and encrypted columns are opaque or absent.
- ClaimQueueRecord: the memory-mode branch (server.js:3925-3928), which skips the durable protocol, and the textual columns of a row (times, messages, process numbers).
- TakeoverFences: a generation is assumed not to be drawn twice, and RunKeepsKeyed that none is empty; the 96 random bits behind both are not modelled.
- Writers in `lib/queue/`, `lib/pipelines/` and `lib/state/` enter as guarded actions, not line by line.
- OwnerMove: the moves an owner makes between statuses are assumed of the callers; the update at lib/queue/store.js:924-941 accepts any status.
- PipelineMove: that a closed pipeline keeps its status and a released one is never planned again is assumed of the callers; the update at lib/pipelines/store.js:389-400 accepts any status. So is that it writes back the manifest and batch state it read, or an incomplete one. "A released pipeline is never planned" rests on it.
- CommittedRow: a committed row loses its lease in the model; the update at lib/queue/store.js:651-690 writes the one its record holds, which its callers clear. No modelled guard reads the lease of a row that has ended.
- Keyed: that a new row names an owner only together with a generation is assumed of the callers of the insert at lib/queue/store.js:834-863, which draw or clear both (server.js:3520-3522, 3551).
- Handle: one integer clock stands for the wall clock and the monotonic clock; timers, process events and group probes are inputs; messages queued behind a running termination may come earlier in the model than in the program, which only adds runs. A line that is not JSON and one that is no message are one fault.
- SilenceTerminates: assumes that due timers are handled before later events.
- DescendantsAfterExit: the creation-time conversion of the snapshot and the verified kill itself are process calls; their results are inputs.
- OnData: a refusal and the lines dispatched before it reach the handler through different queues; their order is not modelled.
- ApplySetupChanges: the file system is a map of contents; modes, link checks and directory creation are awaits that may fail. `replaceConfigAtomically` is a compare-and-swap. The journal is there or not; the hashes in it are not modelled.
- RoundTrip: deflate and inflate are functions, inflate undoing deflate.
- ListLibFiles: the names of the pinned bin/ files are a parameter, distinct and outside lib/ where a result needs it.
- PinsMeanOneTree: SHA-256 is a function, collision-free where a result says so. The `include` list of the plugin digest is not modelled; the absent entries it makes are.
- StartRecord: identifiers are not redacted in the model, and the metrics columns are absent.
- Cap: redaction is done before, and the rewriting of pointers is a function of the cut text.
- VerifySanitizedWorkspace: reading and hashing the manifest file and parsing it come before the model; the order of the discrepancies, the state digest and concurrent changes of the tree are not modelled, `isWithinAnyPath` and the case key are functions, and the names every object inherits are a parameter.
- ReconcileBlockedRoots: what else a pass does with a database it opened (adoption, scheduling, cleanup) and other writers of the blocked set are not modelled; when a recovery was last tried, which scans are skipped and how a recovery ends are inputs.
- RetryDeferred: which rows are eligible (server.js:4915-4930), the orphan check and the retry policy's answer are inputs.
- Status and report text, logging, prompts, Git commands, MCP transport, installers, release copying and the doctor: input and output, or tables that would only add easy members.
