# LocalBridge: verified model of the control plane and the coding runtime

LocalBridge keeps desired and observed state in a Rust control plane and runs tools in a bundled Python
runtime. This project models the parts of both whose correctness depends on every step and every
interleaving, and proves what they promise. `dafny verify dfyconfig.toml` checks it all.

| files | what they model |
|---|---|
| FileSystems, PatchCommit | committing a patch over several files, with rollback, over a file system any of whose calls may fail |
| PatchHunks, HunksAtTop, HunkText | parsing, placing, checking and splicing update hunks; hunks with equal starts; line endings, reading back, refusals |
| RuntimeControl, StartSchedules, RuntimeSections, RuntimeOwner | generation-stamped start, restart, stop and shutdown of the runtime |
| WorkScheduler, SchedulerRuns, SchedulerSections | the foreground slot, its FIFO queue, cancellation, close and the condition variable |
| ExecutionRegistry, ExecutionRuns, ExecutionChanges, Eviction | the persisted registry of executions: ownership, adoption, trimming, crash recovery |
| CommandControl, CommandReports, ControlInterleaving | polling, writing to and killing commands through the registry; overlapping calls |
| Convergence, ConvergencePlans | desired, observed and effective state, and the reconcile plan |
| Snapshots, SnapshotRuns, SnapshotContents | the published snapshot, its sections, faults, revisions and authorization gate |
| RollingOutput | output buffers, cursor snapshots and paging |
| HttpSessions, HttpSessionRuns, HttpSessionLifetime | admission, expiry and shutdown of HTTP sessions |
| TextTruncation, Utf8, Lines | cutting text to lines and bytes at character boundaries |
| Options, Bytes, Integers, Sequences | an optional value, a byte, saturating arithmetic, regrouping a concatenation |

Objects that the program updates in place are classes whose methods are proved against functions on
values; the runs that interleave those steps, and the main results, are stated over those functions. What
each operation does is stated besides without them, from the state it finds, by the lemmas named `IsExact`
and their like and by the clauses of the methods.
Concurrent code is a transition system in which one event is one section that holds a lock, one atomic
action, or one call that may fail; any number of threads is allowed, and an event says how a fallible call
turned out. Times, identifiers, tokens and replies of the outside world are inputs.

Assumptions:

- File system: a failing call has no effect, except that a failing write may leave anything in its own new
  file; `exists` and `is_dir` are accurate; a digest identifies bytes; nobody else writes; new temporary
  names differ from the targets and from the directories they need. A directory handle whose `close` fails
  is modelled. After an exception the patch may be found applied in two cases only: such a failure during
  the clean-up, and a rollback that itself failed and says so.
- Registry: fresh execution ids and tokens, an injective token hash, and a state file that reads back what
  was written; replacing the file is atomic.
- HTTP sessions: each runtime object is new; its identifier may repeat.
- Each operation that reads the clock several times is given one time.

Results that differ from what one might expect of the program:

- An older stop can take the runtime of a newer start, since stops do not check their generation
  (`StartSchedules.OlderStopTakesNewerRuntime`; exactly when it cannot is
  `StartSchedules.NewestDecidesExactlyWhen`, the exact end state is `RuntimeControl.ActiveExactlyWhen`).
- A list of hunks interleaves for all new lines exactly when no two of its starts are equal
  (`HunksAtTop.InterleavesExactlyWhen`; what it gives in any case is `HunksAtTop.UpdatedOnTop`).
- A record that has just finished may be unlisted (`Eviction.FinishedButNotListed`; exactly when is
  `CommandControl.FinishSettles`).
- A request to cancel that arrives between a call's read of the intent and its commit does not win
  (`ControlInterleaving.IntentLosesExactlyWhen`).
- The snapshot gate does not look at the service intent (`SnapshotRuns.GatesDisagree`; agreement holds
  exactly as `SnapshotRuns.GatesAgreeExactlyWhen` says).
- A runtime close that raises drops the rest of its batch (`HttpSessionRuns.RaisingCloseDropsTheRest`,
  `HttpSessionRuns.ARunThatLoses`).
- Revisions saturate (`SnapshotRuns.SaturatedRevisionRepeats`, `Convergence.SaturatedRevisionRepeats`).

## Model

| member | source | states |
|---|---|---|
| PatchCommit.Commit | runtime/coding-tools-mcp/coding_tools_mcp/patching.py:95-170 | For every way the file system calls may fail: a normal return leaves every target at its staged bytes and mode (0644 by default), or absent, and every other existing file untouched; an abort leaves every target and every other file as it was; a failed rollback leaves each original at its path or in a backup that is reported and kept. A repeated path is refused exactly when there is one. When no call fails the outcome is exact: an error of the system exactly when some directory a target needs is a file, otherwise a conflict exactly when some baseline does not hold or some target is a directory, now or for another target, otherwise success, with exactly the missing parent directories made; no file is left over, and after an abort no directory. |
| PatchCommit.Attempt | runtime/coding-tools-mcp/coding_tools_mcp/patching.py:104-139 | The part that may raise: on success every change is applied and every baseline held; on any failure the journal still says where each original is; when no call fails, which cause it gives is decided by the same obstacles and baselines. |
| PatchCommit.RollBack | runtime/coding-tools-mcp/coding_tools_mcp/patching.py:193-225 | Whatever was prepared, backed up and installed when the attempt stopped, a clean rollback puts back every target, and an unclean one loses no original; directories that existed before stay, and when no call fails and no file of others is in them those made are gone. |
| PatchCommit.RollBackTarget | runtime/coding-tools-mcp/coding_tools_mcp/patching.py:203-215 | One target is put back, or an error is recorded and its backup is still there; no other file changes. |
| PatchCommit.RemoveBackups | runtime/coding-tools-mcp/coding_tools_mcp/patching.py:159-170 | Cleanup touches only backups, keeps every target and other file, and can raise only by the close of a directory handle. |
| PatchCommit.AssertUniquePaths | runtime/coding-tools-mcp/coding_tools_mcp/patching.py:172-176 | Accepts exactly the change lists without a repeated path. |
| PatchCommit.CheckBaseline | runtime/coding-tools-mcp/coding_tools_mcp/patching.py:57-63 | A match means the path has the staged baseline (bytes and mode, or absence); a difference means it has not. |
| PatchCommit.PrepareFile | runtime/coding-tools-mcp/coding_tools_mcp/patching.py:238-251 | A new temporary file holds the staged bytes and mode; on failure no existing file or target changed. |
| PatchCommit.EnsureParent | runtime/coding-tools-mcp/coding_tools_mcp/patching.py:228-235 | Every missing ancestor directory is made; exactly the new directories are listed for removal, each after the one it is in. |
| PatchCommit.BackUpAll | runtime/coding-tools-mcp/coding_tools_mcp/patching.py:113-122 | Each existing target is moved whole to a fresh backup path, and the journal knows it even when a later call raises. |
| PatchCommit.InstallAll | runtime/coding-tools-mcp/coding_tools_mcp/patching.py:124-134 | Prepared files replace their targets; no original is overwritten, because each is in a backup or was absent. |
| PatchCommit.RemoveDirs | runtime/coding-tools-mcp/coding_tools_mcp/patching.py:220-224 | Removing the listed directories from the last to the first leaves exactly those that were there, when no call fails and nothing else is in them. |
| PatchCommit.AfterBackup | runtime/coding-tools-mcp/coding_tools_mcp/patching.py:118-121 | Moving an original to a fresh backup keeps the journal true. |
| PatchCommit.AfterInstall | runtime/coding-tools-mcp/coding_tools_mcp/patching.py:124-133 | Moving a prepared file onto its target keeps the journal true. |
| PatchCommit.RecoveryKept | runtime/coding-tools-mcp/coding_tools_mcp/patching.py:142-156 | After a failed rollback the preserved backups still hold every original once cleanup has run. |
| PatchHunks.AppliedExactlyWhen | runtime/coding-tools-mcp/coding_tools_mcp/patching.py:328-391 | When every hunk names old lines: application succeeds exactly when each old part occurs once in the original lines and no two places meet, and the text is then the forward interleaving of untouched gaps and new lines. |
| PatchHunks.AppliedForward | runtime/coding-tools-mcp/coding_tools_mcp/patching.py:341-391 | For hunks that start at distinct lines, insertions included: success exactly when they are apart, with the same forward interleaving as result. |
| PatchHunks.BackwardIsForward | runtime/coding-tools-mcp/coding_tools_mcp/patching.py:383-385 | Splicing from the last place to the first gives what reading forward gives. |
| PatchHunks.NeighboursDecide | runtime/coding-tools-mcp/coding_tools_mcp/patching.py:370-381 | For every list of hunks: the overlap check on neighbours after sorting passes exactly when all pairs are apart and, of hunks with one start, all but the last listed only insert. |
| PatchHunks.UpdatesExactlyWhen | runtime/coding-tools-mcp/coding_tools_mcp/patching.py:370-385 | The same as the condition under which placed hunks are accepted at all. |
| PatchHunks.PlacedExactlyWhen | runtime/coding-tools-mcp/coding_tools_mcp/patching.py:341-368 | A hunk is placed exactly when its old lines occur once, and reported as not found exactly when they occur nowhere. |
| PatchHunks.PlaceIs | runtime/coding-tools-mcp/coding_tools_mcp/patching.py:341-368 | A placed hunk is at the only place its old lines occur, or at line 0 if it has none. |
| HunksAtTop.InterleavesExactlyWhen | runtime/coding-tools-mcp/coding_tools_mcp/patching.py:370-385 | An accepted list of placed hunks interleaves for every choice of new lines exactly when its hunks start at distinct lines. |
| HunksAtTop.UpdatedOnTop | runtime/coding-tools-mcp/coding_tools_mcp/patching.py:370-385 | The result for every accepted list, equal starts included: the hunks below line 0 interleave, the insertions at line 0 pile up with the last listed first, and a replacement at line 0, listed last, then takes its lines from that pile. |
| HunksAtTop.AppliedOnTop | runtime/coding-tools-mcp/coding_tools_mcp/patching.py:328-391 | The same for the whole application of any hunks that parse and are placed, with the exact condition of success. |
| HunksAtTop.InsertionIsLost | runtime/coding-tools-mcp/coding_tools_mcp/patching.py:383-385 | A line inserted before a replacement of line 0 is lost, and the line to replace stays. |
| HunksAtTop.InsertionsAreReversed | runtime/coding-tools-mcp/coding_tools_mcp/patching.py:383-385 | Two insertions come out in the opposite order. |
| HunksAtTop.InsertionAfterReplacementIsRefused | runtime/coding-tools-mcp/coding_tools_mcp/patching.py:370-381 | A replacement at line 0 listed before an insertion is refused as an overlap, though they touch no common line. |
| HunksAtTop.PlacedAtTop | runtime/coding-tools-mcp/coding_tools_mcp/patching.py:341-368 | Hunks of these shapes are placed at line 0. |
| HunksAtTop.SortSplits | runtime/coding-tools-mcp/coding_tools_mcp/patching.py:370 | Sorting puts the hunks at line 0 first, in the order listed. |
| PatchHunks.ContextOnlyIsIdentityExactlyWhen | runtime/coding-tools-mcp/coding_tools_mcp/patching.py:328-445 | Hunks whose old and new parts are equal give the file back exactly when its text is uniform (LF only or CRLF only, no other line break), byte order mark included. |
| PatchHunks.ContextLinesAreIdentityExactlyWhen | runtime/coding-tools-mcp/coding_tools_mcp/patching.py:328-445 | The same for hunks all of whose lines are marked as context. |
| PatchHunks.RewritingIsIdentityExactlyWhen | runtime/coding-tools-mcp/coding_tools_mcp/patching.py:428-445 | Normalising, splitting, joining and restoring line endings is the identity exactly on uniform text. |
| PatchHunks.ApplyUpdateHunks | runtime/coding-tools-mcp/coding_tools_mcp/patching.py:328-391 | The step-by-step application computes the function that those results are about, errors included. |
| PatchHunks.ParseUpdateHunk | runtime/coding-tools-mcp/coding_tools_mcp/patching.py:394-413 | The loop over hunk lines computes the recursive parse; unknown markers and empty lines are refused. |
| PatchHunks.ParsedExactlyWhen | runtime/coding-tools-mcp/coding_tools_mcp/patching.py:394-413 | A hunk parses exactly when every line is marked or is the end-of-file mark; its old part is then the lines marked space or minus, its new part those marked space or plus, in order. |
| PatchHunks.CheckOverlaps | runtime/coding-tools-mcp/coding_tools_mcp/patching.py:371-381 | Finds the first pair of neighbours that overlap. |
| PatchHunks.SpliceHunks | runtime/coding-tools-mcp/coding_tools_mcp/patching.py:370-385 | Sorting, checking and splicing from the back, with the first overlap as error. |
| PatchHunks.FindFrom | runtime/coding-tools-mcp/coding_tools_mcp/patching.py:416-425 | Lists every position where the old lines occur, in order and without repetition, and no other. |
| PatchHunks.SortUpSorts | runtime/coding-tools-mcp/coding_tools_mcp/patching.py:370 | The sort gives an ascending permutation. |
| HunkText.ReadsBackExactlyWhen | runtime/coding-tools-mcp/coding_tools_mcp/patching.py:328-445 | New lines written in the form of the old text, its byte order mark and line endings included, are the lines that the next patch finds, exactly unless an empty last line goes without a final newline or a lone newline stands for no line. |
| HunkText.NormalizeIsOnePass | runtime/coding-tools-mcp/coding_tools_mcp/patching.py:440-441 | The two replacements are one pass: a carriage return before a newline goes, any other becomes a newline. |
| HunkText.WrittenCrlfReadsBack | runtime/coding-tools-mcp/coding_tools_mcp/patching.py:440-445 | Text with newlines only survives being written with CRLF and read again. |
| HunkText.UsesCrlfExactlyWhen | runtime/coding-tools-mcp/coding_tools_mcp/patching.py:432-437 | A text is taken to use CRLF exactly when its first newline follows a carriage return. |
| HunkText.RefusedByMarks | runtime/coding-tools-mcp/coding_tools_mcp/patching.py:335-413 | All hunks are parsed first: the first badly marked line of the first such hunk decides the error. |
| HunkText.RefusedByContext | runtime/coding-tools-mcp/coding_tools_mcp/patching.py:336-368 | Otherwise the first hunk that cannot be placed decides: not found when its old lines are nowhere, ambiguous with their number of places when there are more. |
| HunkText.RefusedByOverlap | runtime/coding-tools-mcp/coding_tools_mcp/patching.py:370-381 | Hunks refused as overlapping are two that do, the one that starts no later named first. |
| RuntimeControl.ActiveOnlyIfNewestStarts | src-tauri/src/app/background.rs:1102-1542 | For every interleaving of any number of operations, once all are over a runtime is active only if the operation with the highest generation was a start or restart. |
| RuntimeControl.ActiveExactlyWhen | src-tauri/src/app/background.rs:1102-1542 | Which end state it is: if the newest operation got its thread, a runtime is active exactly when it found or registered one and no older stop took the slot after it; if its thread could not be spawned, exactly when the slot was filled and no operation in flight was to empty it when it was drawn. |
| RuntimeControl.NewestStartDecides | src-tauri/src/app/background.rs:1339-1542 | If no stop still waits for the lock when a start or restart is drawn last, a runtime is left active exactly when that operation registered one or found one. |
| StartSchedules.NewestDecidesExactlyWhen | src-tauri/src/app/background.rs:1102-1542 | What a caller can tell at the draw: a start or restart drawn last decides in every run whether a runtime is left active exactly when no stop still waits for the lock. |
| StartSchedules.QueuedStopMayWin | src-tauri/src/app/background.rs:1102-1121 | From every reachable state with a queued stop some schedule ends with the newer start settled and the slot empty. |
| StartSchedules.Drain | src-tauri/src/app/background.rs:1339-1542 | From every reachable state some schedule brings all operations to their end. |
| RuntimeControl.SpawnFailureDecides | src-tauri/src/app/background.rs:1495-1542 | The case of the spawned start that never gets its thread, from the state in which it was drawn. |
| StartSchedules.OlderStopTakesNewerRuntime | src-tauri/src/app/background.rs:1102-1121 | The smallest such run: a stop drawn first takes the runtime of a start drawn later, because stops do not check their generation. |
| RuntimeControl.RuntimesConserved | src-tauri/src/app/background.rs:1405-1435 | With no operation in flight every started runtime is the active one, untouched, or has had its tunnel stop and its lower finish called exactly once each. |
| RuntimeControl.TunnelFirst | src-tauri/src/app/background.rs:437-454 | At every moment the lower finish of a runtime has its tunnel stop before it and neither is repeated. |
| RuntimeControl.ActivateFindsSlotFree | src-tauri/src/app/background.rs:235-244 | Under the operation lock, registering a runtime never finds another one registered. |
| RuntimeControl.InvHolds | src-tauri/src/app/background.rs:1339-1542 | Mutual exclusion, conservation and the rule that no older start refills the slot hold in every reachable state. |
| RuntimeControl.ActionsAreBounded | src-tauri/src/app/background.rs:1339-1542 | Every action brings its operation closer to its end. |
| RuntimeControl.NeverStuck | src-tauri/src/app/background.rs:1339-1542 | Until all operations are over some operation can act. |
| RuntimeOwner.ProductionRuntimeOwner.StartProductionRuntimeLocked | src-tauri/src/app/background.rs:1364-1403 | Which of its four results a start has, exactly, from the answers of its generation checks and of its runtime and from the slot it finds; what it leaves in the slot and which calls it makes in each case; and that it is a sequence of the atomic actions above. |
| RuntimeOwner.ProductionRuntimeOwner.ActivateRuntimeIfCurrentLocked | src-tauri/src/app/background.rs:1405-1435 | Registering with a check before and after: registered exactly when both checks pass and the slot is free; a superseded runtime is given up, tunnel first, and the slot is as before. |
| RuntimeOwner.ProductionRuntimeOwner.RestartProductionRuntime | src-tauri/src/app/background.rs:1455-1491 | A restart never answers that a runtime is registered. Current when it gets the lock, it stops the tunnel of the runtime it finds and finishes it before anything else; it gives up with a failed stop exactly when one of these two calls fails; it ends active exactly when all its checks pass and its own runtime starts, and that runtime is then in the slot. |
| RuntimeOwner.ProductionRuntimeOwner.StopServices | src-tauri/src/app/background.rs:1102-1152 | Both stop and both shutdown paths: the slot is empty, the runtime that was there has had both its calls, and these come in security order: tunnel, privilege gate where it is closed, the rest. |
| RuntimeOwner.ProductionRuntimeOwner.ShutdownInSecurityOrder | src-tauri/src/app/background.rs:437-454 | The privilege gate is closed after the tunnel stop and before the lower finish, whatever fails, and also when no runtime is active; the report says which calls failed. |
| RuntimeOwner.ProductionRuntimeOwner.TakeDownPrevious | src-tauri/src/app/background.rs:1458-1474 | A restart takes the previous runtime out and makes both calls, and may go on exactly when there was none or both succeeded. |
| RuntimeOwner.ProductionRuntimeOwner.StopTunnelThenFinish | src-tauri/src/app/background.rs:1463-1474 | The lower finish is called whether or not the tunnel stop succeeded. |
| RuntimeOwner.CallsDecide | src-tauri/src/app/background.rs:1386-1474 | A start fails exactly when the start of its runtime does, a restart gives up exactly when either stop call failed. |
| RuntimeSections.SlotIsHolders | src-tauri/src/app/background.rs:1339-1542 | Over every interleaving: from getting the operation lock until letting go of it, the slot is what the holder's own path makes of the slot it found. |
| RuntimeSections.SectionEnds | src-tauri/src/app/background.rs:1339-1542 | Over every interleaving, what each kind of operation leaves in the slot for each result it can end with. |
| RuntimeSections.EndsAs | src-tauri/src/app/background.rs:1339-1542 | Told by result: a start that finds a runtime leaves it alone, an activated operation's own runtime is in the slot, and a restart or stop has made both calls on the runtime it found. |
| RuntimeSections.RestartReplaces | src-tauri/src/app/background.rs:1455-1491 | Over every interleaving a restart never ends on a registered runtime; when it ends active, the runtime it found has been stopped once and finished once and the one in the slot is one it started itself. |
| SchedulerRuns.NoLostWakeup | src-tauri/src/control_plane/scheduler.rs:147-202 | In every reachable state: with the slot free and work queued the front waiter is awake and its next turn is granted; every cancelled waiter is awake and its next turn returns cancelled. |
| SchedulerRuns.GrantsAreFifo | src-tauri/src/control_plane/scheduler.rs:147-202 | Grants so far followed by the queue are the admissions in the order they held the lock, less the cancelled ones; the fast path never overtakes. |
| SchedulerRuns.OneFateEach | src-tauri/src/control_plane/scheduler.rs:147-293 | Each accepted admission is queued, granted or cancelled, never two of these, and returns accordingly. |
| SchedulerRuns.CountersAreExact | src-tauri/src/control_plane/scheduler.rs:314-347 | The counters equal the live permits and stay in their limits, so no saturating subtraction clips; at most one work permit. |
| SchedulerRuns.NothingGrantedAfterClose | src-tauri/src/control_plane/scheduler.rs:236-250 | After a close nothing is granted or queued in any continuation. |
| SchedulerRuns.InvHolds | src-tauri/src/control_plane/scheduler.rs:109-347 | All invariants hold over every interleaving, spurious wake-ups included. |
| SchedulerRuns.CancelKeepsInv | src-tauri/src/control_plane/scheduler.rs:217-293 | Removing any set of queued tickets keeps order, counts and wake-ups. |
| WorkScheduler.Scheduler.AdmitWork | src-tauri/src/control_plane/scheduler.rs:159-189 | The first critical section of an admission: refused exactly when closed, granted exactly when the slot is free and nobody waits, refused exactly when 32 wait, otherwise last in the queue and asleep; nothing else changes. |
| WorkScheduler.Scheduler.RecheckWork | src-tauri/src/control_plane/scheduler.rs:190-202 | The section after a wake-up: cancelled exactly when its ticket was, granted exactly at the front of the queue with a free slot, otherwise asleep again; nothing else changes. |
| WorkScheduler.Scheduler.EnterImmediateLane | src-tauri/src/control_plane/scheduler.rs:110-145 | The observation and control lanes: refused exactly when closed or at sixteen in that lane. |
| WorkScheduler.Scheduler.CancelQueuedRequest | src-tauri/src/control_plane/scheduler.rs:217-234 | With a first queued entry of the request: that entry leaves the queue, its ticket is cancelled, every waiter wakes and its task is returned. Without one nothing changes. |
| WorkScheduler.Scheduler.CancelQueuedTask | src-tauri/src/control_plane/scheduler.rs:273-293 | The same for the first queued entry of a session's task. |
| WorkScheduler.Scheduler.CancelQueuedBySession | src-tauri/src/control_plane/scheduler.rs:252-271 | Cancels exactly the queued entries of a session and keeps the others in order. |
| WorkScheduler.Scheduler.CloseScheduler | src-tauri/src/control_plane/scheduler.rs:236-250 | Closes, cancels the whole queue and reports its tasks in order. |
| WorkScheduler.Scheduler.DropImmediatePermit | src-tauri/src/control_plane/scheduler.rs:314-330 | Gives back a lane permit. |
| WorkScheduler.Scheduler.DropWorkPermit | src-tauri/src/control_plane/scheduler.rs:332-347 | Gives back the work slot and wakes every waiter. |
| WorkScheduler.RemoveIsKeep | src-tauri/src/control_plane/scheduler.rs:217-234 | Removing one queue entry is keeping all others. |
| SchedulerSections.CancellationIsExact | src-tauri/src/control_plane/scheduler.rs:217-293 | In every run a cancellation takes out of the queue exactly the tickets it names: the first of the request or of the task, all of the session, or all; they are cancelled and nothing else is granted, returned or removed. |
| SchedulerSections.CancelledForGood | src-tauri/src/control_plane/scheduler.rs:147-293 | What a cancellation names is granted in no continuation of the run: it is queued no more, its waiter is awake, and its admission can only return cancelled. |
| SchedulerSections.AdmissionIsExact | src-tauri/src/control_plane/scheduler.rs:159-189 | In every run: which of its four outcomes an admission has, from the state it finds, and what it leaves. |
| SchedulerSections.RecheckIsExact | src-tauri/src/control_plane/scheduler.rs:190-202 | In every run: the same for a waiter that is awake. |
| SchedulerSections.LanesAreExact | src-tauri/src/control_plane/scheduler.rs:110-145 | In every run: the same for a call that enters an immediate lane. |
| SchedulerSections.ReleaseFreesSlot | src-tauri/src/control_plane/scheduler.rs:332-347 | In every run a released work permit leaves the slot free and wakes every waiter. |
| ExecutionRuns.RegistryStaysWellFormed | src-tauri/src/control_plane/execution_registry.rs:237-284 | Over every run from an empty registry, crashes included: at most 64 live and 64 ended records; execution and public-session ids unique; live runtime handles distinct; an orphaned record has no owner, an ended one no token; cancellation intents only for live executions. |
| ExecutionRuns.OutcomeIsFinal | src-tauri/src/control_plane/execution_registry.rs:504-542 | An ended execution keeps its outcome and public session in every continuation until its record is evicted. |
| ExecutionRuns.TokenAcceptedOnce | src-tauri/src/control_plane/execution_registry.rs:315-367 | No adoption token is accepted twice in any run. |
| ExecutionRuns.AdoptionNeedsOrphan | src-tauri/src/control_plane/execution_registry.rs:315-367 | A token is accepted exactly when it is the current token of a live, orphaned, unowned execution. |
| ExecutionRuns.OwnershipIsNotTaken | src-tauri/src/control_plane/execution_registry.rs:369-405 | No operation gives a live, owned execution to another session: an owner is lost only by orphaning it, and gained only from an orphaned state by adoption or transfer. |
| ExecutionRuns.CrashRecovery | src-tauri/src/control_plane/execution_registry.rs:168-216 | Stopping at any point of any transaction and reopening yields the last 64 records from before it or from after it, in their order. Each has the same id, public session, task, owner and start; one that had ended has the same end; one that was live has ended as Lost, with its session unavailable; none has a token or handle. |
| ExecutionRuns.CrashLeaves | src-tauri/src/control_plane/execution_registry.rs:168-216 | The same for a crash in the middle of any run, with the records from after the transaction exactly when its file had replaced the old one; no cancellation intent is left. |
| ExecutionRuns.FileIsOldOrNew | src-tauri/src/control_plane/execution_registry.rs:844-881 | However writing is interrupted, the state file is the old one or the complete new one. |
| ExecutionRuns.EndedSurvives | src-tauri/src/control_plane/execution_registry.rs:168-216 | An ended record comes back from disk as it was, less its handle. |
| ExecutionRuns.ChangeSteps | src-tauri/src/control_plane/execution_registry.rs:315-669 | Operations other than a start keep every record in place, keep its identity and never change an outcome. |
| ExecutionRuns.InvHolds | src-tauri/src/control_plane/execution_registry.rs:168-216 | The registry, its file and the record of spent tokens stay consistent over every run. |
| ExecutionRegistry.TrimmedKeepsLast | src-tauri/src/control_plane/execution_registry.rs:807-824 | Trimming keeps every live record and the last 64 ended ones, in order. |
| ExecutionRegistry.TrimmedLists | src-tauri/src/control_plane/execution_registry.rs:807-824 | A record stays listed exactly when it is live or fewer than 64 ended ones follow it. |
| ExecutionRegistry.TrimmedInOrder | src-tauri/src/control_plane/execution_registry.rs:807-824 | What trimming keeps stays in its order, live and ended records together. |
| ExecutionRegistry.TrimmedCounts | src-tauri/src/control_plane/execution_registry.rs:807-824 | Live records are never trimmed and at most 64 ended ones remain. |
| ExecutionRegistry.DropOldest | src-tauri/src/control_plane/execution_registry.rs:807-824 | Removing the oldest ended record of too many does not change what trimming leaves. |
| ExecutionRegistry.Registry.Transact | src-tauri/src/control_plane/execution_registry.rs:711-727 | A transaction that returns an error leaves memory and file unchanged; one that succeeds has both at the trimmed new state. |
| ExecutionRegistry.Registry.TrimState | src-tauri/src/control_plane/execution_registry.rs:807-824 | The loop that removes the oldest ended record computes the trimming. |
| ExecutionRegistry.Registry.Persist | src-tauri/src/control_plane/execution_registry.rs:844-881 | Writes the records without token hashes and handles, or leaves the file. |
| ExecutionRegistry.Registry.Operate | src-tauri/src/control_plane/execution_registry.rs:504-542 | An operation with its effect on cancellation intents: those of settled executions are dropped. |
| ExecutionRegistry.Registry.RequestCancel | src-tauri/src/control_plane/execution_registry.rs:438-466 | Records an intent for a live execution, in place of an earlier one, and refuses an ended or unknown one. |
| ExecutionRegistry.Registry.Signal | src-tauri/src/control_plane/execution_registry.rs:468-486 | The recorded intent of a public session, if any. |
| ExecutionRegistry.Registry.ClearCancel | src-tauri/src/control_plane/execution_registry.rs:488-502 | Forgets the intent of a public session. |
| ExecutionRegistry.Registry.Lookup | src-tauri/src/control_plane/execution_registry.rs:544-556 | The record of a public session. |
| ExecutionRegistry.Registry.CheckTransfer | src-tauri/src/control_plane/execution_registry.rs:369-405 | The first obstacle to a workflow transfer, in record order. |
| ExecutionChanges.StartIsExact | src-tauri/src/control_plane/execution_registry.rs:237-284 | When a start is refused, and the record it adds. |
| ExecutionChanges.AdoptIsExact | src-tauri/src/control_plane/execution_registry.rs:315-367 | The first thing that forbids an adoption decides its error, in the order ended, owned, not orphaned, wrong token; otherwise that one record has its new owner and token and is orphaned no more. |
| ExecutionChanges.TransferIsExact | src-tauri/src/control_plane/execution_registry.rs:369-405 | All executions of a task go to the session, or none: the first live one that another owns or nobody orphaned decides the error. |
| ExecutionChanges.BindIsExact | src-tauri/src/control_plane/execution_registry.rs:407-436 | A handle is bound exactly when no other live execution runs under it and the execution has no other. |
| ExecutionChanges.FinishIsExact | src-tauri/src/control_plane/execution_registry.rs:504-542 | The recorded end, field by field, with its texts bounded; ending an ended execution again is accepted exactly with the same outcome and changes nothing. |
| ExecutionChanges.OutputRefsAreFirst | src-tauri/src/control_plane/execution_registry.rs:729-740 | A record keeps the first four texts that name stored output, each cut to 128 characters. |
| ExecutionChanges.SweepsAreExact | src-tauri/src/control_plane/execution_registry.rs:591-621 | Orphaning takes the owner from exactly the session's live executions; an observation renews exactly the running ones. |
| ExecutionChanges.ReapIsExact | src-tauri/src/control_plane/execution_registry.rs:623-669 | Reaping declares lost exactly the live executions orphaned for thirty minutes or started a day ago, and says which. |
| ExecutionChanges.OrphaningReleases | src-tauri/src/control_plane/execution_registry.rs:591-609 | In every run: after orphaning a session it owns no live execution, and each it owned is still listed and live, orphaned from that moment. |
| ExecutionChanges.ReapingClears | src-tauri/src/control_plane/execution_registry.rs:623-669 | In every run: after a reaping no live execution is past either limit, and each that was within both is listed unchanged. |
| ExecutionChanges.IntentsAreExact | src-tauri/src/control_plane/execution_registry.rs:438-502 | Requesting, reading and clearing the intent of a public session, for a live execution and for an ended one. |
| ExecutionChanges.IntentsOutlive | src-tauri/src/control_plane/execution_registry.rs:504-669 | An intent outlives every operation but the recorded end of its own execution. |
| ExecutionChanges.SecretsStayInMemory | src-tauri/src/control_plane/execution_registry.rs:844-881 | Over every run, crashes included, the state file never holds a token hash or a runtime handle. |
| CommandControl.ControlGuarantees | src-tauri/src/control_plane/command_control.rs:138-267 | On every registry that can arise, for every reply of the runtime and every disk: a kill that is answered with a report says cancelled; an end recorded while an intent stands is a cancellation; a report agrees with the record. |
| CommandControl.KillReportsCancelled | src-tauri/src/control_plane/command_control.rs:138-267 | A kill that returns a report reports the command as cancelled. |
| CommandControl.CancellationWins | src-tauri/src/control_plane/command_control.rs:213-247 | With an intent recorded, an end that a control call records is Cancelled whatever the runtime calls it. |
| CommandControl.ReportMatchesRecord | src-tauri/src/control_plane/command_control.rs:138-292 | A reported status is the status of the record, unless it was evicted. |
| CommandControl.LaterPollsRepeat | src-tauri/src/control_plane/command_control.rs:269-292 | After an execution has ended every later poll that finds its record repeats its status, exit code and signal, and changes nothing. |
| CommandControl.ControlIsRegistryRun | src-tauri/src/control_plane/command_control.rs:138-267 | What a control call does to the registry some registry operations do in its place, so all results over runs apply with control calls among them. |
| CommandControl.FinishSettles | src-tauri/src/control_plane/command_control.rs:228-247 | Finishing a live execution always succeeds in memory; the finished record is then listed exactly when fewer than 64 ended executions are listed after it. |
| CommandControl.VanishedIsReportedExactlyWhen | src-tauri/src/control_plane/command_control.rs:180-203 | A vanished command whose cancellation was requested is reported as cancelled exactly under that condition; otherwise the caller is told that the session is unavailable. |
| Eviction.FinishedButNotListed | src-tauri/src/control_plane/execution_registry.rs:807-824 | A run after which finishing the first execution succeeds and leaves it unlisted. |
| ControlInterleaving.IntentLosesExactlyWhen | src-tauri/src/control_plane/command_control.rs:215-247 | With the intent read before the commit: an intent that stands at the commit loses exactly when it was not there at the read, the runtime reported another end, and the commit is written and still listed. |
| ControlInterleaving.LostIntentsOvertake | src-tauri/src/control_plane/command_control.rs:215-247 | Over every run an intent that lost was requested between the read and the commit. |
| ControlInterleaving.KillBetweenLoses | src-tauri/src/control_plane/command_control.rs:215-247 | And every intent that arrived there, still stands at the commit and is for the same execution does lose, whatever else happened between. |
| ControlInterleaving.KillAloneLoses | src-tauri/src/control_plane/command_control.rs:215-247 | Such intents there are: a request that comes alone between read and commit. |
| ControlInterleaving.IntentSurvivesFailureExactlyWhen | src-tauri/src/control_plane/command_control.rs:179-212 | A call that the runtime fails leaves an intent standing exactly when it is not refused and does not settle the execution. |
| CommandControl.ControlCommand | src-tauri/src/control_plane/command_control.rs:138-267 | The call as it drives the registry computes the function that those results are about. |
| CommandControl.OnFailure | src-tauri/src/control_plane/command_control.rs:180-212 | What an error of the runtime leads to: a vanished command with an intent is settled as cancelled; a refused call clears the intent. |
| CommandControl.OnObservation | src-tauri/src/control_plane/command_control.rs:213-267 | What an observation leads to: commit before reporting, and a timeout for a kill that still runs. |
| CommandReports.ObservedEnd | src-tauri/src/control_plane/command_control.rs:213-267 | When an observed end is written: every field of the report; the record is listed exactly under the count; and if it is, its outcome, exit code, signal (the observed one, else the intent's, cut to 128 characters), error code and time, with its identity kept. |
| CommandReports.VanishedEnd | src-tauri/src/control_plane/command_control.rs:180-203 | The same for a command that the runtime no longer knows and whose cancellation was requested. |
| CommandReports.UnwrittenEnd | src-tauri/src/control_plane/command_control.rs:180-247 | An end that cannot be written changes no record and is answered as an unavailable runtime. |
| CommandReports.ObservedRunning | src-tauri/src/control_plane/command_control.rs:213-267 | A command that still runs is reported as running, except that a kill times out; only the kill's intent is left. |
| CommandReports.FailedCall | src-tauri/src/control_plane/command_control.rs:204-212 | Each error of the runtime with its answer; exactly the two refusals take the intent back. |
| CommandReports.StoppedCall | src-tauri/src/control_plane/command_control.rs:138-171 | Calls that never reach the runtime: their answers, and that they change nothing. |
| CommandReports.LaterPollAgrees | src-tauri/src/control_plane/command_control.rs:138-292 | Over every run: after a call that was answered with an end, every later poll that finds its record repeats that status and exit code, and that signal up to 128 characters. |
| Convergence.ConvergesInTwoActions | src-tauri/src/control_plane/convergence.rs:285-347 | With services wanted and a workspace set, carrying out the plan from any settled observation takes at most two actions, never waits, and ends with no action exactly when work is authorized. |
| Convergence.ReachesAuthorizedWork | src-tauri/src/control_plane/convergence.rs:285-347 | Every settled observation does reach authorized work that way. |
| Convergence.ActionsReduceDisagreement | src-tauri/src/control_plane/convergence.rs:285-347 | Each planned action reduces the number of disagreements. |
| Convergence.AgreementIsAuthority | src-tauri/src/control_plane/convergence.rs:416-473 | No disagreement, no planned action and authorized work are the same thing for settled observations. |
| Convergence.PlanIsEmptyExactlyWhen | src-tauri/src/control_plane/convergence.rs:306-341 | With services wanted the runtime plan is empty exactly when work is authorized; otherwise exactly when stopped, and work is never authorized. |
| Convergence.AuthorizedExactlyWhen | src-tauri/src/control_plane/convergence.rs:237-249 | Work is authorized exactly when services are wanted, the runtime is ready, the workspace is the wanted one, and the connection is, if one is wanted. |
| Convergence.NoWorkspaceOnlyWaits | src-tauri/src/control_plane/convergence.rs:310-326 | Without a workspace nothing ever authorizes work. |
| Convergence.TwoActionsAreNeeded | src-tauri/src/control_plane/convergence.rs:310-338 | Two actions are needed when workspace and connection both moved. |
| Convergence.AuthorityIsBounded | src-tauri/src/control_plane/convergence.rs:375-414 | Execution never exceeds the configured mode; administrator paths need an active and wanted broker; the permission plan is empty exactly when authority has converged or the user is being asked. |
| Convergence.RevisionIdentifiesDesired | src-tauri/src/control_plane/convergence.rs:142-153 | Over every run two moments with one revision below saturation have the same desired state. |
| Convergence.SaturatedRevisionRepeats | src-tauri/src/control_plane/convergence.rs:142-153 | At the largest revision the state changes without the revision. |
| Convergence.RevisionReached | src-tauri/src/control_plane/convergence.rs:142-153 | Every revision up to the largest is reached by some run. |
| Convergence.DesiredStateOwner.Mutate | src-tauri/src/control_plane/convergence.rs:114-153 | Each setter changes its field, and the revision exactly when the state changed. |
| ConvergencePlans.RuntimePlanIsExact | src-tauri/src/control_plane/convergence.rs:299-341 | The exact situation in which each runtime action is planned. |
| ConvergencePlans.PermissionPlanIsExact | src-tauri/src/control_plane/convergence.rs:287-297 | The exact situation in which each permission action is planned. |
| ConvergencePlans.StopsInOneAction | src-tauri/src/control_plane/convergence.rs:299-303 | With services unwanted the runtime is stopped from any state by one action, after which nothing is planned. |
| ConvergencePlans.AuthorityIsExact | src-tauri/src/control_plane/convergence.rs:375-414 | The configured and the effective permission, and each way they can be apart. |
| ConvergencePlans.PartsAreExact | src-tauri/src/control_plane/convergence.rs:416-473 | Workspace, connection and services in effect, or the reason why not. |
| ConvergencePlans.SetterSets | src-tauri/src/control_plane/convergence.rs:114-153 | In every run a setter sets its own field to what it was given and no other, and changed credentials give the connection its next epoch. |
| ConvergencePlans.LastSetterStands | src-tauri/src/control_plane/convergence.rs:114-153 | Over every run each field is what the last change that sets it made it, or the default. |
| SnapshotRuns.GatesAgreeExactlyWhen | src-tauri/src/control_plane/snapshot.rs:307-327 | For every observation: the published snapshot authorizes work exactly when the runtime agrees with the desired state; that is the answer of the effective state exactly when services are wanted or both are closed; with services wanted it is also the empty plan. |
| SnapshotRuns.GatesDisagree | src-tauri/src/control_plane/snapshot.rs:307-327 | A case with services switched off in which the snapshot gate is still open. |
| SnapshotRuns.AuthorizedByLastObservation | src-tauri/src/control_plane/snapshot.rs:478-490 | Over every run the snapshot authorizes work exactly when the last observation found agreement and was not marked stale since. |
| SnapshotRuns.RevisionIdentifiesSnapshot | src-tauri/src/control_plane/snapshot.rs:429-462 | Over every run two moments with one revision below saturation have the same snapshot. |
| SnapshotRuns.SaturatedRevisionRepeats | src-tauri/src/control_plane/snapshot.rs:429-462 | At the largest revision sections change without the revision. |
| SnapshotRuns.RevisionReached | src-tauri/src/control_plane/snapshot.rs:429-462 | Every revision up to the largest is reached by some run. |
| SnapshotRuns.NoUpdateIsLost | src-tauri/src/control_plane/snapshot.rs:417-427 | Over every interleaving each section, and each source's fault, is what its own updates alone would have made it. |
| SnapshotRuns.FaultsMarkUnbrokenRuns | src-tauri/src/app/background.rs:588-702 | At most one fault per source; it is listed exactly while the updates that decide about the source find a problem, first seen at the first of them, with the error and time of the last. |
| SnapshotRuns.FaultStep | src-tauri/src/app/background.rs:588-702 | Every update acts on each fault source by itself. |
| Snapshots.ControlPlaneSnapshotOwner.Update | src-tauri/src/control_plane/snapshot.rs:417-462 | Reads, drafts and publishes under one lock; the revision moves exactly when some section changes. |
| Snapshots.ControlPlaneSnapshotOwner.Initialize | src-tauri/src/control_plane/snapshot.rs:397-406 | Publishes only over the first revision. |
| SnapshotContents.LastObservationIsShown | src-tauri/src/app/background.rs:493-642 | Over every run the snapshot shows what the last observation wanted, saw and found in effect, each in its place, unless it was marked stale since. |
| SnapshotContents.ObservationIsShown | src-tauri/src/app/background.rs:533-586 | Desired and effective permission, workspace and connection of an observation, field by field. |
| SnapshotContents.ObservationShowsRuntime | src-tauri/src/app/background.rs:620-642 | The runtime and the tasks of an observation; settings and update are left alone. |
| SnapshotContents.SettingsAreShown | src-tauri/src/app/background.rs:668-702 | Settings as published, and as faulty while they have a problem. |
| SnapshotContents.StaleKeepsValues | src-tauri/src/control_plane/snapshot.rs:464-490 | Marking as stale keeps every value that was shown. |
| SnapshotContents.SmallUpdatesAreExact | src-tauri/src/control_plane/snapshot.rs:492-507 | Publishing the update section, or the local environment, changes only that. |
| RollingOutput.BufferIsLastBytes | runtime/coding-tools-mcp/coding_tools_mcp/processes.py:610-622 | Over every run of appends and snapshots the buffer is the last min(limit, total) bytes written, and the dropped count is its start offset. |
| RollingOutput.SnapshotsAreConsecutive | runtime/coding-tools-mcp/coding_tools_mcp/processes.py:229-239 | Snapshots deliver disjoint segments of the stream in order; with the omitted counts they add up to everything written. |
| RollingOutput.SnapshotIsExact | runtime/coding-tools-mcp/coding_tools_mcp/processes.py:229-239 | A snapshot omits exactly what no longer fits and delivers all the rest. |
| RollingOutput.NothingOmittedNothingLost | runtime/coding-tools-mcp/coding_tools_mcp/processes.py:229-239 | Snapshots that omit nothing put together are the stream. |
| RollingOutput.PagesRebuildRetained | runtime/coding-tools-mcp/coding_tools_mcp/server.py:2823-2829 | Following the next offsets, with any page limits, ends and rebuilds exactly the retained bytes from the requested offset. |
| RollingOutput.PagesRebuildBuffer | runtime/coding-tools-mcp/coding_tools_mcp/server.py:2823-2829 | From the start the pages are the whole buffer, after any run. |
| RollingOutput.PageIsExact | runtime/coding-tools-mcp/coding_tools_mcp/server.py:2823-2830 | A page is the stream's bytes at its offset, exactly as many as the limit (kept between 1 and 524288) and the stream allow, says how many it skipped, and names a next offset exactly when bytes remain, always further on. |
| RollingOutput.ExecSession.AppendStdout | runtime/coding-tools-mcp/coding_tools_mcp/processes.py:183-192 | Extends, counts and trims; the other stream is untouched. |
| RollingOutput.ExecSession.AppendStderr | runtime/coding-tools-mcp/coding_tools_mcp/processes.py:194-203 | The same for the error stream. |
| RollingOutput.ExecSession.SnapshotSinceCursor | runtime/coding-tools-mcp/coding_tools_mcp/processes.py:229-239 | Both streams since their cursors, which then catch up. |
| RollingOutput.RetainedExecOutput.Capture | runtime/coding-tools-mcp/coding_tools_mcp/processes.py:376-416 | Output of a finished session is retained with its offsets and cursors. |
| RollingOutput.RetainedExecOutput.SnapshotSinceCursor | runtime/coding-tools-mcp/coding_tools_mcp/processes.py:426-435 | Snapshots go on from where the session's stopped. |
| HttpSessionRuns.CapacityHolds | runtime/coding-tools-mcp/coding_tools_mcp/transport_http.py:36-61 | For every interleaving at most 128 sessions are installed, counting those that creates in flight may still add, though the counter counts an installed one twice until its create ends. |
| HttpSessionRuns.AdmissionIsExact | runtime/coding-tools-mcp/coding_tools_mcp/transport_http.py:38-43 | With no create in flight a create is turned away exactly when the manager is closed or holds 128 sessions. |
| HttpSessionRuns.InstalledOrClosedOnceExactlyWhen | runtime/coding-tools-mcp/coding_tools_mcp/transport_http.py:44-96 | Once all calls have finished, every runtime the factory made is installed once and not closed, or closed exactly once: exactly when no runtime close raised while the call that made it still had others to close. |
| HttpSessionRuns.NeverBoth | runtime/coding-tools-mcp/coding_tools_mcp/transport_http.py:44-96 | At every moment, whatever raises: installed at most once, closed at most once, never both. |
| HttpSessionRuns.RaisingCloseDropsTheRest | runtime/coding-tools-mcp/coding_tools_mcp/transport_http.py:82-96 | A close that raises leaves the rest of its batch neither installed nor closed. |
| HttpSessionRuns.ARunThatLoses | runtime/coding-tools-mcp/coding_tools_mcp/transport_http.py:90-96 | A run of two creates and a shutdown at whose end a runtime is neither installed nor closed. |
| HttpSessionRuns.NothingAfterClose | runtime/coding-tools-mcp/coding_tools_mcp/transport_http.py:48-53 | After close no session is installed at any later time. |
| HttpSessionRuns.InvHolds | runtime/coding-tools-mcp/coding_tools_mcp/transport_http.py:36-96 | The invariants behind these hold over every interleaving. |
| HttpSessionRuns.TakeOutKeepsInv | runtime/coding-tools-mcp/coding_tools_mcp/transport_http.py:74-96 | Taking sessions out for closing, by delete, expiry or shutdown, keeps them. |
| HttpSessionLifetime.ServesWhileUsed | runtime/coding-tools-mcp/coding_tools_mcp/transport_http.py:63-96 | Over every interleaving a session serves its runtime for as long as it is not deleted, the manager is not closed, and no prune comes more than an hour after its last use. |
| HttpSessionLifetime.StepTreats | runtime/coding-tools-mcp/coding_tools_mcp/transport_http.py:36-96 | What any step does to a session: exactly these end it, and exactly a use of an open manager renews it. |
| HttpSessionLifetime.EndedSessions | runtime/coding-tools-mcp/coding_tools_mcp/transport_http.py:74-96 | Each of these does end it. |
| HttpSessionLifetime.ReserveIsExact | runtime/coding-tools-mcp/coding_tools_mcp/transport_http.py:38-43 | In every run a create is counted exactly when the manager is open and sessions and creates together are below 128. |
| HttpSessionLifetime.InstallIsExact | runtime/coding-tools-mcp/coding_tools_mcp/transport_http.py:48-54 | A runtime is installed, as used now, exactly when the manager is open and its identifier is free. |
| HttpSessionLifetime.ReleaseIsExact | runtime/coding-tools-mcp/coding_tools_mcp/transport_http.py:56-61 | A create that ends gives its slot back and closes exactly the runtime that was refused. |
| HttpSessions.HttpSessionManager.TakeExpired | runtime/coding-tools-mcp/coding_tools_mcp/transport_http.py:82-86 | Takes out exactly the sessions last used more than an hour ago; the others stay as they are. |
| HttpSessions.HttpSessionManager.ReserveSlot | runtime/coding-tools-mcp/coding_tools_mcp/transport_http.py:38-43 | Refuses when closed or full, else counts a create. |
| HttpSessions.HttpSessionManager.InstallRuntime | runtime/coding-tools-mcp/coding_tools_mcp/transport_http.py:48-54 | Refuses when closed or on a duplicate identifier, else installs. |
| HttpSessions.HttpSessionManager.ReleaseSlot | runtime/coding-tools-mcp/coding_tools_mcp/transport_http.py:57-58 | Gives back a create's slot, whether or not it installed. |
| HttpSessions.HttpSessionManager.Find | runtime/coding-tools-mcp/coding_tools_mcp/transport_http.py:65-72 | Returns the runtime of an open manager's session and refreshes it. |
| HttpSessions.HttpSessionManager.Take | runtime/coding-tools-mcp/coding_tools_mcp/transport_http.py:75-76 | Takes out one session. |
| HttpSessions.HttpSessionManager.TakeAll | runtime/coding-tools-mcp/coding_tools_mcp/transport_http.py:91-94 | Closes and takes out every session. |
| TextTruncation.TruncateTextHead | runtime/coding-tools-mcp/coding_tools_mcp/textutils.py:37-91 | The head is a prefix of the text within both limits (floored at 1): whole lines up to the first that would break a limit, or the longest cut of a first line that is too long; text within the limits is untouched, and is the only text that is. |
| TextTruncation.TruncateTextTail | runtime/coding-tools-mcp/coding_tools_mcp/textutils.py:94-138 | The tail is a suffix of the text less its final newline within both limits: whole lines back to the first that would break a limit, or the longest cut of a last line that is too long; text within the limits is untouched. |
| TextTruncation.TruncateFromStart | runtime/coding-tools-mcp/coding_tools_mcp/textutils.py:141-148 | The longest prefix in whole characters within the bytes. |
| TextTruncation.TruncateFromEnd | runtime/coding-tools-mcp/coding_tools_mcp/textutils.py:151-158 | The longest suffix in whole characters within the bytes. |
| TextTruncation.TakeLines | runtime/coding-tools-mcp/coding_tools_mcp/textutils.py:68-78 | Lines from the front while they fit, and which limit stopped it. |
| TextTruncation.TakeLinesBack | runtime/coding-tools-mcp/coding_tools_mcp/textutils.py:108-124 | Lines from the back while they fit, and a cut last line if none does. |
| TextTruncation.JoinSplit | runtime/coding-tools-mcp/coding_tools_mcp/textutils.py:42 | Splitting at newlines and joining gives the text back. |
| TextTruncation.SplitJoin | runtime/coding-tools-mcp/coding_tools_mcp/textutils.py:79 | Joined lines split into the same lines. |
| Utf8.RoundTrip | runtime/coding-tools-mcp/coding_tools_mcp/textutils.py:142-148 | Decoding encoded text gives it back, so a cut at a character boundary never decodes to a replacement character. |
| Utf8.CodePointOfEncoded | runtime/coding-tools-mcp/coding_tools_mcp/textutils.py:142 | The encoding of a character is the one of UTF-8, by its length and the range of its code point. |
| Utf8.DecodedEncodes | runtime/coding-tools-mcp/coding_tools_mcp/textutils.py:142-148 | Bytes that decode are the encoding of what they decode to. |
| Utf8.BoundaryBefore | runtime/coding-tools-mcp/coding_tools_mcp/textutils.py:146-147 | A byte that is no continuation byte starts a character. |

## Left out

- PatchCommit.Commit: when calls fail, partially failed `mkdir` chains, leftover hidden temporary files and leftover new directories are not ruled out; asynchronous interrupts such as KeyboardInterrupt are not modelled.
- PatchHunks.ApplyUpdateHunks: error messages and retry hints; the sort is modelled as a stable insertion sort.
- RuntimeControl.ActiveOnlyIfNewestStarts: the generation is unbounded, so the wrap-around of a 64-bit counter is not modelled; the mutex of the slot is merged with the operation lock that always encloses its use; publishing starting, fault and inactive observations is left out.
- SchedulerRuns.GrantsAreFifo: order is the order of holding the lock; ticket numbers are drawn before it and need not agree.
- ExecutionRuns.CrashRecovery: migration of older file formats, unreadable files and a failed rewrite during reopening (after which there is no registry) are left out.
- ExecutionRegistry.Registry.Persist: creating the directory, fsync and the platform's rename are one write that succeeds or leaves the file; the bounded tokens of a terminal are counted in characters.
- CommandControl.ControlGuarantees: a control call is one step here; calls that overlap between the read of an intent and the commit are `ControlInterleaving`; wait times and request ids are only forwarded.
- Convergence.ConvergesInTwoActions: transient runtime states, which the plan waits out, are left to the runtime.
- Snapshots.ControlPlaneSnapshotOwner.Update: contents no rule looks into (last tool, outage, tasks, settings, update) are kept as text; the condition variable of `wait_after` is left out.
- RollingOutput.ExecSession.SnapshotSinceCursor: text decoding and the truncation of each snapshot for display come after the delivered bytes and are left out; process status, reader threads and session pruning too.
- HttpSessionRuns.InvHolds: the pruning that `create` and `get` begin with is a step of its own, so the runs include more interleavings than the program has.
- TextTruncation.TruncateTextHead: lone surrogates, which Python cannot encode either, are not text here.
- The patch envelope parser `parse_patch` and staging of operations: a line-by-line parser that would add only easy members.
- The new-output polling tests of `exec` and `read_output`: they only decide how long to wait.
- User interface, tray, autostart, credential store, real processes and signals, sandboxing, command policy, OAuth, telemetry and image handling: calls to the outside.
- The runtime driver, the orchestrator and the privilege controller: a start or stop succeeds or fails as the event says.
