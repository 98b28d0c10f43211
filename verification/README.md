# Transactions, recovery and parsing, verified

A Dafny 4.11 model of the transactional parts of this repository: the session journal and the
session that shares its state, plugin operations and generation replacement, package installation,
the agent worker, the supervisor's recovery manifest, the HTTP request re-parser and the child frame
reader. `dafny verify dfyconfig.toml` checks all of it.

| files | what they model |
|---|---|
| `Basics.dfy`, `Bytes.dfy` | optional values, results and sequences; searching and splitting byte strings |
| `Journal.dfy`, `CodecWitness.dfy` | the journal as a tree of records and as a byte file |
| `Storage.dfy`, `Recovery.dfy`, `SessionStore.dfy` | journal calls with failing I/O, crashes and reopening, and the class that makes them |
| `Session.dfy`, `Turns.dfy`, `SessionState.dfy`, `SessionCrashes.dfy`, `AgentSession.dfy`, `Send.dfy` | turns, checkpoints, commits, rollbacks, resets, resumes, forks and crashes over that journal; one prompt |
| `Operations.dfy`, `OperationRuns.dfy`, `RuntimeOperations.dfy`, `Generations.dfy` | nested operations and deferred reloads; loading and replacing plugins |
| `Workers.dfy`, `WorkerRuns.dfy`, `AgentWorker.dfy` | submit, cancel, approve, reset, reconfigure and stop against one owning thread |
| `DependencyOrder.dfy`, `Staging.dfy`, `PackageTransaction.dfy` | dependency order, staging, and the install transaction |
| `Supervisor.dfy`, `SavedManifests.dfy`, `SupervisorProcess.dfy` | claims and dispatches acknowledged only when durable |
| `HttpReplay.dfy`, `HttpRendering.dfy`, `Frames.dfy` | the two parsers, and the grammar that the first one inverts |

Code that other threads, processes or crashes can interrupt is a state machine: a function `Do` (or
`Step`) takes one atomic step, its parameters say what the environment decides (which file operation
fails, which hook raises), and the theorems are about every run. The same code as the program has it,
with fields and loops, is a class whose methods are proved equal to those steps. Algorithms that no
one interrupts (dependency order, staging, the transaction, the parsers) are methods with loops,
proved against independent definitions.

## What the proofs found

Where the code falls short of a statement one would expect, the statement is proved with its exact
condition and the failing input is given.

* Between turns memory and journal agree, except after a reset that forgot the history and then could
  not open a new journal, and after a fork whose write and whose undo hook both failed
  (`Turns.SlipsAreExact`, `Turns.ResetSlips`, `Turns.ForkSlips`). Plugin state agrees likewise, except also
  for values set outside a turn and not checkpointed (`SessionStates.OutsideIsExact`).
* Replaying the whole file gives the selection in memory, except when a failed attempt stayed whole in
  the file because truncating it failed too; a reopening without a crash then trusts a line that was
  never synced (`Storage.FileAgreesWithMemory`, `Recovery.LeftBehindHappens`).
* An externally completed turn commits what other threads or restore hooks put between taking its
  snapshot up and persisting it (`Turns.CompletionIsOverride`, `Turns.GapIsCommitted`).
* `send` can raise although its turn was committed, because a result report or an event callback runs
  after the commit (`Sending.RaisesAfterCommit`); and an aborted prompt uses up its number
  (`Sending.RaisesBeforeCommit`).
* A waiting reload request can be neither committed nor rolled back: an exception outside `Exception`
  while an earlier one is applied drops it (`Operations.DroppedExactly`).
* On a failed reload a surviving plugin's keep-on-reload cleanup is spared only if the failure came
  after all modules had loaded (`Generations.SparedExactly`, `Generations.FailedLoadRunsKeptCleanup`).
* A restoration hook that checkpoints makes all of the staged state durable, also when the reload then
  fails (`Generations.DurableSurvivesExactly`, `Generations.FailedReloadSavesStagedState`).
* A requirement is looked up in the catalog of whichever package asked first, so staging can be refused
  although a closed plan exists; with uniform catalogs it is refused only when none does
  (`StagingPlans.FirstAskerDecides`, `StagingPlans.StagedExactly`).
* Two equal install plans made from one receipt: the second one's rollback takes the first one's
  receipt for its own and erases it (`PackageTransactions.SameInstallTwice`).
* A worker whose control callback or activity observer raises outside `Exception`, or whose session
  reset raises, ends without any terminal event for the queued jobs (`Workers.DeadWorker`,
  `Workers.CrashedControlStrandsAJob`).
* A dispatch that could not be saved is not acknowledged, but its input is gone from memory and the
  next save drops it for good (`Supervision.RefusedDispatchStillDequeues`).

## Assumptions

* Journal identifiers, approval numbers, update request identifiers and claim tokens are fresh.
* Records are written by a lawful codec: injective, without line breaks. JSON is one.
* A write or sync either happens, fails, or leaves a prefix; a crash keeps every synced byte and any
  part of what was written after.
* While plugins are replaced, notification callbacks, commit callbacks and the retirement of source trees
  do not raise, and hooks called under the runtime lock do not call back into the runtime.
* One approval is waited for at a time, and nobody outside cancels a job's future.
* Each update request produces one result; the supervisor handles one core message at a time.
* Equal digests mean equal trees; a rollback's own file operations succeed; a package's directory carries
  the manifest of the name it is recorded under.

## Model

| member | source | states |
|---|---|---|
| Journal.LoadFile | raychat/storage.py:187-223 | reading back any file of whole records with any unterminated tail replays exactly those records, and the length kept is that of the whole records |
| Journal.Cut | raychat/storage.py:187-223 | wherever a journal is cut after its first k records, what remains is whole records, at least k, and one torn line |
| Journal.SelectionIsState | raychat/storage.py:225-248 | a replayed selection is an entry of the journal that carries plugin state |
| Journal.PrefixAgrees | raychat/storage.py:225-248 | what a prefix of the journal says of an entry (its record, branch history and state), the longer journal says too |
| Journal.PlainTailKeepsSelection | raychat/storage.py:225-248 | records that select nothing leave the durable selection where it was |
| Journal.ReplayExactly | raychat/storage.py:225-248 | a journal is accepted if and only if every record is new, has an earlier parent, and selects only an earlier record that carries state; then the last selecting record decides |
| CodecWitness.LawfulCodecExists | raychat/storage.py:250-268 | an injective, newline-free record encoding exists, so statements about lawful encodings are not empty |
| Storage.CrashOfExplained | raychat/storage.py:187-223 | cutting the disk of any reachable store anywhere past its synced bytes leaves a file that loads, keeps every synced record and drops at most one torn line, and selects the committed entry or the single selection in flight |
| Storage.StepSound | raychat/storage.py:283-409 | append, commit, checkpoint, fork and abort, with any outcome of write, flush, sync and truncate, keep the disk explained by the records in memory |
| Storage.StepIsCrashAtomic | raychat/storage.py:305-409 | a crash at any disk image of one call reopens to the snapshot before it or the one it makes durable, and a call that returns has made the latter durable |
| Storage.GoodStoreIsDurable | raychat/storage.py:343-409 | while nothing has failed, every crash reopens to exactly the snapshot in memory |
| Storage.FileAgreesWithMemory | raychat/storage.py:305-341 | replaying the whole file gives the selection in memory if and only if no failed attempt was left behind whole with another selection |
| Storage.ReturnsExactly | raychat/storage.py:250-409 | a call returns if and only if the journal is usable, its line and, for a durable one, its sync got through, and a fork names a completed turn |
| Storage.UnusableExactly | raychat/storage.py:250-341 | a call that raises makes the journal unusable unless nothing of its line was written and the file could be cut back |
| Recovery.OpenWellFormed | raychat/storage.py:187-223 | opening a well-formed file, torn or not, gives a good store on exactly its whole lines and truncates to them |
| Recovery.NewJournalCrash | raychat/storage.py:187-203 | a crash while a new journal is created leaves a file that opens empty if and only if nothing or the whole header line survived, and is refused otherwise |
| Recovery.CrashReopens | raychat/storage.py:187-223 | a crash of any reachable store, failed or not, reopens to a good one |
| Recovery.StepKeepsBranch | raychat/storage.py:283-409 | the committed history stays a prefix of the working branch through every call |
| Recovery.RunIsSound | raychat/storage.py:187-409 | both invariants hold over every life of a journal: any calls, failures, crashes and reopenings |
| Recovery.AnyCrashRecovers | raychat/storage.py:305-341 | in any life of a journal, a crash at any disk image of the next call reopens to the snapshot before or after that call, or, once a call has failed, to the snapshot in memory or the one that call was making durable |
| Recovery.CallThenCrash | raychat/storage.py:305-341 | a call that fails leaves the selection, and every later crash of its disk finds that selection or the one this call was making durable |
| Recovery.FailedStoreRecovers | raychat/storage.py:250-281 | in any life of a journal a crash finds the snapshot in memory or the one in flight when the journal failed |
| Recovery.FailedStoreIsFrozen | raychat/storage.py:250-281 | once failed, no call changes the records, the selection, or what a crash may find |
| Recovery.LeftBehindReopensUnsynced | raychat/storage.py:305-341 | a failed attempt that stays whole in the file is selected by a reopening without a crash, though it was never synced and a later crash loses it |
| Recovery.LeftBehindHappens | raychat/storage.py:305-341 | counterexample: a checkpoint whose line is written but neither synced nor truncated |
| SessionStores.SessionStore.Open | raychat/storage.py:187-223 | reading a file line by line gives the journal that `Recovery.Open` describes, or its reason for refusing |
| SessionStores.SessionStore.Append | raychat/storage.py:283-303 | one record added below the working head, or a failed store |
| SessionStores.SessionStore.DurableAppend | raychat/storage.py:305-341 | the synced append, and on failure the undo that restores the entries and cuts the file |
| SessionStores.SessionStore.RemoveAttempt | raychat/storage.py:328-340 | the truncation after a failed attempt, and the images the disk passes through |
| SessionStores.SessionStore.Commit | raychat/storage.py:343-350 | the completed turn is the new selection |
| SessionStores.SessionStore.Checkpoint | raychat/storage.py:352-364 | the state is the new selection, below the committed entry, and pending history keeps its branch |
| SessionStores.SessionStore.Abort | raychat/storage.py:366-369 | the working branch returns to the selection |
| SessionStores.SessionStore.Fork | raychat/storage.py:396-409 | only a completed turn can be selected, and then head and selection are that turn |
| SessionStores.SessionStore.NewSession | raychat/storage.py:436-441 | a new journal, or a failure before or after the old one was forgotten |
| SessionStores.SessionStore.Snapshot | raychat/storage.py:371-394 | the walk over parents computes the branch history and the selected state, and refuses what is not a completed turn |
| SessionStores.SessionStore.LoadRecords | raychat/storage.py:204-248 | the loop over records computes the replay, error for error |
| SessionStores.ReplayFailsEarly | raychat/storage.py:204-248 | a prefix that does not load makes the whole journal not load, with the same error |
| Sessions.StepKeepsInv | raychat/session.py:411-643 | every session step that is not one of the two exact slips keeps memory, journal and rollback state in agreement |
| Sessions.CallFacts | raychat/storage.py:283-409 | a failed journal call leaves the tree as it was; a successful one moves history and selection as its kind says |
| Turns.MemoryRefinesJournal | raychat/session.py:568-643 | over every run of turns, checkpoints, commits, aborts, resets, resumes, forks and failures: between turns the history in memory is the committed history, and committed history is a prefix of the working branch |
| Turns.SlipsAreExact | raychat/application.py:365-383 | an idle step loses that agreement if and only if it is a reset that forgot memory before its new journal failed, or a fork whose write and whose undo both failed |
| Turns.ResetSlips | raychat/session.py:465-483 | counterexample run: one committed turn, then a reset whose new journal cannot be opened |
| Turns.ForkSlips | raychat/application.py:365-383 | counterexample run: a fork back to the first of two turns whose write fails and whose undo is refused |
| SessionStates.MemoryIsSnapshot | raychat/session.py:411-643 | over every run without the named exceptions memory is the durable snapshot, plugin state included, outside an uncommitted turn; and inside one the durable snapshot is exactly what an abort goes back to |
| SessionStates.OutsideIsExact | raychat/session.py:411-643 | outside an uncommitted turn memory and the durable snapshot come apart if and only if a value is set without a checkpoint, a reset forgets memory and keeps the old journal, or a fork's write and undo both fail |
| SessionStates.ResumeTakesAll | raychat/application.py:337-362 | an accepted resume takes the other journal's history and plugin state, and numbers prompts from the least positive number above that history; a refused one changes nothing |
| SessionStates.ForkTakesAll | raychat/application.py:365-383 | a fork that was written takes the selected turn's history and plugin state, in memory and durably; a refused one changes nothing; one that was undone keeps history and state |
| SessionStates.ResetTakesAll | raychat/session.py:465-483 | a reset leaves no history, no plugin state and the first prompt number, even when the new journal fails |
| SessionStates.ReplaceTakesAll | raychat/plugins.py:1831-1937 | a replaced generation's state is in memory exactly when it is durable, and history stays |
| SessionStates.CheckpointCatchesUp | raychat/session.py:619-635 | a checkpoint outside a turn makes all of memory durable |
| SessionStates.TurnRecords | raychat/session.py:568-676 | each record of a turn hangs below the one before it and holds the turn's number, its message or its state |
| SessionStates.PromptsUseNumbers | raychat/session.py:786-808 | each prompt opened in a turn uses up one number, and an abort gives none back |
| SessionStates.CompletionCounts | raychat/session.py:411-449 | an externally completed turn leaves the counter at the least positive number above the history it commits |
| SessionCrashes.CrashLosesAtMostTheTurn | raychat/session.py:598-643 | a crash at any disk image of any step of any run, on a good or a failed journal, reopens to the committed history (the starting history of an uncommitted turn) with the durable plugin state, or to what the one commit, checkpoint or fork in flight was making durable |
| SessionCrashes.CrashFindsTheCheckpoints | raychat/session.py:598-635 | a crash within a turn finds its starting history and, owner by owner, the state at the last checkpoint or at turn start |
| SessionCrashes.RunImage | raychat/storage.py:250-341 | after any run a crash of the journal in use finds the snapshot committed or the one in flight when that journal failed |
| SessionCrashes.StepImage | raychat/storage.py:283-409 | at every disk image of a step, the appends and the commit of a completed turn included, a crash finds the snapshot before or after it |
| Turns.RollbackIsLastCheckpoint | raychat/session.py:619-635 | while a turn is uncommitted the rollback state is, owner by owner, the value at that owner's last checkpoint or at turn start, for every interleaving of mutation and checkpoint |
| Turns.AbortRollsBack | raychat/session.py:598-617 | aborting restores exactly that state and the starting history, and keeps memory and journal in agreement |
| Turns.CommitAgrees | raychat/session.py:637-643 | a commit makes memory durable, history and state alike |
| Turns.CompletionAccepted | raychat/session.py:411-449 | an externally completed turn is accepted only if its history extends the current one |
| Turns.CompletionCommits | raychat/session.py:411-449 | it commits its history; each owner gets what was last put between taking the snapshot up and persisting it, and otherwise the snapshot's value overridden exactly at the owners that checkpointed |
| Turns.CompletionIsOverride | raychat/session.py:411-449 | the committed state is that override if and only if whatever was put in between was the value taken up |
| Turns.CompletionKeepsCheckpoints | raychat/session.py:441-449 | with checkpoints made in between counted too, if and only if whatever was put in between ended up checkpointed, or was the value of an owner that never checkpointed |
| Turns.GapIsCommitted | raychat/session.py:434-449 | counterexample run: another thread puts a value in between and it is committed, though neither the snapshot nor a checkpoint holds it |
| Turns.OwnersCheckpointed | raychat/session.py:619-635 | the owners so overridden are exactly those that checkpointed successfully in the turn |
| AgentSessions.AgentSession.RestoreSnapshot | raychat/session.py:397-439 | history, state and next prompt number are replaced together, or all kept when a restore hook raises |
| AgentSessions.AgentSession.Checkpoint | raychat/session.py:619-635 | saves only this owner's part of memory over the rollback state |
| AgentSessions.AgentSession.BeginTurn | raychat/session.py:568-596 | opens a turn, or refuses while one is active or unfinished |
| AgentSessions.AgentSession.AddHistory | raychat/session.py:662-676 | one message in memory and in the journal |
| AgentSessions.AgentSession.CommitTurn | raychat/session.py:637-643 | ends the turn when the journal accepted it |
| AgentSessions.AgentSession.MergeOwners | raychat/session.py:425-429 | the loop over checkpoint owners computes the override |
| AgentSessions.AgentSession.RestoreCompleted | raychat/session.py:411-439 | checks that prior history is unchanged and overrides the checkpointed owners |
| AgentSessions.AgentSession.PersistCompleted | raychat/session.py:441-449 | appends the new messages one by one, then commits |
| AgentSessions.AgentSession.FinishTurn | raychat/session.py:598-617 | rolls an uncommitted turn back |
| AgentSessions.AgentSession.Reset | raychat/session.py:465-483 | forgets memory and starts a new journal, or fails part way |
| AgentSessions.AgentSession.Resume | raychat/application.py:337-362 | switches journal and session together, or neither |
| AgentSessions.AgentSession.Fork | raychat/application.py:365-383 | restores the proposed branch before selecting it, and restores the former snapshot when the journal refuses |
| AgentSessions.AgentSession.NextPromptId | raychat/session.py:433 | one more than the greatest prompt number |
| Sending.Conversation.constructor | raychat/session.py:411-433 | right after a restore the counter is the least number above all in the history |
| Sending.Conversation.Send | raychat/session.py:692-769 | a prompt whose commit returned adds exactly one turn, made of the prompt, what each reply left and the message that ended it, under a number above all earlier ones and with at most the step limit of model calls; history is unchanged if and only if the commit did not return; the counter stays raised either way |
| Sending.RaisesAfterCommit | raychat/session.py:864-890 | counterexample: an event callback raises after the commit, so `send` raises and the turn stays |
| Sending.RaisesBeforeCommit | raychat/session.py:598-617 | counterexample: an aborted prompt leaves the counter raised, so the next number is not the least above the history |
| Sending.Conversation.Converse | raychat/session.py:720-746 | the counted loop: replies and results go to history until one ends the turn, the limit is reached or something raises |
| Sending.TurnIsExchange | raychat/session.py:786-914 | a turn has the form prompt (assistant host_result)* assistant under one prompt number, with at most two messages a call and two more |
| Sending.TurnMessages | raychat/session.py:786-914 | a turn's messages are the prompt, then in order what each reply said and its own result, then the text that ended it, and no other |
| Sending.EndsExactly | raychat/session.py:720-769 | replies end a turn if and only if only the last one completes it or finishes it by its action, or none does, the limit is reached and a review completes it |
| Sending.LimitExactly | raychat/session.py:692-746 | a number of calls is allowed if and only if it is within the caller's limit and, for a review, within twenty |
| Sending.OnlyReviewsComplete | raychat/session.py:720-769 | a turn that no reply ended is a review, after exactly as many calls as it is allowed |
| Sending.OthersRunOut | raychat/session.py:720-769 | calls run out exactly at the limit, for a prompt that is no review or a review without a completion |
| Sending.TurnAdded | raychat/session.py:786-808 | a turn under any number above all earlier ones continues a history of turns |
| Sending.TurnsAreRecoverable | raychat/session.py:786-914 | a history determines the exchanges it is made of |
| Sending.NextPromptIsAbove | raychat/session.py:433 | the next prompt number exceeds every number in the history |
| Sending.NextPromptIsLeast | raychat/session.py:433 | and it is the least positive number that does |
| Operations.EveryRun | raychat/plugins.py:1559-1752 | in every run a request is in exactly one of the frames, the queue, and the committed, rolled-back and dropped lists; none waits while the runtime is idle; the busy count is the number of open outer operations, each seeing the registry it pinned; resources are retired at most once, at busy zero |
| Operations.StepKeepsInv | raychat/plugins.py:1559-1752 | each atomic step of any thread keeps that |
| Operations.OpenOperationsPinTheGeneration | raychat/plugins.py:1754-1777 | while a thread keeps an operation open no step of any thread changes the generation or what that thread pinned |
| Operations.QueueMeansAllSucceeded | raychat/plugins.py:1614-1659 | a request reaches the queue if and only if every operation enclosing it succeeds; if one fails it is rolled back, and until then it waits in the frame it was handed to |
| Operations.UndoneStaysUndone | raychat/plugins.py:1614-1634 | a request that was rolled back never reaches the queue |
| Operations.UndoneLastFirst | raychat/plugins.py:180-188 | an operation that fails undoes its own requests, the last one first, and nothing else |
| Operations.SettledBy | raychat/plugins.py:1581-1612 | the request at each place of the queue is committed or rolled back by its own outcome, or dropped when an earlier one was interrupted |
| Operations.DroppedExactly | raychat/plugins.py:1596-1612 | waiting requests are left unsettled if and only if an exception that is not caught interrupts an update that is not the last one waiting |
| Operations.InterruptionLosesAnUpdate | raychat/plugins.py:1581-1612 | counterexample run: two updates wait, the first is interrupted, the second is never settled |
| OperationRuns.GenerationCounts | raychat/plugins.py:1559-1752 | over any run the generation counts exactly the committed requests and the refreshes: no request is reported committed without a generation of its own |
| OperationRuns.CommitsActivate | raychat/plugins.py:1735-1746 | each step of any thread replaces as many generations as it commits requests, and one more if it refreshes an idle, open runtime |
| OperationRuns.CommittedInOrder | raychat/plugins.py:1581-1612 | waiting requests commit in the order of the queue, each at the place that the activations before it leave |
| OperationRuns.AskedIdle | raychat/plugins.py:1661-1716 | a request made while the runtime is idle is committed if and only if its update activates and the runtime is open, and else rolled back |
| OperationRuns.AskedWaits | raychat/plugins.py:1661-1716 | one made outside any operation while others are at work waits behind all that wait already |
| OperationRuns.AskedLast | raychat/plugins.py:1661-1716 | one made inside an operation comes after all that the thread's operations hold |
| OperationRuns.EndKeepsOrder | raychat/plugins.py:1614-1634 | requests handed outward or queued keep the order in which they were made; a failing operation takes exactly its own |
| OperationRuns.OthersKeepHeld | raychat/plugins.py:1559-1634 | no step of another thread changes what a thread's operations hold |
| OperationRuns.ClosingOpensNothing | raychat/plugins.py:1559-1579 | once a runtime is closing no run opens another outer operation, replaces the generation or commits a request, and it is closed and retired once as soon as the open operations have ended |
| OperationRuns.CloseShuts | raychat/plugins.py:1466-1495 | closing an idle runtime closes it, closing a busy one makes it closing |
| OperationRuns.CloseUndoesLastFirst | raychat/plugins.py:180-188 | what still waits at the end of a closing runtime's last operation is undone, the last request first |
| RuntimeOperations.Runtime.BeginOperation | raychat/plugins.py:1559-1579 | pins the generation for an outer operation and opens a frame, or refuses |
| RuntimeOperations.Runtime.RequestReload | raychat/plugins.py:1661-1716 | held by the innermost frame, queued while busy, else applied at once |
| RuntimeOperations.Runtime.PopFrame | raychat/plugins.py:1614-1634 | hands requests outward, to the queue, or undoes them last first |
| RuntimeOperations.Runtime.ReleaseOperation | raychat/plugins.py:1596-1612 | at busy zero closes a runtime that waited for it, or applies what was queued, one new generation for each request it commits |
| RuntimeOperations.Runtime.ApplyWaiting | raychat/plugins.py:1596-1612 | the loop over waiting requests, one new generation for each it commits, and what an exception that escapes it leaves behind |
| RuntimeOperations.Runtime.Close | raychat/plugins.py:1466-1495 | retires now, later, or not again |
| RuntimeOperations.Runtime.Rollback | raychat/plugins.py:180-188 | rollback hooks run last request first |
| Generations.Runtime.LoadModule | raychat/plugins.py:1150-1179 | a module is published whole, or its own cleanups run once, last first, and nothing of it stays |
| Generations.Runtime.ApplyRegistrations | raychat/plugins.py:1218-1231 | every name is checked before any is published |
| Generations.Runtime.Load | raychat/plugins.py:1181-1209 | all modules, or the registry as it was with every cleanup staged so far run last first |
| Generations.Runtime.Replace | raychat/plugins.py:1831-1937 | a failed reload leaves the active registry and generation and runs exactly the cleanups that its kind of failure leaves; a successful one makes the new generation's state durable and retires the old one's resources |
| Generations.FirstRefusalExactly | raychat/plugins.py:1218-1231 | loading stops at the first module that raises or whose names are taken, and only there |
| Generations.RegistrableExactly | raychat/plugins.py:1218-1231 | a module is refused if and only if one of its names is taken or registered twice |
| Generations.PublishedExactly | raychat/plugins.py:1218-1231 | a module publishes its names under its own, and leaves every other one |
| Generations.AllLoadExactly | raychat/plugins.py:1181-1231 | modules load one after another if and only if none raises and no registered name is taken or occurs twice, within a module or across them |
| Generations.WithAllExactly | raychat/plugins.py:1181-1231 | after loading, the plugins and names are those that were there and those of the modules, each name its module's own |
| Generations.ReplacesExactly | raychat/plugins.py:1831-1937 | a reload succeeds if and only if the plugins to remove are there, exports, manifests and order raise nothing, no module raises, all names differ, no hook raises, and sources and state are valid; else the first that fails is the reason |
| Basics.ReverseAt | raychat/plugins.py:163-177 | cleanups run last registered first |
| Generations.RetiredExactly | raychat/plugins.py:1848-1888 | each cleanup runs as often as it was registered, except keep-on-reload cleanups of owners that go on |
| Generations.RetiredInOrder | raychat/plugins.py:1866-1888 | of two cleanups the later registered runs first when both owners go on or neither does, and owners that go on are cleaned first |
| Generations.SparedExactly | raychat/plugins.py:1848-1864 | a failed reload runs each staged cleanup as often as it was staged, except, if and only if all modules had loaded, the keep-on-reload cleanups of owners that go on |
| Generations.FailedLoadRunsKeptCleanup | raychat/plugins.py:1200-1209 | counterexample: two reloads, the second refused at its second module, run a keep-on-reload cleanup whose generation stays active |
| Generations.DurableSurvivesExactly | raychat/session.py:619-635 | when durable and active state agree, a reload that fails after loading leaves durable state unchanged if and only if no hook checkpointed or every value set by the last checkpoint was the former one |
| Generations.DurableIsSaved | raychat/session.py:619-635 | what is durable is all of the staged state at the last checkpoint |
| Generations.FailedReloadSavesStagedState | raychat/plugins.py:1799-1864 | counterexample: one hook sets a value, another checkpoints, a third raises, and the journal keeps what memory does not |
| Workers.EveryRun | raychat/workers.py:386-530 | for all interleavings: terminal events name the accepted jobs once each, in submission order, and what is missing is exactly the job in hand and the queued ones; an approval takes at most one answer and a wait returns only an accepted answer to its own number |
| WorkerRuns.HowJobsEnd | raychat/workers.py:736-765 | over any run a job with a terminal event has exactly one: completed if and only if it passed its last check, failed if and only if it raised an error, cancelled if and only if it noticed a cancellation or its stop flag was read as set |
| WorkerRuns.WhichJobsStart | raychat/workers.py:783-806 | a job starts if and only if its stop flag was read as clear; one whose flag was read as set is cancelled and never starts |
| WorkerRuns.AnswersAreConserved | raychat/workers.py:435-461 | no accepted answer is lost or doubled on its way: each is under way or was received |
| WorkerRuns.AnswersKeepOrder | raychat/workers.py:604-636 | waits receive answers in the order in which they reached the queue |
| WorkerRuns.ReturnedExactly | raychat/workers.py:604-636 | a wait returns an answer if and only if its last check passes with that answer in hand |
| WorkerRuns.OtherEvents | raychat/workers.py:783-838 | idleness is published once for each end of a job observed without a raise or a stop, an approval by the job that opened it, and the stop by a thread that ended |
| Workers.StepKeepsInv | raychat/workers.py:386-838 | every lock section, queue operation and unlocked read of any thread keeps the invariant |
| Workers.DeadWorker | raychat/workers.py:808-838 | a worker that ended at its stop marker has ended every accepted job; one whose control or observer raised leaves exactly the queued jobs without an ending |
| Workers.DeadEndsNothing | raychat/workers.py:808-838 | after the thread has ended no job, queued or submitted later, gets an event |
| Workers.CrashedControlStrandsAJob | raychat/workers.py:808-838 | counterexample run: a reset, then a job; the reset raises and the accepted job is left queued |
| Workers.NothingAfterStop | raychat/workers.py:504-530 | nothing is accepted once the worker is stopping |
| Workers.QuiescentExactly | raychat/workers.py:264-273 | quiescent is true if and only if nothing is queued and the owning thread has nothing in hand, the gap after dequeueing included |
| Workers.CancelledNeverCompletes | raychat/workers.py:597-602 | a job cancelled before its last check never completes |
| Workers.AcceptedCancelDooms | raychat/workers.py:415-433 | when cancelling returned true the job completes only if it had already passed its last check |
| Workers.CancelledWaitReturnsNothing | raychat/workers.py:604-636 | a wait whose last check follows a successful cancel returns no decision, even if an answer was accepted first |
| Workers.CancelEndsTheWait | raychat/workers.py:415-461 | cancelling the job under approval refuses every later answer to that approval and its wait returns nothing |
| AgentWorkers.AgentWorker.Quiescent | raychat/workers.py:264-273 | the property as read from the fields |
| AgentWorkers.AgentWorker.Submit | raychat/workers.py:386-413 | a new number, accepted and queued in one section, or a refusal |
| AgentWorkers.AgentWorker.Reset | raychat/workers.py:511-530 | a control queued and counted, or a refusal |
| AgentWorkers.AgentWorker.CancelCurrent | raychat/workers.py:415-433 | marks an accepted job, and withdraws its approval when it is active |
| AgentWorkers.AgentWorker.RespondApproval | raychat/workers.py:435-461 | accepts the first answer to the approval being waited for, and no other |
| AgentWorkers.AgentWorker.Stop | raychat/workers.py:504-509 | one stop marker, last in the queue |
| Dependencies.DependencyOrder | raychat/packages.py:37-80 | succeeds if and only if every requirement path from the selection stays on available plugins with exact versions and never returns to itself; the result lists that closure, once each, dependencies first; a refusal names a path that justifies it |
| Dependencies.Resolver.Visit | raychat/packages.py:56-77 | one visit extends the list to this plugin's closure or finds such a path |
| Dependencies.ListResolves | raychat/packages.py:37-80 | a dependency-first list of the selection exists only for a resolvable selection, and holds its whole closure |
| Dependencies.BlameRefutes | raychat/packages.py:56-72 | each refusal contradicts resolvability |
| Dependencies.ClosureIsStable | raychat/packages.py:78-80 | resolving a resolved list again lists the same plugins |
| StagingPlans.StageRoots | raychat/plugin_manager.py:1286-1303 | success is a closed plan: every requested package at its version, every requirement met exactly by a staged package or by an installed one that is not replaced, no cycle, installed packages replaced only on request; a refusal has its cause in what the search had staged; with uniform catalogs it succeeds if and only if a closed plan exists |
| StagingPlans.StagedExactly | raychat/plugin_manager.py:1226-1249 | with uniform catalogs the search succeeds if and only if a closed plan exists |
| StagingPlans.ClosedIsFound | raychat/plugin_manager.py:1226-1303 | a closed plan guides the search: every package staged on the way is in that plan with the same manifest, and nothing is refused |
| StagingPlans.StagedIsClosed | raychat/plugin_manager.py:1226-1303 | whatever the catalogs, a plan that the search completes is closed |
| StagingPlans.RefusedForCause | raychat/plugin_manager.py:1202-1303 | whatever the catalogs, a refused search had staged only what was asked for, and its reason is found there |
| StagingPlans.FirstSourceIsStaged | raychat/plugin_manager.py:1286-1303 | of requested sources with one identity the first one asked for is staged |
| StagingPlans.FirstAskerDecides | raychat/plugin_manager.py:1242-1247 | counterexample: two requested packages from two catalogs require a third that only the second has; the first to ask is refused although the three are a closed plan |
| StagingPlans.Staging.StageInstall | raychat/plugin_manager.py:1202-1224 | resolves one source and adds its package under its own name, or keeps the one already staged, refusal for refusal |
| StagingPlans.Staging.Collect | raychat/plugin_manager.py:1226-1249 | the recursive search computes what `Collected` says, refusal for refusal, terminating over a finite catalog |
| StagingPlans.CollectedGoes | raychat/plugin_manager.py:1226-1249 | collecting only adds packages, none of them installed, leaves nothing it added half collected, and is refused only for cause |
| StagingPlans.NoCycle | raychat/plugin_manager.py:1226-1249 | no chain of requirements among staged packages returns to its start |
| StagingPlans.StillLayered | raychat/plugin_manager.py:1226-1249 | packages staged later never unsettle what was already met |
| PackageTransactions.Installation.Apply | raychat/plugin_manager.py:1335-1439 | all or nothing: success installs exactly the staged packages, removes exactly the owned directories of removed ones, writes the planned receipt, has a requirement graph, read back from the new directories, that resolves, and found every source as it was planned; a changed source is the reason exactly when the lock was free and the receipt as planned; every failure restores the directories, and the receipt unless it had been changed into exactly the planned one |
| PackageTransactions.Installation.Validate | raychat/plugin_manager.py:1410-1421 | accepts if and only if every package can be read and all of them resolve together after the change |
| PackageTransactions.GraphExactly | raychat/plugin_manager.py:1410-1421 | the graph that is validated: every package that is not removed, with the manifest of the planned directory, else of the installed one, else of the other scope's |
| PackageTransactions.AnyOrder | raychat/plugin_manager.py:1410-1421 | whether a whole graph resolves does not depend on the order of its packages |
| PackageTransactions.Installation.Plan | raychat/plugin_manager.py:1318-1333 | the planned receipt |
| PackageTransactions.Installation.Prepare | raychat/plugin_manager.py:1335-1348 | refused if and only if the lock is held, the receipt changed, or a source changed since planning, in that order, before anything is written; else replaces directories and writes the receipt, keeping what is needed to undo it |
| PackageTransactions.Installation.WriteFiles | raychat/plugin_manager.py:1350-1372 | every unlinked staged package in its place, the former directory set aside |
| PackageTransactions.Installation.Restore | raychat/plugin_manager.py:1380-1388 | restores the exact directory map, last directory first |
| PackageTransactions.Installation.Finish | raychat/plugin_manager.py:1396-1408 | publishes the receipt, drops what was set aside and sweeps removed packages |
| PackageTransactions.AppliedExactly | raychat/plugin_manager.py:1318-1333 | the new receipt, package by package: removed ones gone and disabled, installed ones recorded and enabled, others untouched |
| PackageTransactions.PlacedExactly | raychat/plugin_manager.py:1350-1372 | every staged tree is in its directory, no other directory changes, linked sources included |
| PackageTransactions.SweptExactly | raychat/plugin_manager.py:1396-1408 | exactly the managed directories of removed packages are deleted |
| PackageTransactions.SameInstallTwice | raychat/plugin_manager.py:1335-1388 | counterexample: of two equal plans made from one receipt the second erases the entry of the first |
| Supervision.ClaimSurvives | raychat_bootstrap/supervisor.py:742-766 | once a claim was acknowledged as accepted, or its provider call began, no resume and no restart sends that result again, through any failures and crashes |
| Supervision.EveryResultIsSomewhere | raychat_bootstrap/supervisor.py:742-811 | each result is in exactly one of deliverable, claimed, being finished, finished or lost, and keeps its facts |
| Supervision.RecordedIsNeverLost | raychat_bootstrap/supervisor.py:157-210 | a result that was ever in a manifest is never lost and leaves only by being finished |
| SavedManifests.SavedAsItBegan | raychat_bootstrap/supervisor.py:157-210 | a write that is saved, or that a crash follows, puts on disk exactly what memory was when it began, whatever results, states and messages come in between |
| SavedManifests.KnownIsSaved | raychat_bootstrap/supervisor.py:157-210 | in every run a result that memory knew when a write began that was saved (a record, a claim, a finish or a dispatch) is never lost |
| SavedManifests.BeginKeepsResults | raychat_bootstrap/supervisor.py:725-781 | a claim moves its result across, finishing drops its result, a dispatch changes only the saved state, and a record changes nothing |
| SavedManifests.MadeIsDeliverable | raychat_bootstrap/supervisor.py:783-811 | a finished update is resent with its facts until it is claimed or a crash comes |
| SavedManifests.CapturedIsSaved | raychat_bootstrap/supervisor.py:157-210 | a state that the core reported is what the next write saves |
| SavedManifests.EveryClaimIsAnswered | raychat_bootstrap/supervisor.py:742-766 | every claim is answered once, unless its write was cancelled, and as accepted exactly when it was saved |
| SavedManifests.CallsBeginOnce | raychat/core_bridge.py:218-251 | a provider call begins at most once, and never after its claim was given up or a restart |
| Supervision.AnswersAreTrue | raychat_bootstrap/supervisor.py:742-766 | every answer to a claim says exactly whether the claim is durable |
| Supervision.StepKeepsInv | raychat_bootstrap/supervisor.py:157-210 | memory, the manifest being written and the one on disk stay in step through every interleaving |
| Supervision.DispatchIsDurable | raychat_bootstrap/supervisor.py:725-740 | a dispatch is acknowledged only by the write that makes its dequeue durable |
| Supervision.DispatchedInputStaysGone | raychat_bootstrap/supervisor.py:725-740 | after that no manifest and no restart offers the dispatched input again until the core reports a new state |
| Supervision.DequeuedExactly | raychat_bootstrap/supervisor.py:725-740 | a recorded dequeue empties the input, replaces the store and merges every field but the state into the dispatching chat's view, field by field |
| Supervision.AckEmpties | raychat_bootstrap/supervisor.py:725-740 | an acknowledged dispatch leaves the input empty in memory and on disk, with the new store |
| Supervision.RefusedDispatchStillDequeues | raychat_bootstrap/supervisor.py:725-740 | a dispatch that could not be saved is not acknowledged, yet the next save records its dequeue |
| Supervision.RefusedClaimIsUndone | raychat_bootstrap/supervisor.py:742-766 | a refused or cancelled claim leaves memory as it was |
| Supervision.RefusedFinishIsUndone | raychat_bootstrap/supervisor.py:768-781 | so does finishing that could not be saved |
| SupervisorProcesses.Supervisor.ClaimUpdateResult | raychat_bootstrap/supervisor.py:742-766 | the claim as the program runs it, fields changed back on every failure |
| SupervisorProcesses.ClaimInOne | raychat/core_bridge.py:218-251 | that is the two steps of a claim with nothing in between |
| SupervisorProcesses.Supervisor.FinishUpdateResult | raychat_bootstrap/supervisor.py:768-781 | the same for finishing |
| SupervisorProcesses.FinishInOne | raychat_bootstrap/supervisor.py:768-781 | that is the two steps of finishing with nothing in between |
| SupervisorProcesses.Supervisor.DispatchTask | raychat_bootstrap/supervisor.py:725-740 | the dequeue of one dispatch, written before it is acknowledged |
| SupervisorProcesses.Supervisor.RestoreRecovery | raychat_bootstrap/supervisor.py:123-155 | a new process continues from the manifest |
| HttpRendering.ParseExactly | raychat/http_replay.py:233-269 | a request is accepted with given headers and body if and only if it is some well-formed request written out with exactly those |
| HttpRendering.ParseInvertsRender | raychat/http_replay.py:233-269 | any headers, folded values included, any number of leading CONNECT blocks, plain or chunked bodies with any extensions and trailers are recovered |
| HttpRendering.AcceptedWasWritten | raychat/http_replay.py:172-269 | whatever is accepted was written from a well-formed request, consumed to the last byte |
| HttpRendering.AnySplitIsUndone | raychat/http_replay.py:202-230 | however a body is split into nonempty chunks, and whatever the case of their sizes, the same body comes back |
| HttpRendering.FieldsReadBack | raychat/http_replay.py:150-169 | written header lines are read back in order |
| HttpRendering.FieldsWereWritten | raychat/http_replay.py:150-169 | accepted header lines are some fields written out |
| HttpRendering.BlockReadBack | raychat/http_replay.py:172-191 | a header block ends at its first empty line, and a CONNECT block is skipped |
| HttpRendering.CodingReadBack | raychat/http_replay.py:202-230 | a chunked coding yields its data |
| HttpRendering.CodingWasWritten | raychat/http_replay.py:202-230 | an accepted chunked body is some coding of the recovered data |
| HttpRendering.LengthDecides | raychat/http_replay.py:250-268 | a request without transfer coding is accepted, with its body, if and only if every declared length is the number of its bytes in decimal, behind any zeros, and all are written alike |
| HttpRendering.LengthsFitExactly | raychat/http_replay.py:258-268 | the same of the list of lengths alone |
| HttpRendering.HexDigitExactly | raychat/http_replay.py:208-211 | a digit of a chunk size counts by its place among the hexadecimal digits, small or capital |
| HttpRendering.HexTextValue | raychat/http_replay.py:208-211 | a size written in hexadecimal, with small or capital letters, is read as that number |
| HttpRendering.NameInAnyCase | raychat/http_replay.py:247-256 | a framing name, or the coding's, is recognised if and only if it has the same letters, each small or capital |
| HttpRendering.Spelling | raychat/http_replay.py:184 | the names and versions that the bytes spell |
| HttpReplay.StripExactly | raychat/http_replay.py:247-256 | stripping removes only spaces, at both ends, and leaves none there |
| HttpReplay.ValuesExactly | raychat/http_replay.py:247-256 | the values of a framing header are found whatever the case of its name |
| HttpReplay.HeaderFields | raychat/http_replay.py:150-169 | the loop over header lines computes the fields, or refuses |
| HttpReplay.RequestHeaders | raychat/http_replay.py:172-191 | the loop over header blocks computes the origin's fields and what follows |
| HttpReplay.ChunkLine | raychat/http_replay.py:194-199 | one line from an offset |
| HttpReplay.ChunkedBody | raychat/http_replay.py:202-230 | the loops over offsets compute the unchunked body, error for error |
| HttpReplay.ParseSentRequest | raychat/http_replay.py:233-269 | the whole parse, error for error |
| ByteStrings.SplitJoin | raychat/http_replay.py:174-180 | splitting undoes joining for pieces without the separator |
| ByteStrings.JoinSplit | raychat/http_replay.py:174-180 | and joining undoes splitting |
| ChildFrames.ConsumeFrames | raychat/transport.py:302-323 | below the size limit the outcome depends only on the concatenated bytes, never on chunk boundaries; above it there is none |
| ChildFrames.DrainBuffer | raychat/transport.py:317-323 | the inner loop consumes every complete line and keeps the unfinished one |
| ChildFrames.ConsumedExactly | raychat/transport.py:182-204 | an output is consumed if and only if every frame fits and at most one is final |
| ChildFrames.ResultExactly | raychat/transport.py:427-436 | a result is the message of the one and only final frame, from a child that was fed and exited cleanly |

## Left out

- SessionCrashes.CrashLosesAtMostTheTurn: leaves out the journal of a reset that failed after forgetting the old one, which holds no history; a crash there is `Recovery.NewJournalCrash`.
- JSON, ZIP, SHA-256, UUID and base64: an injective codec, equal trees and fresh values stand for them; timestamps in records are dropped.
- Sessions without a journal, snapshots supplied by a caller of `restore_snapshot`, the rendering in `SessionStore.tree`, listing and previews: they add no state that is not covered.
- Buffered bytes: a stream that retries a failed flush later is not modelled; a failed write leaves some prefix of the line.
- Restore and configuration hooks: they are effects on plugin state and checkpoints, or a raise; a hook that changes the history is not modelled.
- Interruption between two bytecodes: exceptions arise only where the code calls out.
- Registry tables other than named resources, cleanups, plugins and state, and the compilation of plugin sources: a module is what its entrypoint stages.
- Operations.EveryRun: says nothing of fairness; whether a waiting close is reached depends on operations ending.
- Workers.EveryRun: does not claim that a running session returns, only what holds at every point; the session's own events and the results in futures are not modelled.
- AgentWorkers.AgentWorker.Submit: one call is one lock section; the owning thread's own loop is modelled by the steps of `Workers.Do`, because other threads interleave with it.
- SupervisorProcesses.Supervisor.ClaimUpdateResult: runs without another task in between; interleavings are covered by `Supervision.Do`.
- The supervisor's checkpoint files beside the manifest, release choices, child processes, the recovery menu and the first sending of a new result: only what `_resume` and a restart send is modelled.
- PackageTransactions.Installation.Apply: the plan's temporary directory is not modelled, and packages of other scopes do not change meanwhile; the queued form through a runtime calls the same three parts.
- StagingPlans.StageRoots: local edits, scopes and the digests of downloaded packages are not modelled; a source resolves to one package or to none.
- HttpReplay.ParseSentRequest: Python's limit of 4300 digits in a decimal Content-Length is not modelled.
- ChildFrames.ConsumeFrames: callbacks do not raise; above the limit which error is reported depends on the chunks and is not specified.
- Sending.Conversation.Send: history is kept without its journal, whose part is in `Turns`; the texts of host-written completions are abbreviated.
- Generations.Runtime.Replace: a session with a journal is assumed and a hook's checkpoint succeeds; each list of hooks stands for all events of restoration in order, and what raises before loading is one outcome.
- Terminal interface, HTTP clients, debug capture, settings and validation of fields: plumbing with one branch per field.
