# devdock: a verified model of its protocols, pools and streams

devdock runs development sessions and shared sandboxes on a Kubernetes cluster. Several daemons share one
namespace, each daemon interleaves many asynchronous operations, and everything is steered through `kubectl`,
`tmux` and `devspace`. This project models the parts where that is hard to get right and proves what they promise.

How the model is built:

* **Protocols** are state machines. One event is the code between two awaits, or one `kubectl` or `tmux` call,
  which either applies or fails cleanly. A statement about a run holds for every interleaving of any length. The
  cluster is a map from names to versioned records: a create fails when the record is there, a patch with a test on
  `resourceVersion` fails when the version has moved.
* **Objects** whose methods run to completion are classes with the source's fields. Each method is proved against a
  function of the old state, and what the source promises is proved about runs of those functions.
* **Transformations** are functions with an independent meaning on the other side: a shell lexer for quoting, a
  JSON Pointer evaluator for escaping, "replace everything" for the incremental route update, the newline-split of
  the whole stream for chunked reads.

| File | What it covers |
|---|---|
| `SlotLock.dfy` | the operation lock in the shared pool of sandbox slots |
| `SlotRecords.dfy` | agreement of one daemon's sandbox records with the slot leases |
| `LeaderLease.dfy` | the time-bounded leader lease of the sandbox controllers |
| `Ownership.dfy` | claims, releases and takeovers of deployment ownership |
| `SessionStart.dfy` | cancelling starts of a dev session |
| `ReconcilePass.dfy` | retirement of sessions without pods, paced reconnects |
| `SandboxRouting.dfy`, `RouteApply.dfy` | computing a slot's routes and applying them incrementally |
| `ImageBuilds.dfy` | the two-worker member pool and shared image builds |
| `Auth.dfy` | token refresh with exponential backoff, and the chain that keeps probes and logins apart |
| `Operations.dfy`, `PhaseTimes.dfy`, `OperationStore.dfy` | the operation log, its phase times, and the class that keeps it |
| `Lines.dfy`, `LogStream.dfy`, `FileCursor.dfy` | chunks to lines to a bounded buffer to cursor reads; byte-offset reads |
| `NameMatch.dfy` | attribution of pods and deployments to workloads |
| `ShellQuote.dfy`, `JsonPointer.dfy` | quoting for the shell, escaping for a JSON patch |
| `Basics.dfy` | options, results, splitting and joining text |

## Assumptions

* Daemons have distinct instance ids and a fixed namespace. A daemon's lease recovery runs before its first
  operation (`recoverLeases` is awaited by every operation); `SlotLock.LateScanReleasesLiveLock` shows why.
* In `SlotLock` a call of a daemon that has died has either applied already or never does, because the delete of a
  lease carries no version test. `LeaderLease` needs no such assumption: writes of dead processes may still land.
* All controllers read one clock that never goes back. Within one daemon the clock does not go back either.
* `tmux kill-session` leaves no session of that name.
* The route hash has no collisions. `cleanLine` may be any function. Log files hold one byte per character.
* In `SlotRecords` the daemon does not restart during the run; other daemons take no slots.

## Where code and expectation differ

* **Overlapping creates.** `create()` checks that the key is new, then awaits the namespace, and does not check
  again. A second create of the same key can so overwrite a leased record and orphan its lease
  (`SlotRecords.OverlappingCreatesOrphanALease`). A run keeps records and leases in agreement if and only if none of
  its creates begins while a record of that key holds a slot (`SlotRecords.AgreementThroughoutIffFresh`).
* **Takeover.** The comment on `remove` says it deletes "never someone else's" claim. The delete does not test what
  it deletes, so a takeover that races the owner's release can remove the claim of a third instance
  (`Ownership.TakeOverRace`). Without such a race takeovers are safe (`Ownership.OneOwner`). A single step keeps
  "every owner is recorded" if and only if what it read still holds (`Ownership.StepKeepsOwnersIffFresh`).
* **Log reads.** The comment on `readFileSlice` says that `nextOffset` always lands on a line boundary. It does so
  if and only if the read was not capped, its window holds a newline, or the window starts where a line begins
  (`FileCursor.NextOffsetIsABoundaryIff`). A reader that resumes from such an offset with the same cap is still given
  true lines only (`FileCursor.ReadersGetTrueLines`). A reader that starts at the size of a file which ends in a
  partial line, as the loop that waits for a workload may, is later given the rest of that line as a line
  (`FileCursor.UncappedReadIsTrueIff`, `FileCursor.FragmentReadAsALine`). The line dropped from a capped window as "a
  mid-line fragment" is a whole line if and only if the window starts where a line begins
  (`FileCursor.CappedReadDropsAWholeLineIff`).
* **Unquoted arguments.** `devspaceCommand` leaves arguments that begin with a dash unquoted. A command is read
  back as meant, independently of the shell's environment, if and only if these hold ordinary characters only and
  nothing in it holds a NUL (`ShellQuote.CommandIff`).
* **Reactivation.** `update` accepts setting a finished operation back to active. One active operation per workload
  then survives if and only if no other one is active (`Operations.ReactivationKeepsOneEachIff`).

## Model

| member | source | states |
|---|---|---|
| SlotLock.InvStep | packages/core/src/sandboxes.ts:448-548 | every kubectl call of an operation, a mirror write, a restart or a recovery scan keeps the lock invariant: a holder finds its own lock and key in its slot, and each lock belongs to an operation of a present process that has not released it, or to a dead process not yet recovered |
| SlotLock.RunKeepsInv | packages/core/src/sandboxes.ts:448-548 | the invariant holds in every state of every run of any number of daemons, crashes and restarts |
| SlotLock.MutualExclusion | packages/core/src/sandboxes.ts:475-507 | two operations that both hold a lock hold different slots, and each finds its own lock and key there, so the ownership check cannot fail while it works |
| SlotLock.WorkersHold | packages/core/src/sandboxes.ts:480-506 | an operation inside its work or on its way to unlock holds the lock exactly when it has a slot |
| SlotLock.RecoveredLocksAreLive | packages/core/src/sandboxes.ts:579-602 | after recovery every lock in a daemon's name belongs to an operation of its present process that took it and has not released it; that operation may be over, when its failure handler could not release it |
| SlotLock.LeakedByTheHandler | packages/core/src/sandboxes.ts:511-516 | an operation that is over keeps its lock only when its failure handler's own call failed or its compare-and-swap lost to another write; the lock then stays until the next restart |
| SlotLock.LockTaken | packages/core/src/sandboxes.ts:484-500 | a lock appears only where there was none, by creating the lease or by a compare-and-swap that found it still unlocked |
| SlotLock.LockGone | packages/core/src/sandboxes.ts:511-548 | a lock disappears only by its holder's unlock or delete, or when a daemon that has not recovered clears a lock of its own dead process |
| SlotLock.LateScanReleasesLiveLock | packages/core/src/sandboxes.ts:576-602 | a recovery scan that ran after operations have started would release a live lock of its own daemon |
| SlotRecords.InvStep | packages/core/src/sandboxes.ts:413-447 | every step of create, build, wake, eviction, expire and delete keeps records and leases in agreement, when a create begins over no leased record |
| SlotRecords.RecordsHoldTheirLeases | packages/core/src/sandboxes.ts:413-447 | in a run whose creates so far began over no leased record, a record that names a slot holds that slot's lease and no other, except between deleting the lease and clearing the field; AgreementThroughoutIffFresh shows the condition to be exact |
| SlotRecords.SlotsAreNotShared | packages/core/src/sandboxes.ts:855-895 | under the same exact condition, two records name the same slot only while one of them has just deleted its lease |
| SlotRecords.QuiescentAgreement | packages/core/src/sandboxes.ts:1550-1585 | under the same exact condition, when nothing runs a record names a slot if and only if the slot's lease names the record |
| SlotRecords.LeaseNeverFindsItself | packages/core/src/sandboxes.ts:414-418 | under the same exact condition, a lease never finds its own key in the pool, so that error is not thrown on one daemon |
| SlotRecords.CreateKeepsAgreementIffFresh | packages/core/src/sandboxes.ts:770-793 | beginning a create keeps the agreement if and only if no record of the key holds a slot |
| SlotRecords.AgreementThroughoutIffFresh | packages/core/src/sandboxes.ts:770-793 | any run keeps records and leases in agreement throughout if and only if none of its creates begins over a leased record of its key |
| SlotRecords.OverlappingCreatesOrphanALease | packages/core/src/sandboxes.ts:774-792 | a concrete run of two overlapping creates of one key that orphans a lease |
| LeaderLease.InvStep | packages/core/src/sandboxController.ts:104-171 | every step, delayed reply, failed call and late write of a dead process keeps the lease invariant |
| LeaderLease.AtMostOneLeader | packages/core/src/sandboxController.ts:71-73 | at no instant do two controllers act as leader, and the leader is the holder in the cluster |
| LeaderLease.LockStep | packages/core/src/sandboxController.ts:149-167 | in one step the stored renewal time does not decrease, and a new holder's time is more than 90 s after the old one's |
| LeaderLease.RenewedAtNeverDecreases | packages/core/src/sandboxController.ts:153-170 | over any run the stored renewal time never decreases |
| LeaderLease.StaysCovered | packages/core/src/sandboxController.ts:149-166 | a renewal stays the latest of its holder, or is followed by another holder only after it ran out |
| LeaderLease.SuccessorWaitsOutTheLease | packages/core/src/sandboxController.ts:71-73 | whoever leads after another controller does so more than 90 s after the renewal the other one acted on |
| LeaderLease.ActionsHaveNoRival | packages/core/src/sandboxController.ts:178-186 | in every run each action on a sandbox falls at an instant when no other controller leads and the cluster records the actor, and an action of another controller comes later than 90 s after the renewal the first one relied on |
| LeaderLease.SandboxController.ReadDelivered | packages/core/src/sandboxController.ts:126-166 | the object takes the step that the runs above take on the reply of a read: give way to a live foreign lease, else issue the create or the compare-and-swap |
| LeaderLease.SandboxController.WriteDelivered | packages/core/src/sandboxController.ts:168-170 | the object takes the step of the runs above on the reply of a write: it leads from the time it decided at, and only if still running |
| LeaderLease.SandboxController.Tick | packages/core/src/sandboxController.ts:74-87 | the object takes the tick of the runs above: no second renewal starts while one is under way |
| LeaderLease.SandboxController.Leader | packages/core/src/sandboxController.ts:71-73 | the object answers exactly what AtMostOneLeader shows for no two controllers at once |
| LeaderLease.SandboxController.Run | packages/core/src/sandboxController.ts:173-193 | a pass acts on exactly the sandboxes before the first one at which the controller no longer leads by its own clock; only a complete pass counts as poll or sweep |
| Ownership.StepKeepsOwnersIffFresh | packages/core/src/ownership.ts:51-129 | a step keeps every claimed instance recorded if and only if what the step acts on still holds in the cluster |
| Ownership.DisciplinedIsFresh | packages/core/src/ownership.ts:94-129 | when nothing races a removal, no step acts on an outdated reading: while a release or takeover is to remove an instance's record, no other call of that instance and no other removal of its record is under way |
| Ownership.InvStep | packages/core/src/ownership.ts:51-129 | every such step of any number of instances, takeovers included, keeps the ownership invariant |
| Ownership.OneOwner | packages/core/src/ownership.ts:51-129 | in every run in which nothing races a removal, takeovers included, at most one instance has a claim not yet released or taken over, and the record names it |
| Ownership.OwnersRecordedIffFresh | packages/core/src/ownership.ts:51-129 | any run keeps its owners recorded throughout if and only if none of its steps is outdated |
| Ownership.TakeOverRace | packages/core/src/ownership.ts:100-127 | a concrete run in which a takeover deletes the claim of a third instance |
| Ownership.RaceIsUndisciplined | packages/core/src/ownership.ts:94-103 | neither a takeover nor the owner's release may begin while the other is under way |
| SessionStart.NoSessionAfterStop | packages/core/src/service.ts:1069-1091 | after a stop has paused the workload, and with no later manual start, no tmux session exists once every start and stop has settled, wherever each was interrupted |
| SessionStart.OwedStep | packages/core/src/service.ts:986-1001 | while paused, any session there is will be killed by a call still under way |
| SessionStart.NoNewLaunch | packages/core/src/service.ts:984-998 | after the pause only a start whose request to tmux was already out can still create a session |
| SessionStart.OvertakenStartNeverRuns | packages/core/src/service.ts:958-1001 | a start overtaken by a stop never reports a running session, even when later manual starts lift the pause |
| ReconcilePass.Workloads.Pass | packages/core/src/service.ts:2069-2110 | the loop body over the Maps takes one step of the runs below for its workload and leaves every other workload alone |
| ReconcilePass.Workloads.ShouldRetire | packages/core/src/service.ts:2248-2260 | the early returns decide the condition that RetiresIffStale characterises over runs |
| ReconcilePass.Workloads.ScheduleReconnect | packages/core/src/service.ts:2265-2280 | a reconnect starts exactly when not paused, under the cap and past the cooldown, is then on the account that AttemptsApart and FourthAttemptNeedsStability are about, and no other workload changes |
| ReconcilePass.TimerIsStretchStart | packages/core/src/service.ts:2069-2072 | the no-pods timer is the time of the first pass of the longest unbroken quiet stretch ending now, and unset if there is none |
| ReconcilePass.RetiresIffStale | packages/core/src/service.ts:2081-2096 | a pass retires a session if and only if it is dead over deployments, or it and an unbroken stretch of quiet passes are at least 30 minutes old; one unreachable pass or pod restarts the stretch |
| ReconcilePass.AttemptsApart | packages/core/src/service.ts:2265-2273 | without a user verb or a retirement between them, reconnect attempts are at least 60 s apart, whatever came before |
| ReconcilePass.FourthAttemptNeedsStability | packages/core/src/service.ts:2105-2110 | of any four attempts with no user verb or retirement from the first to the last, the last follows a RUNNING_MANAGED pass at least 5 minutes after one of the others |
| ReconcilePass.RearmNeedsManaged | packages/core/src/service.ts:2105-2110 | the budget of attempts comes back only in such a pass |
| SandboxRouting.UnmapInvertsMapping | packages/core/src/sandboxRouting.ts:15-22 | host and slot can both be read back from a mapped host |
| SandboxRouting.MappedHostsAreDistinct | packages/core/src/sandboxRouting.ts:15-22 | two mapped hosts are equal only for the same host and the same slot |
| SandboxRouting.Collect | packages/core/src/sandboxRouting.ts:68-80 | the nested loops fill the two Maps with exactly the hosts and paths that members serve, and fail exactly when such a host cannot be mapped |
| SandboxRouting.Compute | packages/core/src/sandboxRouting.ts:62-129 | the computation fails exactly for an invalid slot or an unmappable served host |
| SandboxRouting.RoutesAreConserved | packages/core/src/sandboxRouting.ts:98-127 | the flattened fallback rules are, in order and one for one, the source routes on served api- hosts that lead to no member and whose path no member serves there, on their mapped hosts |
| SandboxRouting.FallbackNames | packages/core/src/sandboxRouting.ts:98-120 | each fallback ingress is named after its source index, and no two share a name index |
| SandboxRouting.RouteNamesDiffer | packages/core/src/sandboxRouting.ts:119-119 | route names of different indexes differ |
| SandboxRouting.GeneratedNamesAreGuarded | packages/core/src/sandboxRouting.ts:5-9 | every generated name of a valid slot passes the name guard |
| RouteApply.HashIgnoresItself | packages/core/src/sandboxes.ts:204-218 | writing the hash into an ingress does not change its hash |
| RouteApply.UnchangedIsDesired | packages/core/src/sandboxes.ts:1489-1501 | an ingress that carries the wanted hash is the wanted ingress |
| RouteApply.IncrementalIsReplace | packages/core/src/sandboxes.ts:1499-1506 | deleting what is stale and applying what has changed equals deleting all the slot's routes and applying the desired set |
| RouteApply.WritesNothingIffReplaced | packages/core/src/sandboxes.ts:1499-1507 | nothing is stale or changed if and only if the cluster already is as desired |
| RouteApply.ReplaceIsIdempotent | packages/core/src/sandboxes.ts:1485-1528 | a second call after a success finds nothing to write |
| RouteApply.ReplaceTouchesOwnNamesOnly | packages/core/src/sandboxes.ts:1488-1505 | ingresses of other slots and of users stay as they are |
| RouteApply.OwnNamesOfSlotsDiffer | packages/core/src/sandboxes.ts:1488-1488 | the name ranges of different slots do not meet |
| RouteApply.DesiredAreSlotManifests | packages/core/src/sandboxes.ts:1487-1492 | what the routing computation generates has distinct names in the slot's range and carries right hashes |
| RouteApply.RunWorkers | packages/core/src/sandboxes.ts:1513-1524 | for every interleaving of up to eight workers and any failures: on success all changed ingresses are applied, and nothing else is ever touched |
| RouteApply.ApplyRouting | packages/core/src/sandboxes.ts:1485-1528 | success means the slot's routes were replaced; failure leaves a cluster from which a later call can succeed; an up-to-date cluster gets no write |
| ImageBuilds.ParallelMembers | packages/core/src/sandboxImages.ts:158-181 | in every interleaving each member runs exactly once and in order, at most two at a time, and exactly the failures are reported |
| ImageBuilds.InvStep | packages/core/src/sandboxImages.ts:135-156 | every step of any number of deploy calls keeps the single-flight invariant |
| ImageBuilds.OneBuildPerImage | packages/core/src/sandboxImages.ts:142-154 | at most one deploy that builds is in flight per image |
| ImageBuilds.SkipIsJustified | packages/core/src/sandboxImages.ts:142-148 | a deploy skips the build only when exists() found the image or another call's deploy of it succeeded |
| ImageBuilds.NothingOutlivesTheCallers | packages/core/src/sandboxImages.ts:134-154 | once all callers have returned no build is remembered |
| Auth.DelayGrows | packages/core/src/auth.ts:306-308 | the delays never shrink, lie between 15 s and 5 min, and are at the upper bound exactly from the sixth failure on |
| Auth.FailuresAreCounted | packages/core/src/auth.ts:469-476 | the failure counter is the number of failed refreshes since the manager was last signed in |
| Auth.NoGrantBeforeTheDelay | packages/core/src/auth.ts:186-229 | in any run, after the k-th failure in a row no caller sends a refresh request before the k-th delay is over, unless somebody signs in meanwhile |
| Auth.CoolingStep | packages/core/src/auth.ts:306-325 | until its time only a click on login ends the wait, and nothing sends a request |
| Auth.GrantsTakeTurns | packages/core/src/auth.ts:206-229 | between two refresh requests the first one is answered or fails |
| Auth.ExclusiveBodiesTakeTurns | packages/core/src/auth.ts:478-482 | in every run of probes and logins the bodies handed to the exclusive chain start in that order, each only after all before it have settled, so a probe and a login are never both at work |
| Auth.InvStep | packages/core/src/auth.ts:206-245 | every event keeps the chain: the promise in lock is that of the last body, each body waits for the one before, and the probe and the login are bodies of their own |
| Auth.AuthManager.Exclusive | packages/core/src/auth.ts:478-482 | the object hands a body to the chain: it waits for the promise in lock, and its own takes that place |
| Auth.AuthManager.StartLogin | packages/core/src/auth.ts:233-245 | the object takes the login event of the same runs: one login at a time |
| Auth.AuthManager.KubectlAllowed | packages/core/src/auth.ts:186-193 | the object takes the gate event of NoGrantBeforeTheDelay, and lets an API call pass only on a fresh token |
| Auth.AuthManager.EnsureSignedIn | packages/core/src/auth.ts:197-204 | the object takes the ensure event of the same runs |
| Auth.AuthManager.MaintainToken | packages/core/src/auth.ts:220-229 | the object takes the maintenance event of the same runs |
| Auth.AuthManager.RetryLater | packages/core/src/auth.ts:306-316 | the object takes the failure event from which the delay counts |
| Operations.InvStep | packages/core/src/operations.ts:66-193 | every create, update and phase mark, also one whose write fails, keeps the log invariant |
| Operations.OneActivePerWorkload | packages/core/src/operations.ts:73-78 | in every run at most one operation per repository and workload is active |
| Operations.KeptAreTheLastFinished | packages/core/src/operations.ts:185-188 | the finished operations kept are the last 100 to finish, in finishing order |
| Operations.ActiveOrJournalledOnce | packages/core/src/operations.ts:117-147 | every operation ever created is still active without a journal row, or has finished and has exactly one: none is evicted while active |
| Operations.ReactivationKeepsOneEachIff | packages/core/src/operations.ts:105-114 | setting a finished operation back to active keeps one active operation per workload if and only if no other one of it is active |
| PhaseTimes.JournalledTimesAreOpenTimes | packages/core/src/operations.ts:117-141 | a journal row gives each phase exactly the time it was open, at most the operation's total; for an operation loaded at the start, the time recorded then included |
| PhaseTimes.ReadingIsSpent | packages/core/src/operations.ts:151-184 | at every moment and for every operation the recorded phase time is what was recorded at the start and the time the phase has been open since |
| PhaseTimes.OpensAndCloses | packages/core/src/operations.ts:151-184 | a phase is open from its start mark on an active operation to its end mark or the operation's finish |
| OperationStore.ListStepIsStep | packages/core/src/operations.ts:185-193 | on a list as a flush leaves it, each call in place is one step of the log and leaves such a list |
| OperationStore.UnwrittenIsDropped | packages/core/src/operations.ts:96-102 | a record whose first flush fails is taken off again and nothing else with it |
| OperationStore.OperationLog.Create | packages/core/src/operations.ts:66-104 | editing the list in place is the create of ListStepIsStep, with its answer and the file: an active operation is joined or refused, a failed write leaves nothing behind |
| OperationStore.OperationLog.Update | packages/core/src/operations.ts:105-149 | editing the list in place is the update of ListStepIsStep: a finish closes all phases and appends its row, or, when the row cannot be written, nothing at all changes |
| OperationStore.OperationLog.Mark | packages/core/src/operations.ts:151-164 | editing the list in place is the mark of ListStepIsStep, and the file is rewritten only when the phase changes |
| OperationStore.OperationLog.CloseEach | packages/core/src/operations.ts:118-118 | the closing loop closes every phase |
| Lines.LinesRejoin | packages/core/src/exec.ts:95-97 | put back together with newlines, the complete lines and the carry are the text |
| Lines.PartialContinues | packages/core/src/exec.ts:95-98 | more text after a carry continues that line: the lines and carry of the whole are those of carry and chunk after the earlier lines |
| LogStream.StreamIsConserved | packages/core/src/exec.ts:94-107 | for any chunking and any placing of polls the hub was sent exactly the cleaned lines of the stream, and every line below the reader's cursor was returned at its place or reported lost |
| LogStream.PolledLinesAreTheStream | packages/core/src/logTailer.ts:48-67 | a reader never told of a loss has received exactly the cleaned newline-split of everything so far |
| LogStream.LossIsReportedExactly | packages/core/src/logTailer.ts:58-67 | a poll reports dropped if and only if more lines arrived since the last poll than the buffer keeps |
| LogStream.SinceIsExact | packages/core/src/logTailer.ts:58-67 | a poll returns the last kept lines from its cursor on and the next cursor |
| LogStream.FutureCursorIsSilent | packages/core/src/logTailer.ts:58-67 | a cursor past the end gets nothing and reports no loss |
| LogStream.RingBuffer.Push | packages/core/src/logTailer.ts:11-14 | pushing and shifting keeps the last items up to the capacity |
| LogStream.LogHub.Push | packages/core/src/logTailer.ts:48-53 | a hub that has been sent some lines has been sent one more, cleaned |
| LogStream.LogHub.Since | packages/core/src/logTailer.ts:58-67 | on a hub that has been sent some lines: the last kept ones from the cursor on, and whether any between were lost |
| LogStream.LogHub.Recent | packages/core/src/logTailer.ts:82-85 | on a hub that has been sent some lines: the last ones asked for, as far as kept |
| LogStream.LineSplitter.Ingest | packages/core/src/exec.ts:94-99 | after any chunk the hub has the complete lines of all text so far and the carry is the rest |
| LogStream.LineSplitter.Flush | packages/core/src/exec.ts:102-107 | a pending partial line goes out as a newline would have ended it |
| FileCursor.ReadFileSlice | packages/core/src/logQuery.ts:54-93 | popping and shifting the parts computes the slice that the properties below are about, and a missing file gives none |
| FileCursor.WholeRead | packages/core/src/logQuery.ts:65-92 | an uncapped read from a line beginning, or of a file that shrank, returns every complete line and stops after the last |
| FileCursor.CappedRead | packages/core/src/logQuery.ts:68-92 | a capped read whose window holds a newline returns a proper suffix of the unread lines, says so, and stops after the last |
| FileCursor.NextOffsetIsABoundaryIff | packages/core/src/logQuery.ts:50-53 | the next offset is where a line begins if and only if the read was not capped, its window holds a newline, or the window starts where a line begins |
| FileCursor.OffsetsAreBoundariesIff | packages/core/src/logQuery.ts:50-92 | all offsets of a run of appends and reads with one cap are line beginnings if and only if each read is uncapped, finds a newline in its window, or has a window that starts where a line begins |
| FileCursor.ReadersGetTrueLines | packages/core/src/logQuery.ts:54-93 | over every run of appends and reads with one cap, whatever the windows hold: each returned line is a complete line of the file at its place, each line not returned was left out by a capped read, and a reader that has just read has an entry for every complete line |
| FileCursor.EveryReadIsHonest | packages/core/src/logQuery.ts:68-92 | each read of such a run returns the last complete lines of the file, and reports truncated when it leaves any out, unless the cap is zero |
| FileCursor.TruncatedIffCapped | packages/core/src/logQuery.ts:68-73 | a read reports truncated if and only if it was capped and the cap is not zero |
| FileCursor.CappedReadDropsAWholeLineIff | packages/core/src/logQuery.ts:85-88 | a capped read whose window holds a newline returns all complete lines that begin in the window, except that it drops the first of them if and only if the window starts where a line begins |
| FileCursor.WholeLineDropped | packages/core/src/logQuery.ts:87-87 | an instance: a line that fits the window is dropped |
| FileCursor.UncappedReadIsTrueIff | packages/core/src/logQuery.ts:65-92 | an uncapped read from any offset returns lines of the file if and only if a line begins at the offset or none ends after it |
| FileCursor.FragmentReadAsALine | packages/core/src/service.ts:627-638 | a reader that starts at the end of a file ending in a partial line is later given the rest of that line as a line |
| FileCursor.FragmentReadAsALineOccurs | packages/core/src/service.ts:627-638 | an instance of it |
| FileCursor.UncappedReaderHasTheFile | packages/core/src/logQuery.ts:54-93 | a reader none of whose reads was capped was given exactly the complete lines of the file |
| NameMatch.MatchedIffOwned | packages/core/src/reconciler.ts:59-72 | a name gets exactly the items it claims that no longer known name claims, each as often as listed |
| NameMatch.AttributionIsAPartition | packages/core/src/reconciler.ts:54-72 | an item claimed by some known name goes to exactly one of them, the longest; an unclaimed item goes to none |
| NameMatch.MatchOfAppend | packages/core/src/reconciler.ts:67-71 | items keep their order and each is judged on its own |
| NameMatch.BlankMatchesNothing | packages/core/src/reconciler.ts:64-65 | a blank name gets nothing |
| NameMatch.KnownClusterNames | packages/core/src/service.ts:2194-2201 | the known names are each repository's and each of its workloads', once |
| ShellQuote.QuoteRoundTrips | packages/core/src/supervisor.ts:583-585 | the shell reads a quoted string as one word, the string itself, for every string without NUL |
| ShellQuote.LexQuoted | packages/core/src/supervisor.ts:583-585 | the same in the middle of any command line: the string joins the pending word |
| ShellQuote.DevspaceArgs | packages/core/src/supervisor.ts:40-57 | the pushing loop yields each pre-answered variable in order, then the name override, then the namespace |
| ShellQuote.ArgumentsIff | packages/core/src/supervisor.ts:86-88 | this lexer, which reads no expansion or pattern, reads a list of arguments back as given if and only if none holds a NUL and those left unquoted are ordinary text |
| ShellQuote.UnquotedIsNotReadBack | packages/core/src/supervisor.ts:87-87 | an unquoted argument with any other character is not read back, whatever follows it: a blank or operator ends it, a quote or backslash is taken away; what depends on the environment (expansions, patterns) this lexer does not read at all |
| ShellQuote.ArgsSafeIff | packages/core/src/supervisor.ts:40-57 | the arguments are safe if and only if no name or value holds a NUL and those that begin an argument with a dash are ordinary text |
| ShellQuote.CommandIff | packages/core/src/supervisor.ts:85-100 | the same lexer reads the built command as the one meant if and only if the repository is quotable |
| ShellQuote.TwoShellsIff | packages/core/src/supervisor.ts:131-132 | the same through a second level of quoting |
| ShellQuote.DashedArgumentSplits | packages/core/src/supervisor.ts:87-87 | a dashed argument with a space is read as two words |
| JsonPointer.EscapeRoundTrips | packages/core/src/supervisor.ts:324-324 | evaluation by section 4 of RFC 6901 inverts the two-step escape |
| JsonPointer.EscapeIsInjective | packages/core/src/supervisor.ts:324-324 | different names are escaped differently |
| JsonPointer.EscapedIsOneToken | packages/core/src/supervisor.ts:324-324 | an escaped name is one well-formed reference token |
| JsonPointer.DataPointer | packages/core/src/supervisor.ts:333-333 | the pointer's tokens are data and the name |
| JsonPointer.DataPointersDiffer | packages/core/src/supervisor.ts:333-333 | two repositories never patch at the same place |
| JsonPointer.OtherOrderFails | packages/core/src/supervisor.ts:324-324 | with the two replacements the other way round the round trip fails |
| JsonPointer.ReleaseRemovesOnlyItsKey | packages/core/src/supervisor.ts:323-334 | the patch removes exactly the key of this repository |

## Left out

- The awaiting code of `Sandboxes`, `OwnershipClaims`, `SandboxImageBuilds` and the start/stop verbs is modelled as state machines rather than as classes: other code runs at every await, so a method contract could not say what holds after it. What is not captured is aliasing of the record objects.
- SlotRecords.InvStep: one daemon that does not restart; adoption of records by `readLeases` and slots taken by other daemons are not in this machine (the lock across daemons is in `SlotLock`).
- SlotRecords.RecordsHoldTheirLeases: says nothing about two daemons leasing for the same key, which `lease` does not recheck after losing a create.
- ReconcilePass.RetiresIffStale: the branch for workloads whose ownership has moved is not modelled.
- Auth.NoGrantBeforeTheDelay: a fixed kube context whose inspection succeeds; clearing the cache and `syncContext` are not events of the run. After a sign-in the wait is over.
- RouteApply.ApplyRouting: labels and the fixed fields of the generated ingresses are not modelled, and no other writer changes the slot's ingresses during the call. Workers that go on after another's failure are.
- PhaseTimes.JournalledTimesAreOpenTimes: one clock reading per call, while the source reads the clock again for each phase it closes.
- OperationStore.OperationLog.Update: creating the directory of the journal is taken to succeed.
- FileCursor.ReadersGetTrueLines: single-byte text; a cap that cuts a multi-byte character changes the byte count in the source. One cap for all reads, as the callers that resume use it.
- LogStream.StreamIsConserved: subscribers and the replay of the backlog are left out; one writer feeds the hub.
- ShellQuote.CommandIff: the profiles and the overlay path come from configuration files and are inputs. The lexer reads no expansion, pattern, comment or home directory, so for these the statement is only that the argument's reading depends on the environment.
- SessionStart.NoSessionAfterStop: prerequisites, credentials and ownership are awaits that may refuse; what they check is left out.
- The cached owner list of the ownership module, its polling and the web views.
- Environment rewriting, worktrees, snapshots, ECR queries and Dockerfile parsing: they depend on regular expressions, hashing and external programs.
- Child processes, sockets, HTTP and the command line: plumbing around the modelled state.
- Small status tables and one-branch checks: a reading settles them.
