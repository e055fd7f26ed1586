# Workflow automation: a verified model

A Dafny 4.11 model of the CRM backend's workflow automation engine and of three algorithms beside it. `dafny verify
dfyconfig.toml` checks the whole project.

The engine runs a workflow, a tree of action, delay, condition and split steps, for one record. It commits each step to
an action log, parks on delays and event waits, retries failed actions, and after any interruption rebuilds what it
knows from the log and walks the tree again. Between two attempts conditions may change their minds, and the process may
die between any two writes. What the project proves is what survives all that.

**How the run is modelled.** `RunStore` describes the persisted side (run row, action logs, event waits) and what one
attempt, one sweep, one event, one recovery and one manual retry do to it, as functions of the tables. An attempt's
environment decides everything outside the engine: each condition's verdict, each executor's result, the clock, and how
many of each step's writes land before the process dies. A schedule is any sequence of such happenings. `Worker` is the
engine's code in its own imperative form: a class with the in-memory caches keyed by id and path, a loop over each step
list, a recursive walk. It is proved to change the tables exactly as `RunStore` says. The theorems are then about
schedules:

- `RunLogs`, `RunRoutes`, `RunSafety`: invariants of every reachable state. Committed work is never repeated or altered,
  no fork ever has progress in both branches, and in solid trees (below) the committed steps are the beginning of one
  route; parking, deadlines and event waits are sound.
- `RunOutcomes`, `ForkChoice`: what an attempt makes of each executor result, clock and hash, spelled out, and exactly
  which of them make it fail, retry, wait or complete.
- `RunTiming`, `RunEvents`: waits last as long as configured, are woken exactly when due, and a woken wait finishes; an
  event is claimed exactly when it comes in time, and then ends its step as happened.
- `RunResume`: an interrupted run refines an uninterrupted one.
- `RunRetry`, `RunCalls`, `RunVerdicts`, `RunExact`: how often executors are called, and exactly when the bound per action
  holds.
- `RunRounds`: why every run ends, the uninterrupted run, and that a manual retry can complete a failed one.
  `RunWitnesses`: concrete runs in which a promise fails.
- `StepTree` and `StepPaths`: the plan of a walk over the tree, and the text form of structural paths.

**The other parts.** `DateFieldTimers` has the date_field timers without interleaving (class `TimerStore`),
`ReconcileProtocol`, `ReconcileStale` and `ReconcileDrain` interleave the statements of a reconcile with live writes.
`BracketRepair` is the JSON bracket repairer against a reader of RFC 8259 brackets and strings. `DryRun`, `Conditions`, `Rotation`, `Enrolment` and
`SessionCache` are the preview walker, the condition evaluator, round-robin assignment, enrolment chains and the AI
session cache.

**Forks last, and solid trees.** The drafting prompt of the product states that a condition or split must be the last
step of its list (crm-backend/internal/automation/ai_draft.go:370). The engine does not enforce it and walks on after a
fork. A tree is called solid when every condition that a leaf may follow has a leaf on every way through both its sides;
trees with forks last are solid. Theorems that need either say so. What happens outside is shown by
`RunWitnesses.FlipsBehind`: a fork whose taken side is empty leaves no log behind and may flip later.

**Results that differ from what one would expect.**

- A bound of four executor calls per action *of the completed route* does not hold for every tree: a failed attempt pins
  no branch (crm-backend/internal/automation/engine.go:835-853), so a run may leave a retried action behind when a
  condition turns (`RunExact.LostAddressBreaksFour`). `RunExact.FourPerActionExactly` says exactly when it holds, with
  conditions tied to the evaluator: data may change whenever a step has completed and between attempts, and every
  condition evaluates its group over the data of that moment. For all trees with forks last, four calls per step tried
  is a bound (`RunCalls.CallsPerStep`).
- An engagement event may be lost (`RunWitnesses.ClaimedEventLost`). When another claimed wait of the run, or the clock,
  wakes it between claim and action, the parked row stays unstamped and the wait cannot be claimed again;
  `RunTiming.ClaimHonouredExactly` says exactly when an event is honoured.
- `repairJSONBrackets` does not close a string that ends on a dangling backslash
  (`BracketRepair.DanglingEscapeStaysOpen`). `BracketRepair` states for well-nestedness, identity and idempotence exactly
  when they hold.
- The header of recovery.go says executors consult CompletedActions; the code rebuilds the completed set from the success
  logs (crm-backend/internal/automation/engine.go:826-855), and so does the model.
- An interleaved reconcile loses no timer, but may leave a stale extra one when a record changes between SCAN and INSERT
  (`ReconcileStale.MovedDateLeavesStaleTimer`). `ReconcileStale.InsertKeepsCurrentExactly` says exactly which INSERTs do,
  and without them there is exactly one timer (`ReconcileStale.ExactlyOneTimer`).

## Model

| member | source | states |
|---|---|---|
| `RunStore.FindWaiting` | crm-backend/internal/automation/engine.go:847-849 | Among the rows of a run, the waiting row found for a path is one of that path, and no later row of it is waiting. |
| `Worker.Engine.ProcessRun` | crm-backend/internal/automation/engine.go:750-872 | One attempt, with its in-memory caches, changes the tables exactly as the table-level function `Attempt` does: wherever it crashes, parks, retries or completes. Requires unique step ids. |
| `Worker.Engine.Rebuild` | crm-backend/internal/automation/engine.go:826-855 | Replaying the logs rebuilds completed, started, waiting and outputs to be what the tables say, under step id and path alike. |
| `Worker.Engine.ExecuteSteps` | crm-backend/internal/automation/engine.go:888-1076 | The recursive walk, though it consults a started set that grows under it, runs exactly the leaves planned from what had started when the attempt began, in order, up to the first that does not proceed. |
| `Worker.Engine.ExecuteStep` | crm-backend/internal/automation/engine.go:1016-1073 | One step of the walk: a fork runs the leaves of the one branch it takes, a leaf runs itself. |
| `Worker.Engine.ChooseBranch` | crm-backend/internal/automation/engine.go:1021-1060 | A fork whose yes side has a success or waiting log takes yes, else one whose no side has takes no; a fresh condition takes yes exactly when it has a group and that holds, a fresh split exactly when the hash is below its percentage, 50 when none is set. |
| `Worker.Engine.ExecuteAction` | crm-backend/internal/automation/engine.go:911-1014 | Each case spelled out: a committed step changes nothing; success commits the returned output; a permanent error fails the run; a retryable one re-queues it below three retries and fails it at three; a crash leaves nothing, or a running row. |
| `Worker.Engine.CommitSuccess` | crm-backend/internal/automation/engine.go:990-1013 | Success row and run row land together, the run names exactly the steps with success logs, and the in-memory state still mirrors the tables. |
| `Worker.Engine.CommitFailure` | crm-backend/internal/automation/engine.go:953-988 | A retryable error with budget left re-queues the run, counter advanced, 30, 120 or 600 seconds ahead; anything else fails it. The row lands with the run. |
| `Worker.Engine.MarkCompleted` | crm-backend/internal/automation/engine_wait.go:40-49 | Adds the id (when there is one) and the path to both sets and nothing else. |
| `Worker.Engine.ExecuteDelay` | crm-backend/internal/automation/engine_wait.go:182-298 | A delay step passes, parks, re-parks or finishes as the table-level `DelayOp`, for every crash point. |
| `Worker.Engine.FinishWaitStep` | crm-backend/internal/automation/engine_wait.go:109-155 | Finishing a parked row: one commit, then the waits are dropped; a crash in between keeps them. |
| `Worker.Engine.ResumeDelay` | crm-backend/internal/automation/engine_wait.go:185-220 | A stamped event or a passed deadline finishes the step, an early wake parks the run again. |
| `Worker.Engine.EnterDelay` | crm-backend/internal/automation/engine_wait.go:222-298 | First encounter: pass when unresolvable or due, otherwise park on the resolved deadline. |
| `Worker.Engine.PassDelay` | crm-backend/internal/automation/engine_wait.go:242-262 | A wait already over is logged as done and mirrored into the run row; a crash between the two writes leaves only the row. |
| `Worker.Engine.ParkOnDelay` | crm-backend/internal/automation/engine_wait.go:264-297 | The three writes of parking, with the state each crash point leaves. |
| `Worker.Engine.ResumeEventWaits` | crm-backend/internal/automation/engagement.go:81-107 | A run that is not parked is left alone; a parked one becomes pending, and only the waiting row of the first claimed wait is stamped. |
| `Worker.Engine.RetryRun` | crm-backend/internal/automation/repository.go:611-640 | A failed run becomes pending with no retries counted and no backoff, logs and completed steps kept; any other run is unchanged and the retry refused. |
| `Worker.Engine.RequeueInFlight` | crm-backend/internal/automation/recovery.go:14-36 | A run left running becomes pending with one more recovery counted; logs and waits stay, and other runs are left alone. |
| `Worker.OneEventWakes` | crm-backend/internal/automation/engagement.go:82-107 | Of several waits claimed for one run only the first can wake it; the others change nothing. |
| `Worker.BatchHonoursExactly` | crm-backend/internal/automation/engagement.go:81-107 | Of a batch of claimed waits the parked step's own event is honoured exactly when it comes first, or its row was stamped before; a left-over wait that comes first wakes the run and loses the event. |
| `ResumeState.StartedMeansTouched` | crm-backend/internal/automation/engine_wait.go:87-102 | The recursive check over ids and paths holds exactly when some leaf of the subtree has a success or waiting log. |
| `ResumeState.IndexFindsLeaf` | crm-backend/internal/automation/engine_wait.go:64-81 | The path index maps the path of every step with an id to that id. |
| `ResumeState.KeysTellDone` | crm-backend/internal/automation/engine.go:830-855 | With unique ids, a leaf is in the completed (started) set exactly when its own path has a success (success or waiting) log. |
| `ResumeState.RebuildSuccess` | crm-backend/internal/automation/engine.go:836-846 | Reading one more success row keeps the rebuilt state equal to what the rows say; a null output leaves the outputs readable as before. |
| `StepTree.LeavesDistinct` | crm-backend/internal/automation/engine.go:889-890 | No two leaves of a tree share a structural path. |
| `StepTree.PlanStable` | crm-backend/internal/automation/engine.go:1016-1060 | Progress along a fresh plan leaves the next plan the fresh one, when forks decide the same. |
| `StepTree.PlanKeepsPinned` | crm-backend/internal/automation/engine.go:1017-1025 | Progress along the plan of a tree with at most one started branch per fork keeps it so, whatever forks now say. |
| `StepTree.PlanKeepsWay` | crm-backend/internal/automation/engine.go:1016-1060 | Solid trees, steps after a fork included: what has started keeps its place at the front of every later plan; where more is to follow, a way gone through to its end is kept as it was. |
| `StepTree.PlanFollows` | crm-backend/internal/automation/engine.go:1016-1060 | Every later plan is itself the route of one walk: decided as before under what has started, afresh elsewhere. |
| `StepPaths.RoundTrip` | crm-backend/internal/automation/step_path.go:27-78 | Parsing a formatted path gives its segments back. |
| `StepPaths.FormatInjective` | crm-backend/internal/automation/step_path.go:27-40 | Distinct paths have distinct texts. |
| `StepPaths.BuildIsText` | crm-backend/internal/automation/step_path.go:82-93 | The text built step by step from the parent text is the formatted path. |
| `StepPaths.PathTexts` | crm-backend/internal/automation/step_path.go:27-40 | The texts themselves: the index at the top, and branch name and index, joined by pipes, under a fork. |
| `RunLogs.AlwaysOk` | crm-backend/internal/automation/engine.go:888-1076 | In every reachable state: no row follows a success or waiting row of its step, retry count at most 3, completed actions backed by success rows, a waiting run parked on a waiting row at that deadline. |
| `RunLogs.AlwaysEvolves` | crm-backend/internal/automation/engine_wait.go:109-155 | Along any schedule rows are only added, and only a waiting row ever changes: to success, or to an event stamp that keeps its deadline. |
| `RunLogs.OpShape` | crm-backend/internal/automation/engine.go:895-1014 | One step leaves the log alone, adds one row for a path that had neither finished nor parked, or turns its own parked row into a success. |
| `RunOutcomes.AttemptEnds` | crm-backend/internal/automation/engine.go:888-1076 | How an attempt ends, whatever it meets: failed exactly when an executor it reached gave up (permanent error, or an error at the third retry) or there was nothing to walk; pending exactly when one reported a retryable error below that; waiting exactly when a delay it reached has a deadline ahead and no event; completed exactly when every leaf it reached was passed and the last write landed. |
| `RunOutcomes.FailureRecorded` | crm-backend/internal/automation/engine.go:972-988 | The failing attempt sets the run failed, its retry count as it was, and adds a failed row of the step; nothing else. |
| `RunOutcomes.RetryRecorded` | crm-backend/internal/automation/engine.go:952-971 | The retrying attempt uses one retry, queues the run 30, 120 or 600 seconds ahead, and adds a retrying row of the step; nothing else. |
| `RunOutcomes.SuccessRecorded` | crm-backend/internal/automation/engine.go:990-1013 | A success adds a row with the output the executor returned, clears the retry state and lists the step under id and path. |
| `RunOutcomes.CommittedSkipped` | crm-backend/internal/automation/engine.go:911-915 | A walk passes a committed step without any change. |
| `RunOutcomes.ParkRecorded` | crm-backend/internal/automation/engine_wait.go:222-297 | A delay met for the first time with a deadline ahead parks the run on exactly the configured deadline; an event wait of a contact is registered with it. |
| `RunOutcomes.ReparkRecorded` | crm-backend/internal/automation/engine_wait.go:198-212 | A parked delay woken early goes back to waiting for the same deadline, its row and the registrations untouched. |
| `RunOutcomes.PassRecorded` | crm-backend/internal/automation/engine_wait.go:242-262 | A delay with nothing to wait for is logged as done at once and the walk goes on. |
| `RunOutcomes.FinishRecorded` | crm-backend/internal/automation/engine_wait.go:109-155 | A wait that may finish turns its own row into a success: a stamped event now and as happened, anything else at its deadline; retry state and wake time are cleared, and an event wait takes all registrations of the run with it. |
| `RunOutcomes.NothingToWalk` | crm-backend/internal/automation/engine.go:759-816 | A run not pending or running, or not locked, is left alone; without version, logs or steps it can only fail. |
| `RunOutcomes.OutputIsReturned` | crm-backend/internal/automation/engine.go:945-1013 | Every row an attempt adds tells the verdict its own executor gave in that attempt, and a success row keeps the returned output whatever follows. |
| `ForkChoice.FreshForkPlan` | crm-backend/internal/automation/engine.go:1016-1073 | The plan through a fork nobody has entered is the plan of the side that its hash (below the percentage or not) or its group (none means no) decides for, and holds no leaf of the other. |
| `ForkChoice.HashDecidesForGood` | crm-backend/internal/automation/split.go:9-27 | Under any schedule nothing is ever committed or parked on the side of a split its hash rules out, nor on the yes side of a condition without a group. |
| `ForkChoice.ShareIsExact` | crm-backend/internal/automation/split.go:23-27 | Of the hundred hash values exactly percentA send a fresh split to A. |
| `RunSafety.NeverRerun` | crm-backend/internal/automation/engine.go:897-915 | Once committed, a step's success row, output included, never changes and no later row is written for the step, under any schedule. |
| `RunSafety.CompletedActionsHonest` | crm-backend/internal/automation/engine_wait.go:53-60 | Every key in the run's completed actions belongs to a step with a success row. |
| `RunSafety.BranchesPinned` | crm-backend/internal/automation/engine.go:1017-1060 | At no time does any condition or split, in any tree, hold success or waiting logs in both branches, even when conditions flip at every attempt. |
| `RunSafety.OneRoute` | crm-backend/internal/automation/engine.go:826-871 | Solid trees, forks last or not: the committed steps are always, in order, the beginning of the route of one walk, whatever the conditions said at each attempt; a completed run committed all of it. |
| `RunWitnesses.FlipsBehind` | crm-backend/internal/automation/engine.go:1016-1042 | Not solid, an If with an empty no side and two steps after it: the condition turns after b was committed, and the run commits b, then a, then c, the beginning of no walk. |
| `RunSafety.ParkedOnce` | crm-backend/internal/automation/engine_wait.go:272-285 | Solid trees: a waiting run has exactly one waiting row and wakes at that row's deadline. |
| `RunSafety.DeadlineFixed` | crm-backend/internal/automation/engine_wait.go:185-211 | No re-park, crash, sweep or event moves a parked row's deadline while it waits. |
| `RunSafety.WaitFinishesRightly` | crm-backend/internal/automation/engine_wait.go:109-219 | A parked step finishes only at or after its deadline, or once stamped by an event; `happened` says which and `timed_out` is its negation. |
| `RunSafety.AlwaysWaitsOk` | crm-backend/internal/automation/repository.go:971-1043 | Every registered wait belongs to an event-wait step that is over or still parked with that very deadline; only event waits are ever stamped. |
| `RunSafety.ClaimsBeforeDeadline` | crm-backend/internal/automation/repository.go:987-1004 | An event can claim a wait only at an event-wait step that is over or whose deadline lies ahead. |
| `RunTiming.DelayHonoured` | crm-backend/internal/automation/engine_wait.go:185-298 | Whatever comes between, the attempt that finishes a parked step runs at or after the deadline the parking attempt computed (its clock plus the duration or timeout, or the resolved date), unless an event was stamped on an event wait. |
| `RunTiming.SweepWakesExactlyDue` | crm-backend/internal/automation/repository.go:733-742 | Solid trees: the clock sweep wakes a parked run exactly when its parked step is due, for an immediate retry and without a wake time; otherwise it changes nothing, and it never touches a log. |
| `RunTiming.EventWakesAndStamps` | crm-backend/internal/automation/repository.go:987-1037 | Claiming the wait of the step a run is parked on and acting on it at once wakes the run and stamps that row, deadline kept. |
| `RunEvents.ParkingRegisters` | crm-backend/internal/automation/engine_wait.go:288-297 | An attempt that parks an event wait of a contact, every write landing, leaves it registered, unclaimed, under the parked row's deadline. |
| `RunEvents.ClaimedExactly` | crm-backend/internal/automation/repository.go:987-1004 | Any tree: while such a row waits and no event was claimed for it, an event is claimed if and only if the wait is still registered and the row's deadline lies ahead. |
| `RunEvents.EventInTimeIsClaimed` | crm-backend/internal/automation/repository.go:987-1004 | Solid trees: whatever else happens meanwhile, an event for a step still awaited is claimed if and only if it comes before the parked row's deadline. |
| `RunEvents.EventInTimeHappens` | crm-backend/internal/automation/engine_wait.go:188-196 | Solid trees: an event before the deadline, acted on while the run waits, wakes it, and the next attempt ends the step with happened = true. |
| `RunTiming.ClaimHonouredExactly` | crm-backend/internal/automation/repository.go:1006-1037 | With anything happening between claim and action: a claimed event on a parked step is honoured if and only if the run is still waiting when it is acted on; and no event is ever claimed for that step again. |
| `RunTiming.ClaimedIsUnstamped` | crm-backend/internal/automation/engagement.go:76-107 | A stamped row of a parked step has no claim outstanding and no wait open. |
| `RunWitnesses.ClaimedEventLost` | crm-backend/internal/automation/engagement.go:81-107 | A concrete run: an event claimed in time, the sweep first to wake the run, and the step ends with happened = false. |
| `RunTiming.ClaimedOnce` | crm-backend/internal/automation/repository.go:978-1004 | Once an event has been claimed for a step no other ever will be, under any later schedule. |
| `RunTiming.WokenRunFinishesWait` | crm-backend/internal/automation/engine_wait.go:185-219 | Solid trees: the next attempt of a woken run finishes its parked step if that is due or stamped and the write lands, whatever conditions now say. |
| `RunTiming.ParkedIsNext` | crm-backend/internal/automation/engine.go:1017-1025 | Solid trees: in every later plan the parked step is the first one not committed, so no attempt can walk past it. |
| `RunRoutes.SkipsCommitted` | crm-backend/internal/automation/engine.go:895-915 | A walk over a plan whose first k leaves are committed is the walk from leaf k on. |
| `RunRoutes.AttemptAligned` | crm-backend/internal/automation/engine.go:826-871 | One attempt commits further leaves of its plan in order, parks at most the next one, and completes only with all committed. |
| `RunResume.UninterruptedRun` | crm-backend/internal/automation/engine.go:888-1076 | With nothing failing, dying or waiting, one attempt commits the whole plan in order and completes. |
| `RunResume.ResumeRefinesUninterrupted` | crm-backend/internal/automation/engine.go:826-871 | For every tree, delays of every kind included: take any schedule that completes the run. Every other schedule of crashes, parks, retries and wakes whose conditions decide alike commits a prefix of the same steps in the same order, and all of them once completed. |
| `RunResume.SplitsRefineUninterrupted` | crm-backend/internal/automation/split.go:13-27 | Trees whose only forks are splits need no hypothesis: any two schedules commit prefixes of the same steps, and all of them once completed. |
| `RunRounds.UninterruptedCompletes` | crm-backend/internal/automation/engine.go:888-1076 | The uninterrupted run, in which nothing dies or fails and each wait is sat out, completes for every tree and commits the plan of one walk. |
| `RunRounds.UninterruptedExists` | crm-backend/internal/automation/engine_wait.go:185-298 | From any state there are such uninterrupted rounds, however many, for every tree and every way its conditions may decide. |
| `RunRounds.RetryResets` | crm-backend/internal/automation/repository.go:611-640 | A manual retry changes exactly a failed run: pending, no retries counted, no backoff, everything it has done kept. |
| `RunRounds.RetryCompletes` | crm-backend/internal/automation/engine.go:690-733 | From any reachable failed state, a manual retry and 8N+4 good rounds in which no executor fails, whatever else comes between, complete the run. |
| `RunRounds.RetryCanComplete` | crm-backend/internal/automation/engine.go:690-733 | Such rounds exist from every failed state, and every success row from before the failure is still there, unchanged. |
| `RunRetry.AlwaysWithinBudget` | crm-backend/internal/automation/engine.go:953-1013 | Retries never exceed three per committed step and per manual retry plus the current counter, failures number at most one more than the manual retries, and calls without a verdict at most the crashes. |
| `RunRetry.CallsBounded` | crm-backend/internal/automation/engine.go:953-1013 | Any tree, any schedule, conditions free to flip: at most four executor calls per committed step, four more for the one being tried and for each manual retry, plus one per crash. |
| `RunCalls.CallsPerStep` | crm-backend/internal/automation/engine.go:911-1013 | Forks last, conditions free to flip: no step's executor is called more than four times plus once per crash, in the whole run. |
| `RunCalls.AlwaysBudgeted` | crm-backend/internal/automation/engine.go:953-1060 | Every retried step was retried at most three times, and is committed, shut off by progress in another branch, or still next on some route with no more retries than the counter shows. |
| `RunCalls.RoutesDiverge` | crm-backend/internal/automation/engine.go:1016-1073 | Forks last: two routes that have come equally far have the same next step or part at a fork. |
| `RunRetry.CallsBoundedPerAction` | crm-backend/internal/automation/engine.go:953-1013 | Any tree, conditions that decide alike at every attempt: at most four calls per committed action step, four more for the one being tried, plus one per crash; a completed run makes at most four per action of its route, plus one per crash. |
| `RunExact.FourPerActionExactly` | crm-backend/internal/automation/engine.go:953-1073 | Forks last, conditions evaluated afresh at every attempt over any data: completed runs always make at most four calls per action of their route, plus one per crash, if and only if no two routes their conditions can give agree so far, one with an action next, the other with a wait that may park, or its end. |
| `RunExact.ThriftyStaysWithinFour` | crm-backend/internal/automation/engine.go:953-1013 | Where no such two routes exist, every completed run of every schedule stays within the bound. |
| `RunExact.WasteBreaksFour` | crm-backend/internal/automation/engine.go:1016-1042 | Where they do exist, a schedule without any crash breaks it: each action on the way is retried three times, the one at the parting once at least, and then the condition turns. |
| `RunExact.EvenTreesWithinFour` | crm-backend/internal/automation/engine.go:1016-1073 | A check on the tree alone that suffices: both sides of each condition go on with an action, or both do not. |
| `RunExact.LostAddressBreaksFour` | crm-backend/internal/automation/engine.go:1016-1042 | A concrete run: a mail fails for now, the contact loses the address the condition asks for, and the run completes along the empty side after one call and no action. |
| `RunVerdicts.AlwaysOnItsRoute` | crm-backend/internal/automation/engine.go:1016-1073 | Forks last: the committed steps follow one route that evaluations of the conditions can give, although each attempt evaluated them over data of its own; a completed run committed all of it. |
| `RunVerdicts.PlanMixes` | crm-backend/internal/automation/engine.go:1016-1042 | With the first n leaves of one route started, an attempt that would decide otherwise walks the route of the mixture: what lies before leaf n as then, what follows as now. |
| `RunRetry.AttemptShrinks` | crm-backend/internal/automation/engine.go:953-1013 | Every attempt that is neither a crash nor a premature wake ends the run or strictly lowers a measure of steps not started, steps not done and retries left. |
| `RunRetry.EffectiveAttemptsBounded` | crm-backend/internal/automation/engine.go:953-1013 | Without manual retries at most 8N+4 such attempts happen, N being the leaves of the tree. |
| `RunRounds.RoundShrinks` | crm-backend/internal/automation/recovery.go:14-36 | A round of recovery, clock sweep and attempt, the run awake or its parked step due and every write landing, ends the run or strictly lowers the measure, whatever else happened before it but a manual retry. |
| `RunRounds.RunEnds` | crm-backend/internal/automation/engine.go:953-1013 | From any reachable state, manual retries before it included, 8N+4 such rounds with anything but manual retries in between bring the run to completed or failed. |
| `RunRetry.DueWaitIsNotReparked` | crm-backend/internal/automation/engine_wait.go:185-219 | A wait whose deadline has come or whose event is stamped is finished, not parked again. |
| `TimerTable.PrefixSeparates` | crm-backend/internal/automation/datefield_timers.go:147-157 | A record's key prefix matches its own timers and no other record's (ids without a colon). |
| `TimerTable.KeyText` | crm-backend/internal/automation/datefield_timers.go:147-157 | The key itself: df, record id and Unix time, joined by colons. |
| `TimerTable.KeyInjective` | crm-backend/internal/automation/datefield_timers.go:153-157 | Equal dedupe keys mean the same record and the same fire time. |
| `TimerTable.MaterializeMoves` | crm-backend/internal/automation/datefield_timers.go:190-207 | Arming an occurrence leaves exactly that one pending for its record and no row of another record touched. |
| `TimerTable.CancelClears` | crm-backend/internal/automation/datefield_timers.go:211-216 | Cancelling leaves the record nothing pending and touches no other record. |
| `DateFieldTimers.TimerStore.Swap` | crm-backend/internal/automation/datefield_backfill.go:225-274 | The reconcile leaves exactly the specified table; Scanned, ExcludedTestLeads, SkippedNoFutureDate, Armed count what they say, and Scanned + Truncated is the total. |
| `DateFieldTimers.TimerStore.BackfillTruncation` | crm-backend/internal/automation/datefield_backfill.go:466-480 | The exact number of records the cap left out, and 0 when the cap was not reached. |
| `DateFieldTimers.ScanIsOldest` | crm-backend/internal/automation/datefield_backfill.go:73-85 | Above the cap the scan takes as many records as it allows, and none it leaves out is older than one it took. |
| `DateFieldTimers.TimerStore.DropTestLeads` | crm-backend/internal/automation/datefield_backfill.go:532-539 | The scan keeps all but the test leads, in order, and counts those. |
| `DateFieldTimers.TimerStore.BuildTimers` | crm-backend/internal/automation/datefield_backfill.go:246-260 | Keeps exactly the records with a date still ahead, in order, and counts the others. |
| `DateFieldTimers.TimerStore.InsertTimers` | crm-backend/internal/automation/datefield_backfill.go:265-273 | Inserts what is absent, leaves what is there, and counts the rows that landed. |
| `DateFieldTimers.TimerStore.HandleWrite` | crm-backend/internal/automation/datefield_timers.go:224-328 | A record event cancels, keeps or re-arms exactly as specified; a silenced write cancels but never arms. |
| `DateFieldTimers.ReconcileExact` | crm-backend/internal/automation/datefield_backfill.go:225-274 | After a reconcile a key is pending exactly when it is the current occurrence of an eligible scanned record; fired rows are untouched. |
| `DateFieldTimers.ReconcileOneEach` | crm-backend/internal/automation/datefield_backfill.go:36-42 | Each eligible scanned record has exactly one pending timer, any other scanned record none. |
| `DateFieldTimers.OnOffOn` | crm-backend/internal/automation/datefield_backfill.go:36-42 | On, off and on again gives the same table; on twice too; off leaves only fired rows. |
| `DateFieldTimers.CountersAddUp` | crm-backend/internal/automation/datefield_backfill.go:113-137 | Scanned = Armed + ExcludedTestLeads + SkippedNoFutureDate. |
| `DateFieldTimers.LiveTimers` | crm-backend/internal/automation/datefield_timers.go:190-328 | After any ordered sequence of creates, updates, deletes and firings each record has exactly its expected occurrence pending: at most one, at its latest date. |
| `DateFieldTimers.LastWriteStands` | crm-backend/internal/automation/datefield_timers.go:224-328 | Without recursion: after a write that dates a record ahead it has exactly that occurrence pending, after a delete or a write without a date ahead none, until an event of its own changes that. |
| `DateFieldTimers.FiredForGood` | crm-backend/internal/automation/timers.go:81-105 | A fired occurrence stays fired under every later event: it is never armed again. |
| `DateFieldTimers.FiresForGood` | crm-backend/internal/automation/timers.go:133-138 | Firing a due armed occurrence takes it off the pending ones and marks it fired for good. |
| `DateFieldTimers.FiredWhenDue` | crm-backend/internal/automation/timers.go:118-131 | Nothing fires early: a fired timer was fired by the scheduler at or after its time. |
| `ReconcileProtocol.NoTimerLost` | crm-backend/internal/automation/datefield_backfill.go:43-66 | DELETE, SCAN, INSERT of any number of reconciles interleaved in any way with writes, deletes, materialisations, firings and the clock: once all have drained, every live due record is armed at its current fire time. |
| `ReconcileProtocol.RunKeeps` | crm-backend/internal/automation/datefield_backfill.go:54-61 | Throughout such a run every due record is armed, or has a materialisation queued, or is still ahead of some reconcile's INSERT. |
| `ReconcileProtocol.ScanFirstLosesTimer` | crm-backend/internal/automation/datefield_backfill.go:45-52 | The reverse order, SCAN before DELETE, has a run that ends with a live due record unarmed. |
| `ReconcileDrain.CanDrain` | crm-backend/internal/automation/datefield_backfill.go:43-66 | From any activated world what is in flight can drain, each reconcile through DELETE, SCAN and INSERT and each queue to its end, and then every due record is armed. |
| `ReconcileStale.InsertKeepsCurrentExactly` | crm-backend/internal/automation/datefield_backfill.go:245-272 | In a sound world without stale timers an INSERT brings in none if and only if every due record of its scan still has its fire time (test leads apart), or has a materialisation queued, or another reconcile is still before its DELETE. |
| `ReconcileStale.ExactlyOneTimer` | crm-backend/internal/automation/datefield_backfill.go:36-66 | When every INSERT of an interleaved run meets that condition, once all has drained each live due record has exactly one pending timer, at its current fire time, and an id without a record has none. |
| `ReconcileStale.MovedDateLeavesStaleTimer` | crm-backend/internal/automation/datefield_backfill.go:245-272 | A concrete run that does not: a date moved and materialised between SCAN and INSERT leaves the record a second timer at its old date. |
| `BracketRepair.RepairJSONBrackets` | crm-backend/internal/ai/gateway.go:532-594 | The one-pass loop returns the specified repair of its input. |
| `BracketRepair.MatchCloser` | crm-backend/internal/ai/gateway.go:558-576 | A closer whose opener is open closes exactly what is open above the innermost such opener and is then written; with none open everything is closed and it is dropped. |
| `BracketRepair.OneMoreByte` | crm-backend/internal/ai/gateway.go:541-580 | What each byte adds, by an independent reading of the text written so far: anything but a closer outside strings is copied; a closer comes after the closers of what is open above its opener, and is dropped only if its opener is not open. |
| `BracketRepair.AtTheEnd` | crm-backend/internal/ai/gateway.go:581-592 | The output is what was written, a quote if a string was cut off, and the closers of what is still open by that reading. |
| `BracketRepair.CloserKept` | crm-backend/internal/ai/gateway.go:558-576 | A closer whose opener is open in the text written so far is in the output right after the closers it was owed, whatever follows. |
| `BracketRepair.ForgottenBraceClosed` | crm-backend/internal/ai/gateway.go:523-531 | A concrete input: a forgotten brace is closed before the square bracket, not swallowed by it. |
| `BracketRepair.RepairedIsWellNested` | crm-backend/internal/ai/gateway.go:532-594 | The output is well nested with closed strings exactly when the input does not end inside a string on a dangling backslash. |
| `BracketRepair.DanglingEscapeStaysOpen` | crm-backend/internal/ai/gateway.go:583-592 | A concrete input cut off after a backslash: the owed closer lands inside the string and the object stays open. |
| `BracketRepair.RepairedIsBalanced` | crm-backend/internal/ai/gateway.go:581-592 | Outside strings the output has as many closers as openers of each kind. |
| `BracketRepair.RepairedErasesAlike` | crm-backend/internal/ai/gateway.go:523-531 | Brackets outside strings apart, output is input plus a closing quote exactly when a string was cut off. |
| `BracketRepair.UnchangedExactly` | crm-backend/internal/ai/gateway.go:599-607 | Exactly which inputs come back unchanged: the well-nested ones, and those properly nested with nothing open up to a dangling backslash. |
| `BracketRepair.IdempotentExactly` | crm-backend/internal/ai/gateway.go:581-592 | Repairing twice equals repairing once exactly when no dangling backslash swallows closers still owed. |
| `DryRun.Report.Walk` | crm-backend/internal/automation/engine_dryrun.go:77-159 | The walk appends exactly the specified rows to the report. |
| `DryRun.OneRowPerStep` | crm-backend/internal/automation/engine_dryrun.go:77-159 | One row per step in pre-order whatever the conditions say, and as many action and delay rows as countStepsList counts. |
| `DryRun.PreorderCount` | crm-backend/internal/automation/dto.go:350-361 | countStepsList counts the action and delay steps of the pre-order. |
| `DryRun.UnreachedRunsNothing` | crm-backend/internal/automation/engine_dryrun.go:124-130 | A subtree that is not reached marks no action or delay "run". |
| `DryRun.UnreachedRows` | crm-backend/internal/automation/engine_dryrun.go:124-130 | Every row of a part that is not reached is a skip, for the reason handed down, on no branch. |
| `DryRun.ReachedRows` | crm-backend/internal/automation/engine_dryrun.go:71-159 | In a reached part every skip is a branch not taken, every condition that runs names its branch, every split names A with its percentage. |
| `DryRun.DryRunAgrees` | crm-backend/internal/automation/engine_dryrun.go:71-159 | Same data at every attempt and every split taking A: the action and delay rows marked "run" are, in order, the steps any completed run commits, however long it waited and however it was interrupted; and each fork marked "run" names the side the executor takes there. |
| `Conditions.LeafMeaning` | crm-backend/internal/automation/conditions.go:68-122 | An absent field satisfies `is_empty` alone; on a present one the eighteen known operators compare and any other fails. |
| `Conditions.RuleMeaning` | crm-backend/internal/automation/conditions.go:54-66 | A nested rule with an operator means some/every over its rules, true when it has none; any other rule is a comparison. |
| `Conditions.PlainGroupMeaning` | crm-backend/internal/automation/conditions.go:14-26 | A group with a field is that comparison; a group that asks nothing holds. |
| `Conditions.GroupMeaning` | crm-backend/internal/automation/conditions.go:28-51 | The early-return loops compute some/every over the rules; an unknown operator means AND. |
| `Conditions.FailClosed` | crm-backend/internal/automation/conditions.go:68-77 | For trees without `is_empty`, losing any set of fields never turns false into true. |
| `Conditions.IsEmptyOpens` | crm-backend/internal/automation/conditions.go:106-107 | The exception: an `is_empty` leaf does turn true when its field is lost. |
| `Rotation.NonNegModIsResidue` | crm-backend/internal/automation/assign_routing.go:95-104 | The index is the mathematical residue, negative tickets included. |
| `Rotation.DedupeUUIDs` | crm-backend/internal/automation/assign_routing.go:45-55 | Returns the specified de-duplication. |
| `Rotation.DedupedProperties` | crm-backend/internal/automation/assign_routing.go:39-44 | No repeats, the same members, and a pool without repeats comes back as it was. |
| `Rotation.DedupedAt` | crm-backend/internal/automation/assign_routing.go:39-55 | Collapsing repeats keeps the first-seen order: a member comes after exactly the members first seen before it. |
| `Rotation.LiveMembersProperties` | crm-backend/internal/automation/assign_routing.go:76-81 | The filtered pool has no repeats and holds exactly the live members. |
| `Rotation.LiveMemberAt` | crm-backend/internal/automation/assign_routing.go:76-81 | Filtering keeps the pool's order: a live member comes after exactly the live members before it. |
| `Rotation.PickFromPool` | crm-backend/internal/automation/assign_routing.go:66-90 | Picks the specified member, none when nobody is live. |
| `Rotation.TurnExactly` | crm-backend/internal/automation/assign_routing.go:57-90 | A ticket is a live member's turn if and only if, modulo the number of live members, it is the number of live members before him in the pool; so ticket 0 goes to the first of them. |
| `Rotation.Cursors.AssignRoundRobin` | crm-backend/internal/automation/executor_assign.go:89-127 | Claims the step's next ticket only for a non-empty pool, other cursors untouched, and assigns the member that ticket picks. |
| `Rotation.RotationIsFair` | crm-backend/internal/automation/assign_routing.go:57-90 | In any window of w consecutive tickets each live member gets floor(w/m) or ceil(w/m) turns and anyone else none. |
| `Enrolment.RunTable.Execute` | crm-backend/internal/automation/executor_enroll_records.go:42-108 | At the depth limit nothing is enrolled; a bad, absent or inactive target and a missing object are rejected, a failing load or insert is retryable, a listing error as it was classified, each leaving the specified runs; success counts the runs created. |
| `Enrolment.ChainsAlwaysOk` | crm-backend/internal/automation/executor_enroll_records.go:79-94 | Over any schedule enrolled runs sit one below their source, triggered ones at 0, and no (source, target, record) occurs twice. |
| `Enrolment.EnrollsExactly` | crm-backend/internal/automation/executor_enroll_records.go:42-108 | A run at depth 0 or 1 enrols every listed record not yet enrolled by it, one deeper than itself, and nothing else; a run at depth 2 enrols nothing. |
| `Enrolment.DepthAtMostTwo` | crm-backend/internal/automation/executor_enroll_records.go:13-17 | No run ever created is deeper than 2. |
| `Enrolment.DepthTwoReached` | crm-backend/internal/automation/executor_enroll_records.go:13-17 | Depth 2 is reached: a triggered run enrols one, which enrols one. |
| `Enrolment.RetryEnrollsNothing` | crm-backend/internal/automation/executor_enroll_records.go:151-155 | Executing the same enrolment again creates nothing. |
| `Enrolment.AtMostOnePlusBPlusBSquared` | crm-backend/internal/automation/executor_enroll_records.go:13-17 | One trigger, at most b children to each run: at most 1 + b + b*b runs exist, ever. |
| `Enrolment.AllowedRunsBounded` | crm-backend/internal/automation/executor_enroll_records.go:79-94 | The same with the bound on what each run may enrol, however its enrolments are executed and retried. |
| `Enrolment.WorklistEmpties` | crm-backend/internal/automation/engine.go:160-192 | The worklist of one triggered run is empty after at most 1 + b + b*b executions, and its runs are exactly what executing each of them once, all its enrol steps in turn, creates. |
| `SessionCache.Cache.Push` | crm-backend/internal/ai/session_context.go:65-89 | Appends and keeps the last ten; a nil session or empty summary changes nothing. |
| `SessionCache.Cache.Cleanup` | crm-backend/internal/ai/session_context.go:125-148 | Leaves all unexpired sessions if they fit and exactly 500 otherwise, unchanged, and no survivor older than an evicted unexpired one. |
| `SessionCache.Cache.DropExpired` | crm-backend/internal/ai/session_context.go:129-134 | Leaves exactly the unexpired sessions, in whatever order the map is visited. |
| `SessionCache.Cache.Oldest` | crm-backend/internal/ai/session_context.go:138-145 | Finds a session none is older than, in whatever order the map is visited. |
| `SessionCache.HoldsLastTen` | crm-backend/internal/ai/session_context.go:64-122 | Over any history a live session holds exactly its newest pushes since it was created, ten or all there are, in order, and was updated by the newest; a session exists exactly when it has such pushes. |
| `SessionCache.CleanupLeaves` | crm-backend/internal/ai/session_context.go:125-148 | After a cleanup at most 500 sessions, none idle for more than half an hour; below 500 none that is not was dropped. |

## Left out

Assumptions of the run model:

- One attempt of a run at a time. The row lock is released before the walk (crm-backend/internal/automation/engine.go:751-782), so two workers could walk one run if it were queued twice while running.
- A database write either lands or the process dies there. The code carries on after some failed writes, logging them.
- Statements and transactions are atomic steps; SQL, GORM, row locking and isolation levels are not modelled.
- Worker.Engine.ProcessRun: assumes non-empty distinct step ids, which the validator demands (crm-backend/internal/automation/validator.go:101-118), and that no id spells a path text such as "0". The code keeps ids and paths in one map; the model keeps them apart.
- Executors are an oracle: success with an output, a retryable error, a permanent error. What they do (mail, webhooks, tasks, AI text) is not modelled.
- The split hash is an arbitrary number per step of a run; SHA-256 keys are taken to be injective.
- Goroutines, channels, tickers and the jobs queue appear only as an arbitrary schedule.
- Error texts, durations, start and finish stamps, step inputs, and the JSON form of outputs are not modelled; a damaged waiting log is not either.
- Steps of unknown type, the walk without a repository and the legacy wrapper `executeStepsRecursive` are left out.
- The subject of an event wait (organisation, contact, campaign) is not modelled: any event may claim any open wait.
- RunRetry.CallsBoundedPerAction: one direction, because it is about trees whose forks need not be last; with forks last RunExact.FourPerActionExactly is exact.
- RunExact.FourPerActionExactly: the comparison of present values is one fixed function for a run, so an operator that reads the clock changes its verdict only through the data; data may be any, so it is not limited to what one record can become.
- RunEvents.EventInTimeIsClaimed: needs a solid tree; in others a second event wait may finish while the first is parked and takes every registration of the run with it; RunEvents.ClaimedExactly is exact for all trees.
- RunSafety.OneRoute: needs a solid tree; RunSafety.BranchesPinned does not. Solidity is sufficient; it is not claimed that every other tree has a run that leaves its route.

Of the timers:

- Calendar and timezone arithmetic: a record carries the instant its date resolves to, if any.
- LIKE wildcards in record ids: ids are taken to be UUIDs, free of ':', '%' and '_'.
- A write is silenced exactly when its record is a test lead.
- DateFieldTimers.TimerStore.Swap: a failing statement (the transaction rolls back) and a failing truncation count are not modelled; the per-object scan mappers are not either.
- ReconcileProtocol.NoTimerLost: covers reconciles of an active workflow below the scan cap, with materialisations of one record in commit order; deactivation and config changes during the run are not interleaved; "exactly one timer" is ReconcileStale.ExactlyOneTimer.
- Pruning of fired timers and of runs.

Of the rest:

- Conditions: the comparisons themselves, with their coercions and floats, are one abstract verdict per operator on present values.
- BracketRepair: `parseInlineJSONObject` and the extraction of tool calls around the repairer.
- DryRun: resolved parameters, delay seconds and the gate of `evaluateDryRun`; the agreement is about steps.
- Rotation: the specific-user and least-loaded strategies, unparseable ids, and 64-bit overflow of the ticket.
- Enrolment: the depth is a field of the run, not read back from JSON; target and record lookups are an oracle.
- SessionCache: building the prompt, locking, and sessions stamped with the zero time.
- Templates, permissions, audit, HTTP handlers, the scheduler's other jobs and the frontend.
