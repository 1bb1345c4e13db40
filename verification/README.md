# Fusion: a Dafny model of its protocols and wire formats

Fusion is a show-control system: a Scheduler runs a Timeline of cues, each cue submits a command to a device
Runtime, and the Runtime executes it and publishes what became of it. This project models the parts of Fusion in
which small asyncio tasks race with each other, and its hand-written wire formats, and proves what holds over all
their runs.

## How the model is built

The code between two `await`s of a coroutine is one atomic step. Each step appears twice. A class holds the fields
the source updates, and its methods perform the step statement by statement; a function on values (its name ends in
`Spec`) says what the step does, and the method's `ensures` equates the two. The steps of all tasks are then put into one
transition system per component (`Step`, `Enabled`, `Apply`), and the main results are lemmas about every run of it.

| file | component |
|---|---|
| `Timeline.dfy` | validation of a Timeline: duplicates, unknown dependencies, the three-colour search for cycles |
| `Executor.dfy`, `ExecutorRuns.dfy` | the Timeline executor: its steps, and safety over all interleavings with Runtimes, listeners and the clock |
| `ExecutorOutcomes.dfy` | what each recorded outcome says of what happened to its cue |
| `ExecutorLiveness.dfy` | deadlock freedom and a bound on the work |
| `ExecutorFaults.dfy`, `ExecutorWaits.dfy`, `ExecutorLimits.dfy` | exactly what a raise, and the end of a listener, leave possible; runs that show it |
| `Command.dfy`, `TargetRunner.dfy`, `ControlSession.dfy`, `Ledger.dfy` | the parts of a device Runtime |
| `ConfigService.dfy` | configuration stage and apply |
| `DeviceRuntime.dfy`, `DeviceApp.dfy` | the device Runtime that joins them, as functions and on its objects |
| `DeviceRuns.dfy`, `DeviceTheorems.dfy` | what every step of a device Runtime keeps, and what follows over all runs |
| `DeviceObserving.dfy` | what the adapter's answer, the clock and disturbances decide of a command; every answer to a submission |
| `EventBus.dfy` | the replay buffer and the subscriber queues against the unbounded history |
| `ShowController.dfy`, `TriggerEngine.dfy` | the Show state machine with its run task; debounce and cooldown |
| `Bits.dfy`, `Crc.dfy`, `CrcPolynomial.dfy`, `Modbus.dfy`, `SerialSession.dfy` | CRC-16 and the polynomial division it is, Modbus RTU framing, and reading one frame off a serial line |
| `Osc.dfy`, `OscFormat.dfy` | OSC 1.0 messages: builder and parser, and the packet format said without them |
| `SerialEndpoint.dfy` | line framing of a serial stream |

Times are real numbers and never decrease: milliseconds in the Timeline executor, seconds elsewhere. Fresh ids (commands, sessions,
run tasks, subscribers) are numbers in order of issue. What comes from outside is a parameter of a step: whether a
condition matches, how an awaited coroutine came back, what the adapter's manifest and completion test say, how many
bytes a serial read returns before its timeout. Modbus constants and formats are those of sections 6.3, 6.6 and 7 of
"MODBUS Application Protocol Specification V1.1b3" and sections 2.5.1.2 and 6.2.2 of "MODBUS over Serial Line
Specification and Implementation Guide V1.02"; OSC is "OSC Syntax", "Atomic Data Types" and "OSC Type Tag String" of
OSC 1.0.

## Where the code and its documentation differ

The model follows the code.

- `target_runner.py` says the generation is re-checked at each lifecycle step. Only the observing loop does it
  (line 117): a command that need not be observed succeeds although it was preempted
  (`PreemptedStillSucceeds`), exactly when `execute` returns (`DispatchIgnoresDisturbance`).
- `config_service.py` says that an exception in the apply action becomes a FAILED record. `on_applied` is called
  outside the `try` (lines 99-101): when it raises, the new revision is active and no record exists
  (`RaisingHookLosesTheRecord`). `ActiveRevision` and `HookDecides` say exactly when the active revision still is that
  of the last SUCCEEDED record; a device Runtime's own hook never raises, so there it always is (`ActiveIsLastSuccess`).
- `contracts/timeline.py` says an `abort` cue faults the whole Show. `asyncio.gather` does not cancel the siblings:
  what depends on the cue is never submitted, and every other ready cue goes by its own lateness window as if nothing
  had happened (`AfterAFault`).
- A listener that ends, by a resync or because `run` cancels it after a raise, can strand a cue that waits for its
  Runtime; `EndsIffListenedTo` and `EndsIffSomeListener` say exactly when. `NoLostCompletion` therefore speaks of live
  listeners.
- `show_controller.py` accepts a second abort in FAULTED while the first one is under way, which a cancelled run that
  raises makes possible. `OverlapIsWhatBreaks` says that this and nothing else can leave a run task live in an IDLE Show.
- `show_controller.py` sets IDLE again when `prepare` raises, but a cancelled `prepare` is no `Exception`: it leaves the
  Show in PREPARING for good, whatever follows (`CancelledArmIsForGood`).
- `release_control_session` bumps every generation also when the session it names is not the active one.
- `modbus_framing.py` accepts an odd byte count and reads a CRC byte as data (`OddByteCountReadsTheCrc`).
- OSC strings with a NUL are built but do not parse back; `RoundTrip` says exactly when the round trip holds.
- A replay buffer of size 0 answers "nothing missed" to a replay from the beginning (`ReplayWithoutBuffer`).

## Model

| member | source | states |
|---|---|---|
| TimelineContract.ValidateTimeline | src/fusion/contracts/timeline.py:68-87 | no errors exactly for a well-formed Timeline (distinct ids, known dependencies, no cycle); every error is justified, every duplicate and every unknown dependency is reported, a cycle error appears exactly when there is a cycle, and every cycle has an edge that ends a reported path |
| TimelineContract.DuplicateErrors | src/fusion/contracts/timeline.py:74-78 | the duplicate errors name exactly the ids that occur twice |
| TimelineContract.UnknownErrors | src/fusion/contracts/timeline.py:80-84 | the unknown-dependency errors are exactly the pairs of a cue and a dependency no cue has |
| TimelineContract.CycleSearch.Visit | src/fusion/contracts/timeline.py:96-106 | the recursive search terminates (fewer WHITE nodes each time), blackens the node, and keeps that the GRAY nodes are exactly the current path |
| TimelineContract.CycleSearch.FindCycles | src/fusion/contracts/timeline.py:90-111 | no error exactly when the graph is acyclic, every error is a path ending in a node it already contains, and every cycle has an edge that is the last of some reported path |
| TimelineContract.ReportIsCycle | src/fusion/contracts/timeline.py:101-103 | every reported path has a real cycle as its suffix |
| TimelineContract.TopologicalCutsCycles | src/fusion/contracts/timeline.py:96-110 | in an order in which every edge leads to an earlier node or ends a report, every cycle has an edge that ends a report: why blackening all nodes without error means acyclic |
| TimelineContract.AcyclicHasMinimal | src/fusion/contracts/timeline.py:90-111 | what validation buys the executor: any non-empty set of cues has one that depends on none of the others |
| TimelineContract.GraphKeys | src/fusion/contracts/timeline.py:91-93 | the graph dictionary has exactly the cue ids as keys |
| TimelineExecution.TimelineExecutor.Finish | src/fusion/core/timeline_executor.py:156-158 | the outcome is recorded and the done event set, nothing else |
| TimelineExecution.TimelineExecutor.CheckDependency | src/fusion/core/timeline_executor.py:93-98 | one dependency: on to the next, or SKIPPED |
| TimelineExecution.TimelineExecutor.FireOrWait | src/fusion/core/timeline_executor.py:100-114 | sleeping towards the deadline, the lateness window, the hold check, or the submit request |
| TimelineExecution.TimelineExecutor.OnReply | src/fusion/core/timeline_executor.py:116-138 | the submit reply: FAILED if the Runtime raised, the outcome if the command has ended, otherwise interest registered |
| TimelineExecution.TimelineExecutor.OnRecord | src/fusion/core/timeline_executor.py:148-151 | the re-read resolves the future only if it is unresolved and the command TERMINAL |
| TimelineExecution.TimelineExecutor.OnFuture | src/fusion/core/timeline_executor.py:153-154 | the resolved future's outcome is recorded |
| TimelineExecution.TimelineExecutor.OnEvent | src/fusion/core/timeline_executor.py:76-81 | a completion event resolves a registered, unresolved future and nothing else |
| TimelineExecution.TimelineExecutor.OnResync | src/fusion/core/timeline_executor.py:82-86 | every unresolved future becomes UNKNOWN, whichever Runtime it waits on |
| TimelineRuns.InvKept | src/fusion/core/timeline_executor.py:73-158 | the invariant of the whole system is kept by every step of every task |
| TimelineRuns.ReachableInv | src/fusion/core/timeline_executor.py:49-71 | the invariant holds in every state of every run |
| TimelineRuns.NotLostKept | src/fusion/core/timeline_executor.py:137-151 | between the submit reply and the re-read, and after it, no completion can slip through |
| TimelineRuns.NoLostCompletion | src/fusion/core/timeline_executor.py:140-153 | no lost wake-up: with its listener live, a cue waiting on an unresolved future has a command that still runs, or whose completion event is still in the channel |
| TimelineRuns.RecordedOutcomeIsTheServers | src/fusion/core/timeline_executor.py:133-154 | the recorded outcome is the server's for the cue's one command, by whichever of reply, event and re-read it came; only a resync substitutes UNKNOWN |
| TimelineRuns.SuccessIsTheServers | src/fusion/core/timeline_executor.py:133-154 | SUCCEEDED is recorded only with an own command that SUCCEEDED and all dependencies SUCCEEDED |
| TimelineRuns.SuccessClosure | src/fusion/core/timeline_executor.py:93-98 | the whole transitive dependency closure of a SUCCEEDED cue SUCCEEDED |
| TimelineRuns.SubmissionDiscipline | src/fusion/core/timeline_executor.py:93-128 | each cue is submitted at most once, only in [start + at_ms, start + at_ms + max_lateness_ms], only after all its dependencies SUCCEEDED, and has at most one command |
| TimelineRuns.SubmitStepIsDue | src/fusion/core/timeline_executor.py:100-128 | the same at the very step that submits, and the Show was not held then |
| TimelineRuns.OutcomesAreFinal | src/fusion/core/timeline_executor.py:156-158 | a recorded outcome never changes in any continuation |
| TimelineOutcomes.OutcomeTellsSubmission | src/fusion/core/timeline_executor.py:93-154 | in every reachable state a cue with an outcome was submitted exactly when the outcome is not SKIPPED and its task did not abort late; one that did is FAILED |
| TimelineOutcomes.OutcomeOfTheSubmitted | src/fusion/core/timeline_executor.py:129-154 | a submitted cue for which the Runtime accepted no command ends FAILED; one with a command ends as that command did, but for UNKNOWN after a resync and FAILED for a rejected command |
| TimelineOutcomes.ReplyRecords | src/fusion/core/timeline_executor.py:129-138 | the submit reply leaves an outcome exactly when the Runtime raised, which is FAILED with the error, or the command has ended, whose outcome it is |
| TimelineOutcomes.SkippedForAReason | src/fusion/core/timeline_executor.py:93-114 | a cue that ends unsubmitted does so for one of three reasons, and its record says which: a dependency that did not succeed, a lateness beyond the window (SKIPPED or FAILED by its policy), or a hold inside the window |
| TimelineOutcomes.NapsAreShort | src/fusion/core/timeline_executor.py:100-103 | a waiting cue sleeps 20 ms or until its time, whichever is less |
| TimelineLiveness.UnblockedCue | src/fusion/core/timeline_executor.py:93-94 | in a validated Timeline, some unfinished cue has only finished dependencies |
| TimelineLiveness.SomeWorkIsPossible | src/fusion/core/timeline_executor.py:90-158 | deadlock freedom: while a cue is unfinished (listeners live, nothing raised), a work step is possible now or after waiting |
| TimelineLiveness.WorkLowersMeasure | src/fusion/core/timeline_executor.py:90-158 | every step other than the clock and foreign events lowers a natural-number measure |
| TimelineLiveness.WorkIsBounded | src/fusion/core/timeline_executor.py:90-158 | any fault-free run has at most the initial measure, plus the foreign events it meets, of such steps |
| TimelineLiveness.StoppedMeansComplete | src/fusion/core/timeline_executor.py:64-71 | where no further step is possible, every cue has finished and exactly the Timeline's cues have an outcome |
| TimelineLiveness.CanComplete | src/fusion/core/timeline_executor.py:49-71 | from every calm state of a validated Timeline a fault-free run within the measure brings it to an end: every cue finished or one raised by its "abort" policy; with "skip" policies only, every cue has finished |
| TimelineFaults.AfterAFault | src/fusion/core/timeline_executor.py:64-70 | in every state in which a cue has raised: a cue that depends on it, directly or through others, is never submitted in any continuation; a ready, unsubmitted cue can still be submitted exactly when its next wake-up is no later than at_ms + max_lateness_ms |
| TimelineFaults.DependentsAreNeverSubmitted | src/fusion/core/timeline_executor.py:93-98 | along any dependency path of any length, no continuation submits the dependent of a cue that raised |
| TimelineFaults.SubmittedIffInTime | src/fusion/core/timeline_executor.py:100-114 | with its dependencies SUCCEEDED, a cue can still be submitted exactly when its next wake-up falls inside its lateness window, raise or no raise |
| TimelineFaults.SubmitInTime | src/fusion/core/timeline_executor.py:100-128 | and then its own steps and the clock are enough: no listener and no other cue is needed |
| TimelineWaits.EndsIffListenedTo | src/fusion/core/timeline_executor.py:73-81 | a cue waiting on an unresolved future can still get an outcome without a resync exactly when the listener of its own Runtime is live |
| TimelineWaits.EndsIffSomeListener | src/fusion/core/timeline_executor.py:82-86 | it can still get an outcome at all exactly when some listener is live, because a resync on any Runtime resolves every future |
| TimelineWaits.WaitsForever | src/fusion/core/timeline_executor.py:82-88 | once its own listener has ended, a waiting cue waits through every continuation without a resync, whatever other listeners do |
| TimelineWaits.OrphansLearnByReRead | src/fusion/core/timeline_executor.py:67-70 | after `run` has cancelled the listeners, only the re-read of the command record still resolves a future, with the command's own outcome |
| TimelineWaits.OrphansEndByReply | src/fusion/core/timeline_executor.py:129-154 | and a cue records a command's outcome only from the submit reply or from a future resolved before or by the re-read |
| TimelineLimits.SubmitAfterFault | src/fusion/core/timeline_executor.py:64-70 | such a run: one cue raises, the listener is cancelled, and a sibling is submitted 90 ms later |
| TimelineLimits.StrandedAfterResync | src/fusion/core/timeline_executor.py:82-86 | such a run: after its resync a cue never gets an outcome, whatever follows |
| CommandContract.CommandRecord.constructor | src/fusion/core/ledger.py:51-68 | a new record is QUEUED, without outcome |
| CommandContract.EventLog.Publish | src/fusion/core/device_runtime.py:150-180 | publishing as the commands see it: the event is appended to everything published before |
| TargetRunning.TargetRunner.BumpGeneration | src/fusion/core/target_runner.py:53-54 | the generation grows by one, the active command stays |
| TargetRunning.TargetRunner.Submit | src/fusion/core/target_runner.py:56-88 | unknown action and BUSY leave everything alone; a control action on a busy target bumps first; the command takes the generation then current and becomes active |
| TargetRunning.TargetRunner.ExecuteEnd | src/fusion/core/target_runner.py:88-111 | the whole way from DISPATCHED to the required completion, FAILED or CANCELLED, with every event published on the way |
| TargetRunning.TargetRunner.Poll | src/fusion/core/target_runner.py:113-130 | one round of observing: deadline first, 10 s after the first round, then generation, then the completion test |
| TargetRunning.TargetRunner.Finish | src/fusion/core/target_runner.py:137-145 | the record is closed and published; the runner is freed only if the command is its active one |
| ControlSessions.ControlSessionManager.Acquire | src/fusion/core/control_session.py:30-43 | a fresh session replaces the active one; a missing or zero ttl means 30 s |
| ControlSessions.ControlSessionManager.Validate | src/fusion/core/control_session.py:54-65 | missing, wrong or expired session; an expired one is forgotten |
| ControlSessions.ControlSessionManager.Renew | src/fusion/core/control_session.py:45-48 | the expiry of the shared session object moves, unless it is not active or has expired |
| ControlSessions.ControlSessionManager.Release | src/fusion/core/control_session.py:50-52 | only the active session is released |
| ControlSessions.SessionsDoNotReturn | src/fusion/core/control_session.py:17-65 | a session that was replaced, released or found expired is never active again, whatever calls follow |
| ControlSessions.ValidExactlyWhenActive | src/fusion/core/control_session.py:54-65 | validation succeeds exactly for the active session before its expiry, and then changes nothing |
| ControlSessions.ValidForItsTime | src/fusion/core/control_session.py:30-65 | after an acquisition the session is valid exactly until now + ttl, or now + 30 s without a ttl, through any calls that neither acquire nor concern it |
| ControlSessions.RenewedForItsTime | src/fusion/core/control_session.py:45-48 | renewal succeeds exactly for a valid session, and starts its time anew in the same way |
| ControlSessions.ReleasedForGood | src/fusion/core/control_session.py:50-52 | a released session is invalid after any calls whatsoever; releasing another id changes nothing |
| CommandLedgers.CommandLedger.Begin | src/fusion/core/ledger.py:29-71 | known request: the same record or a conflict; new request: exactly one entry and one record more |
| DeviceApp.DeviceRuntimeApp.SubmitCommand | src/fusion/core/device_runtime.py:107-145 | the submission up to the await of `execute`, on ledger, sessions, runner and events, is the transition system's step |
| DeviceApp.DeviceRuntimeApp.Launch | src/fusion/core/device_runtime.py:129-145 | acceptance, or rejection recorded and published |
| DeviceApp.DeviceRuntimeApp.ExecuteEnd | src/fusion/core/target_runner.py:88-111 | the end of `execute` on the Runtime's objects touches one record, its runner, its task and the events |
| DeviceApp.DeviceRuntimeApp.Poll | src/fusion/core/target_runner.py:113-130 | the same for a round of observing |
| DeviceApp.DeviceRuntimeApp.CancelObserver | src/fusion/core/target_runner.py:125-127 | the same for a cancelled observer |
| DeviceApp.DeviceRuntimeApp.BumpGenerations | src/fusion/core/device_runtime.py:266-272 | every runner's generation grows by one and nothing else changes |
| DeviceApp.DeviceRuntimeApp.AcquireControlSession | src/fusion/core/device_runtime.py:209-221 | handover: all generations bumped, a fresh session active |
| DeviceApp.DeviceRuntimeApp.RenewControlSession | src/fusion/core/device_runtime.py:223-224 | only the session's expiry moves |
| DeviceApp.DeviceRuntimeApp.ReleaseControlSession | src/fusion/core/device_runtime.py:226-230 | all generations are bumped, whether or not the session was the active one |
| DeviceApp.DeviceRuntimeApp.ApplyGuardEnds | src/fusion/core/device_runtime.py:252-272 | the generations are bumped exactly when the configuration is applied |
| DeviceApp.DeviceRuntimeApp.BusyTargets | src/fusion/core/device_runtime.py:234-245 | the default guard's list is exactly the targets with an unfinished active command |
| DeviceRuns.StepKeeps | src/fusion/core/device_runtime.py:107-272 | every step keeps the joint invariant of ledger, runners, tasks, events, sessions and configuration |
| DeviceRuns.ReachableInv | src/fusion/core/device_runtime.py:48-77 | the joint invariant holds in every state of every run |
| DeviceGuarantees.OneCurrentCommand | src/fusion/core/target_runner.py:71-82 | per target at most one unfinished command carries the current generation; it is the active one |
| DeviceGuarantees.AcceptedExactlyWhen | src/fusion/core/device_runtime.py:107-145 | a submission starts a command exactly when target, session, request id and action are in order and the target is idle or the action may preempt |
| DeviceObserving.SubmissionAnswers | src/fusion/core/device_runtime.py:107-145 | the answer to every submission: the first failing check in the order target, session given, session held, session not expired, request id, action, idle target |
| DeviceObserving.LaunchRefuses | src/fusion/core/device_runtime.py:129-145 | an unknown action and a busy target leave one record more, REJECTED with the error, one completion event, and nothing else |
| DeviceGuarantees.TerminalIsFinal | src/fusion/core/target_runner.py:137-145 | request, content and generation of a command never change; a TERMINAL record and its events never change at all |
| DeviceGuarantees.GenerationTells | src/fusion/core/target_runner.py:53-54 | a target's generation is unchanged over a run exactly when no preemption, session change or apply happened in it |
| DeviceGuarantees.ObservedMeansUndisturbed | src/fusion/core/target_runner.py:113-122 | a command that ends SUCCEEDED at OBSERVED saw no preemption, session acquire or release, or configuration apply between acceptance and completion |
| DeviceGuarantees.OutdatedNeverSucceeds | src/fusion/core/target_runner.py:117-119 | once its generation is behind, a command to be observed never ends SUCCEEDED, whatever follows |
| DeviceGuarantees.HandoverInvalidates | src/fusion/core/device_runtime.py:209-230 | after a session acquire or release none of the commands then unfinished succeeds at OBSERVED |
| DeviceGuarantees.DispatchIgnoresDisturbance | src/fusion/core/target_runner.py:88-99 | commands that need not be observed succeed exactly when `execute` returns, whatever the generation |
| DeviceGuarantees.DeadlineStays | src/fusion/core/target_runner.py:115-116 | the deadline fixed by the first round of observing stays through every continuation, until the command ends |
| DeviceGuarantees.ObservingEnds | src/fusion/core/target_runner.py:115-124 | no command hangs: whatever happens in between, a round at or after the deadline finds the command ended or ends it as EXPIRED, even if it is complete by then |
| DeviceObserving.ExecuteDecides | src/fusion/core/target_runner.py:88-113 | the end of `execute` makes a command FAILED with the error, CANCELLED, or SUCCEEDED, unless it must be observed, which then begins |
| DeviceObserving.FirstRoundDecides | src/fusion/core/target_runner.py:113-130 | the first round: CANCELLED if the target was disturbed, otherwise as the completion test says |
| DeviceObserving.RoundDecides | src/fusion/core/target_runner.py:113-130 | every later round, whatever happened since the first: EXPIRED from 10 s after it on; before that CANCELLED if the target was disturbed in between, otherwise as the completion test says |
| DeviceObserving.CompleteSucceedsExactlyWhen | src/fusion/core/target_runner.py:115-122 | a command found complete ends SUCCEEDED exactly when fewer than 10 s have passed since its first round and no preemption, session change or apply came in between |
| DeviceObserving.OwnStepsDecide | src/fusion/core/target_runner.py:56-145 | nothing but its own adapter call and its own observing task ends a command |
| DeviceObserving.ExpiredMeansTenSeconds | src/fusion/core/target_runner.py:115-116 | EXPIRED is never recorded sooner than 10 s after the first round |
| DeviceObserving.CancelledForAReason | src/fusion/core/target_runner.py:89-127 | CANCELLED is recorded only when the adapter call or the observing task was cancelled, or by a round that found the target disturbed |
| DeviceGuarantees.PreemptedStillSucceeds | src/fusion/core/target_runner.py:74-99 | a run, for any two such requests, in which a preempted command succeeds |
| DeviceGuarantees.AppliedWhileIdle | src/fusion/core/device_runtime.py:234-272 | under the default guard no target is busy when a configuration takes over, so no command that could still be observed to succeed is running |
| DeviceGuarantees.ActiveIsLastSuccess | src/fusion/core/device_runtime.py:252-272 | a device Runtime's active revision is that of the last SUCCEEDED record of the unbounded history, and the journal is that history's tail |
| DeviceGuarantees.OneCommandPerRequest | src/fusion/core/ledger.py:39-71 | one command per request id; every command is executed exactly once, a rejected one never |
| DeviceGuarantees.RequestIsForever | src/fusion/core/ledger.py:39-47 | a request id keeps its command and its fingerprint through every continuation |
| DeviceGuarantees.ResubmissionIsIdempotent | src/fusion/core/device_runtime.py:114-145 | whatever happened since, repeating a request under a valid session gives the same command, other content a conflict, and changes nothing |
| DeviceGuarantees.EventsTellTheLife | src/fusion/core/device_runtime.py:150-180 | a command's events are a strictly rising chain closed by exactly one `command.completed`, present exactly when the record has an outcome and carrying it; SUCCEEDED achieved exactly what was required, every other outcome nothing |
| DeviceGuarantees.OutcomeTellsTheChain | src/fusion/core/target_runner.py:84-130 | which statuses an ended command went through, by outcome and requirement |
| ConfigStaging.ConfigService.Stage | src/fusion/core/config_service.py:48-57 | staging adds one revision and touches neither active revision nor journal |
| ConfigStaging.ConfigService.Note | src/fusion/core/config_service.py:104-111 | the journal is trimmed to its limit after every append |
| ConfigStaging.ConfigService.Enter | src/fusion/core/config_service.py:81-93 | compare-and-set: a mismatch is a REJECTED record |
| ConfigStaging.ConfigService.GuardEnd | src/fusion/core/config_service.py:92-102 | refused, crashed, interrupted or allowed, with and without a raising `on_applied` |
| ConfigStaging.RunKeeps | src/fusion/core/config_service.py:62-111 | lock, active revision, journal and history fit together in every state of interleaved applies |
| ConfigStaging.JournalIsTheTail | src/fusion/core/config_service.py:104-111 | the journal is exactly the last min(n, limit) records of the unbounded history |
| ConfigStaging.AppliesLeaveTheirRecord | src/fusion/core/config_service.py:81-102 | the guard is reached exactly when nothing is expected or the latest advance is the expected one; a mismatch and a refusal leave a REJECTED record with the reason, a crash a FAILED one, an interrupted guard none, and no other step adds to the history |
| ConfigStaging.ActiveRevision | src/fusion/core/config_service.py:99-102 | the active revision is the latest advance's and was staged; it is that of the last SUCCEEDED record exactly when the latest advance is recorded or re-activated that very revision |
| ConfigStaging.HookDecides | src/fusion/core/config_service.py:99-102 | which step decides: an allowed apply leaves the active revision recorded exactly when `on_applied` does not raise or the revision is that of the last SUCCEEDED record already; no other step makes a difference |
| ConfigStaging.SuccessReplacedTheExpected | src/fusion/core/config_service.py:82-102 | a success with an expected revision replaced exactly that one |
| ConfigStaging.RacersDoNotBothWin | src/fusion/core/config_service.py:81-102 | two applies expecting the same revision both succeed only if it was applied again in between |
| ConfigStaging.GuardsExclude | src/fusion/core/config_service.py:81-102 | at most one guard runs at a time, and the compared revision is still active while it runs |
| ConfigStaging.RaisingHookLosesTheRecord | src/fusion/core/config_service.py:99-102 | a run in which a revision becomes active and no record of it exists |
| EventDelivery.ReplayRefinesHistory | src/fusion/core/event_bus.py:82-92 | replay from the bounded buffer is exactly the history after n, refused exactly when the buffer no longer reaches back that far |
| EventDelivery.ReplayWithoutBuffer | src/fusion/core/event_bus.py:87-88 | with a buffer of size 0, for which n the answer agrees with the history |
| EventDelivery.EverySubscriber | src/fusion/core/event_bus.py:67-102 | over every run: queues within their size; an open subscriber has exactly the events since it subscribed; an overflowed one let exactly a whole queue of events wait, loses the first of these and everything from the overflow on, and ends with the sentinel; an unbounded queue never overflows |
| EventDelivery.StreamsIncrease | src/fusion/core/event_bus.py:67-80 | what a subscriber sees is strictly increasing, and nothing follows the sentinel |
| EventDelivery.UnsubscribedGetsNoMore | src/fusion/core/event_bus.py:101-102 | whatever follows an unsubscription, the queue holds and held exactly what was published before it |
| EventDelivery.ReplayThenSubscribe | src/fusion/core/event_bus.py:82-99 | replay then subscribe is gap-free exactly when nothing was published in between |
| EventDelivery.EventQueue.PutNowait | src/fusion/core/event_bus.py:69-72 | a full queue is left alone and refuses |
| EventDelivery.EventQueue.GetNowait | src/fusion/core/event_bus.py:75-78 | the oldest item, or nothing |
| EventDelivery.EventBus.OfferToAll | src/fusion/core/event_bus.py:67-72 | the event reaches every queue with room; the full ones are named |
| EventDelivery.EventBus.CloseOverflowed | src/fusion/core/event_bus.py:73-79 | exactly the full queues lose their oldest event, get the sentinel and are let go |
| EventDelivery.EventBus.Publish | src/fusion/core/event_bus.py:41-80 | on the bus's objects a publish is the transition system's step: history, buffer, every queue there ever was, and which subscriptions stay open |
| EventDelivery.EventBus.ReplaySince | src/fusion/core/event_bus.py:82-92 | the answer is a function of the unbounded history and the buffer size |
| EventDelivery.EventBus.Subscribe | src/fusion/core/event_bus.py:94-99 | a fresh empty queue under an unused id: the transition system's step |
| EventDelivery.EventBus.Unsubscribe | src/fusion/core/event_bus.py:101-102 | that id is gone, the others stay: the transition system's step, also for ids that are gone already |
| ShowControl.ShowController.ArmBegin | src/fusion/core/show_controller.py:62-65 | only IDLE is armed |
| ShowControl.ShowController.ArmEnd | src/fusion/core/show_controller.py:66-73 | ARMED, or back to IDLE with the error |
| ShowControl.ShowController.Start | src/fusion/core/show_controller.py:75-82 | only ARMED starts; a fresh run task is live |
| ShowControl.ShowController.DriveEnd | src/fusion/core/show_controller.py:84-93 | the run's end: IDLE if it returns in RUNNING or HOLDING, FAULTED if it raises, left to the abort if cancelled |
| ShowControl.ShowController.Hold | src/fusion/core/show_controller.py:95-99 | only RUNNING holds |
| ShowControl.ShowController.AbortBegin | src/fusion/core/show_controller.py:101-108 | STOPPING, and a live run task is cancelled and awaited |
| ShowControl.ShowController.AbortEnd | src/fusion/core/show_controller.py:109-110 | IDLE only if `stop_all` returned |
| ShowControl.AtMostOneRun | src/fusion/core/show_controller.py:75-110 | while no abort is accepted with another one under way, over all interleavings at most one run task is live, only in RUNNING, HOLDING or STOPPING, however the run task ends |
| ShowControl.StateTellsWhatRuns | src/fusion/core/show_controller.py:62-110 | under the same condition the state is exact: RUNNING or HOLDING exactly while the uncancelled run task is live; PREPARING exactly while an arm is pending or after one was cancelled; FAULTED exactly after a run that raised, until an abort |
| ShowControl.CancelledArmIsForGood | src/fusion/core/show_controller.py:62-73 | an arm cancelled in `prepare` leaves the Show in PREPARING through every continuation |
| ShowControl.HistoryTellsTheState | src/fusion/core/show_controller.py:62-110 | in every run whatsoever, state, last error and run id are those of a diagram over the calls and ends seen, and each call was accepted exactly in the state it is for |
| ShowControl.StopAllWaitsForTheRun | src/fusion/core/show_controller.py:105-109 | under the same condition `stop_all` begins only when no run task is live and no other abort is under way |
| ShowControl.StartsNeedArms | src/fusion/core/show_controller.py:62-82 | in every run whatsoever two successful starts have a successful arm between them |
| ShowControl.HoldIsSeen | src/fusion/core/show_controller.py:48-99 | over all interleavings RUNNING means no hold is requested and HOLDING that one is |
| ShowControl.AbortLeadsToIdle | src/fusion/core/show_controller.py:101-110 | from RUNNING, HOLDING and FAULTED at most four obedient steps lead to IDLE with no run left, by the abort under way or by a new one |
| ShowControl.OverlapIsWhatBreaks | src/fusion/core/show_controller.py:101-110 | the condition is exact: from any state that non-overlapping aborts lead to, an abort opens the way to a run task live in an IDLE Show exactly when it is accepted while another one is under way |
| ShowControl.OverlapBreaksTheShow | src/fusion/core/show_controller.py:101-110 | how: from every such state, one abort comes back, the Show is armed and started, and the left-over abort declares it IDLE |
| ShowControl.ObedienceIsExclusive | src/fusion/core/show_controller.py:89-90 | a sufficient condition on the run callable: if a cancelled run never ends with an error of its own, no two accepted aborts overlap |
| ShowControl.DisobedienceAdmitsOverlap | src/fusion/core/show_controller.py:91-93 | without it they can: a cancelled run that raises turns STOPPING into FAULTED, where the next abort is accepted |
| TriggerHandling.TriggerEngine.Register | src/fusion/core/trigger_engine.py:39-40 | triggers are kept in order of registration |
| TriggerHandling.TriggerEngine.Handle | src/fusion/core/trigger_engine.py:42-75 | one event through all triggers: what becomes of each, and the two instants remembered of each |
| TriggerHandling.OthersDoNotDisturb | src/fusion/core/trigger_engine.py:44-75 | triggers with other ids do not affect a trigger's verdict or memory |
| TriggerHandling.MemoryIsHistory | src/fusion/core/trigger_engine.py:48-61 | the remembered instants are those of the last match and the last firing of the whole history |
| TriggerHandling.FiresExactlyWhen | src/fusion/core/trigger_engine.py:42-75 | a trigger's action is called exactly when it matches, no earlier match is closer than the debounce, the state is allowed and no earlier firing is closer than the cooldown; it fires exactly when that action returns |
| TriggerHandling.FiringsAreSpaced | src/fusion/core/trigger_engine.py:48-61 | two successive firings are at least max(cooldown, debounce) apart |
| TriggerHandling.RateBound | src/fusion/core/trigger_engine.py:42-75 | n firings in a row span at least (n - 1) * max(cooldown, debounce) milliseconds |
| Crc.Crc16 | src/fusion/io/modbus_framing.py:42-51 | the bytewise loop computes the fold over single bits, and stays below 65536 |
| Crc.FeedIsAddAndShift | src/fusion/io/modbus_framing.py:45-50 | feeding bits one by one is adding them as a number and shifting them out |
| Crc.ShiftIsLinear | src/fusion/io/modbus_framing.py:46-50 | the shift step is linear over XOR |
| Crc.ShiftIsInjective | src/fusion/io/modbus_framing.py:46-50 | the shift step is injective on 16-bit registers |
| Crc.TrailerMatchesIffZero | src/fusion/io/modbus_framing.py:54-56 | a two-byte trailer is the CRC, low byte first, exactly when the CRC of the whole is zero |
| Crc.BurstChangesCrc | src/fusion/io/modbus_framing.py:42-51 | equally long messages that differ in a burst of at most 16 bits have different CRCs |
| Crc.ParityOfCrc | src/fusion/io/modbus_framing.py:42-51 | the CRC has odd parity exactly when the message has |
| CrcPolynomial.CrcIsTheRemainder | src/fusion/io/modbus_framing.py:42-51 | a 16-bit number is the CRC of a message exactly when it is the remainder, modulo x^16 + x^15 + x^2 + 1, of the message bits with sixteen zeros behind them and the first sixteen of all complemented |
| CrcPolynomial.RemainderIsUnique | src/fusion/io/modbus_framing.py:42-51 | division by that polynomial has one quotient and one remainder |
| CrcPolynomial.TwoBytes | src/fusion/io/modbus_framing.py:42-51 | the CRC of 02 07 is 0x1241 |
| CrcPolynomial.KnownRequest | tests/test_modbus_framing.py:12-15 | the CRC of 01 03 00 00 00 0A is 0xCDC5 |
| ModbusFraming.AcceptedIffWholeCrcIsZero | src/fusion/io/modbus_framing.py:87-95 | a frame passes exactly when it has at least five bytes, the slave's id first, and a CRC of zero over all of it |
| ModbusFraming.ReadAnswers | src/fusion/io/modbus_framing.py:87-108 | the read parser's answer to any bytes: too short, wrong slave, CRC, exception 0x83 with its code, function, byte count, or the registers, high byte first |
| ModbusFraming.WriteAnswers | src/fusion/io/modbus_framing.py:87-125 | the write parser's answer to any bytes: the same checks, exception 0x86 with its code, length, address and value |
| ModbusFraming.OnlyWithCrcIsAccepted | src/fusion/io/modbus_framing.py:54-95 | what `_with_crc` appends is the one trailer that passes |
| ModbusFraming.BurstErrorsAreDetected | src/fusion/io/modbus_framing.py:87-95 | two different frames that differ inside 16 consecutive bits, CRC included, never both pass |
| ModbusFraming.OddErrorsAreDetected | src/fusion/io/modbus_framing.py:87-95 | flipping any odd number of bits of an accepted frame makes it rejected |
| ModbusFraming.RequestsAreAccepted | src/fusion/io/modbus_framing.py:59-84 | every built request passes the check of its slave |
| ModbusFraming.RequestsAreAsSpecified | src/fusion/io/modbus_framing.py:59-84 | both requests byte by byte: slave, function 3 or 6, the two arguments modulo 65536 high byte first, the CRC; refused exactly for a slave id that is no byte |
| ModbusFraming.RequestsAreInjective | src/fusion/io/modbus_framing.py:59-84 | requests are equal exactly when slave, function and both 16-bit arguments are |
| ModbusFraming.WriteParserAcceptsOnlyTheRequest | src/fusion/io/modbus_framing.py:111-125 | the write parser accepts exactly the built request, and nothing for arguments that are no 16-bit words |
| ModbusFraming.ReadParserInvertsEncoding | src/fusion/io/modbus_framing.py:98-108 | with an even byte count the read parser is the exact inverse of the response encoding of section 6.3 |
| ModbusFraming.OddByteCountReadsTheCrc | src/fusion/io/modbus_framing.py:105-108 | an accepted odd byte count yields a last register made of the frame's low CRC byte |
| ModbusFraming.OddByteCountIsAccepted | src/fusion/io/modbus_framing.py:98-108 | such frames exist, for every slave and data byte |
| SerialSession.Transact | src/fusion/io/serial_session.py:121-135 | the request goes out once, stale input is dropped, and the response and what stays buffered are a function of answer and timing |
| SerialSession.TakesExactlyTheFrame | src/fusion/io/serial_session.py:124-135 | a conforming response that arrives in time is taken exactly, whatever follows it |
| SerialSession.TakesAPrefix | src/fusion/io/serial_session.py:124-135 | whatever the timing, the response is a prefix of the stream and the rest stays in order |
| SerialSession.ReadResponsesAreSelfDelimiting | src/fusion/io/serial_session.py:130-132 | encoded register responses announce their own length |
| SerialSession.WriteEchoesAreSelfDelimiting | src/fusion/io/serial_session.py:133-135 | write echoes have the length that is read |
| SerialSession.ExceptionsAreSelfDelimiting | src/fusion/io/serial_session.py:128-129 | exception responses have the length that is read |
| SerialSession.TruncatedResponsesAreErrors | src/fusion/io/serial_session.py:124-135 | a response cut short by the timeout is a frame error for both parsers, never a value or a device error |
| SerialSession.RegistersAreReadBack | src/fusion/io/serial_session.py:121-132 | a device's registers are read back, whatever it sends afterwards |
| SerialSession.WritesAreConfirmedByTheirEcho | src/fusion/io/serial_session.py:121-135 | a write is confirmed exactly when the stream starts with the request |
| OscFraming.BuildOscMessage | src/fusion/io/osc_framing.py:42-64 | the one-pass builder computes the packet function |
| OscFraming.ParseOscMessage | src/fusion/io/osc_framing.py:67-112 | the one-pass parser computes the message function |
| OscFraming.BuildSucceeds | src/fusion/io/osc_framing.py:26-64 | a packet is built exactly for ASCII text, 32-bit integers, blobs below 4 GiB and no nil |
| OscFraming.PacketsAreAligned | src/fusion/io/osc_framing.py:26-64 | every packet's length is a multiple of 4 |
| OscFraming.OffsetsStayAligned | src/fusion/io/osc_framing.py:67-112 | whatever bytes arrive, every offset of the whole parse is a multiple of 4 |
| OscFraming.StringRoundTrip | src/fusion/io/osc_framing.py:26-39 | a NUL-free string at an aligned place is read back, and the reader stops right behind it |
| OscFraming.MessagesReadAreTransparent | src/fusion/io/osc_framing.py:67-112 | every message that parses has an address from "/" and NUL-free strings |
| OscFraming.RoundTrip | src/fusion/io/osc_framing.py:26-112 | every built packet parses back to its message exactly when the address starts with "/" and no string has a NUL |
| OscFormat.ParsesExactlyTheFormat | src/fusion/io/osc_framing.py:67-112 | the parser returns a message exactly for the packets of a format said without it (address, type tags, values at their offsets), and it is the message they hold |
| OscFormat.RefusesExactly | src/fusion/io/osc_framing.py:67-112 | the error of every packet that is refused |
| OscFormat.AddressAlone | src/fusion/io/osc_framing.py:74-77 | a padded address alone is a message without arguments |
| OscFormat.AddressTagsValues | src/fusion/io/osc_framing.py:67-112 | a padded address, a padded tag string and stored values are the message with exactly these arguments |
| OscFormat.FlagsHaveNoBytes | src/fusion/io/osc_framing.py:108-109 | `T` and `I` are true, `F` is false, `N` is nil, in any number and order |
| OscFormat.ArgumentsAreEncoded | src/fusion/io/osc_framing.py:26-64 | tag and bytes of every argument that can be built: 32-bit words with the high byte first, zero padding |
| SerialEndpoint.Reader.Worker | src/fusion/io/serial_endpoint.py:69-81 | the nested loops hand on the lines and keep the buffer that the fold over chunks gives |
| SerialEndpoint.SplitInvertsJoin | src/fusion/io/serial_endpoint.py:79-81 | a stream has one division into newline-free lines and rest |
| SerialEndpoint.JoinInvertsSplit | src/fusion/io/serial_endpoint.py:79-81 | and splitting finds it |
| SerialEndpoint.SplitConcat | src/fusion/io/serial_endpoint.py:76-81 | splitting piecewise, carrying the rest, is splitting the whole |
| SerialEndpoint.StreamingEqualsBatch | src/fusion/io/serial_endpoint.py:69-81 | for any chunks, streaming equals splitting the whole stream exactly when no read overfilled the buffer |
| SerialEndpoint.ShortLinesAreNeverCut | src/fusion/io/serial_endpoint.py:73-78 | with chunks of at most 256 bytes and no newline-free run over 3840 bytes, streaming equals batch splitting |
| SerialEndpoint.BufferIsBounded | src/fusion/io/serial_endpoint.py:76-81 | with no assumption, the buffer is newline-free and at most 4096 bytes after each read |
| SerialEndpoint.LinesAreCounted | src/fusion/io/serial_endpoint.py:79-81 | a stream has as many lines as bytes of value 10, and no line has one |
| SerialEndpoint.OnlyFrontsAreLost | src/fusion/io/serial_endpoint.py:69-81 | with chunks of at most 256 bytes, for every stream: as many lines are handed on as it has, each the end of its own, and the kept rest is the last 4096 bytes of the unfinished line |

## Left out

- Transport, user interface and process entry points (`src/fusion/transport`, `src/fusion/ui`, the `main` modules): a channel is an abstract lossless FIFO, a client is its submit and read calls.
- `blob_store.py`, content hashes, JSON text parsing and MQTT: they rest on libraries that are not part of this model.
- `coordinator.py`, `deployment.py`, manifests, condition matching and logging: short branch tables that would only add easy members.
- Concrete adapters (motor, video, MightyZap): an adapter's `execute` may return, raise or be cancelled at any time, its completion test is arbitrary.
- IEEE floating point and clock resolution: times are real numbers, OSC floats are opaque four-byte values.
- Callbacks that raise or re-enter (`on_state_change`, `on_change`, `on_action_error`); only `on_applied` is modelled as one that may raise.
- Cancellation of the controller's own `abort` and of an observing task before its first round: nothing in the source cancels either.
- Fields that are only carried along (cue parameters, run and cue ids of a record, actors, modes, wall-clock stamps): they take part in no decision. The fingerprint's parameters are a map.
- CommandContract.EventLog.Publish: does not model delivery; `EventDelivery` models the bus on its own, and the two are not joined. Events an adapter publishes by itself are left out.
- TriggerHandling.RateBound: speaks of handles that run one after another, because a handle suspended in an abort action goes on with an old `now`.
- TimelineRuns.NoLostCompletion: speaks of live listeners, because without one the property is false; `EndsIffListenedTo` has the exact condition.
- TimelineLiveness.SomeWorkIsPossible: assumes live listeners and that no cue raised; a command may always still end.
- ShowControl.AtMostOneRun: assumes that no abort is accepted while another one is under way, because otherwise it is false; `OverlapIsWhatBreaks` has the exact condition.
- TimelineFaults.AfterAFault: says nothing of a cue whose dependencies neither all SUCCEEDED nor lead to the cue that raised: whether it is submitted depends on commands that have not ended.
- EventDelivery.EventBus.Publish: a reader taking events out of its queue is a step of the transition system and of `EventQueue`, not of the bus.
- DeviceGuarantees.AppliedWhileIdle: is about the default guard; another guard may let a configuration through while a target is busy.
- SerialSession.Transact: takes one transaction at a time, as the worker's queue does; the queue, its thread and late results of cancelled callers are left out.
- Executor steps are finer than the source's in one place: the Runtime's side of a submit (accept, reject, reply) and of a record read are steps of their own, and a lost request is a crash of the cue, after which the Runtime accepts nothing for it.
- The polling intervals of the observing loop (20 ms) are left out: a round may happen at any time, which allows every real schedule.
- `asyncio.Lock` fairness in `apply`: any waiting apply may take the lock, which allows every real order.
