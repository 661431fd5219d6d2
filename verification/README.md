# FlightdeckOS, modelled and proved in Dafny

FlightdeckOS observes a flight simulator, carries out a closed set of cockpit actions under a strict audit discipline,
and analyses what it observed. This project models four parts of it and proves what they promise:

1. **The action and procedure runtime** (`Actions`, `History`, `Executor`, `Flow`, `RuntimeModel`, `RuntimeObject`,
   `ExecutorLiveness`, `Grounds`, `FlowProgress`, `FlowEvents`, `FlowOutcomes` and the `...Laws`, `Run...` files). A tick polls the simulator, evaluates the
   flight phase, advances a two-phase action queue by passes until nothing moves, runs a dependency-graph flow, and
   appends the buffered events to a fail-stop trace. The adapter and the trace sink are adversaries: every answer they
   give is an arbitrary function of everything exchanged so far, so a sink may fail at any append. Preconditions,
   verifiers and conditions are arbitrary functions of the snapshot, and so are the snapshot comparison and the phase
   engine. Objects that change in place are classes; each method is proved equal to a specification function, and the
   run theorems are about those functions over every list of calls.
2. **Online analysers** (`Touchdown`, `GoAround`, `Exceedance`, `OffRoute`, `RouteMonitor`, `Summary`, `SummaryCap`). Each
   one-pass loop or stateful object is proved to say just what a statement about the whole stream says. Measurements are
   doubles without rounding: a real number, an infinity, or not a number, with IEEE comparisons.
3. **Crash-recoverable logs** (`TextLines`, `TraceLog`, `FdrLog`, `FdrText`, `FdrRecorder`). The JSON codec is a pair of
   functions with three obligations: an encoding is a proper line, it decodes to what was encoded, and no strict beginning
   of it decodes. `TraceLog.UnaryIsLawful` and `FdrLog.UnaryIsLawful` show that the obligations can be met.
4. **Flight-plan change classification** (`PlanChange`).

## Where the code and its comments differ

The model follows the code. What its comments or documents say otherwise is listed here with the result that settles it.

- Only verified actions become outcomes (`executor.rs:249-250`, against `executor.rs:129-130`), so the flow engine's
  failure branches cannot be reached in the assembled runtime although `engine.rs:139-140` promises that any failure
  fails the flow: `RunFlow.NoFlowFailureInEveryRun`. A flow action that is refused, unwritten or timed out leaves its step
  waiting for ever: `RunStall.FailedActionStrandsFlow`, with the concrete run of `RunExample.RefusedActionRun`.
- Outcomes of a tick are overwritten by the next successful one (`runtime.rs:244-246`), even if it polled nothing: a
  verified action is on its way to its step by `RunDelivery.VerificationIsReported`, reaches it exactly if the first
  successful poll brings a snapshot by `RunDelivery.FirstPollDecides`, and `RunLost.LostOutcomeRun` is a run over a
  replayed script that loses it. Outcomes are reported one tick later, not in the tick of the advance as
  `runtime.rs:197-198` says.
- Deadlines are not counted per advance (`executor.rs:8-9`): the counter grows once per pass (`executor.rs:214-215`), so an
  action that shares the queue may use up its budget in fewer unpaused advances. An advance counts once for a dispatched
  action exactly when `DeadlineLaws.CountedOnceIff` says, and for the one it dispatches when
  `DeadlineLaws.DispatchCountedOnceIff` does, both read off the queue before the advance; `DeadlineLaws.CompanyCostsTicks`
  drops an action one advance early. Alone in the queue the count is exact from the request on:
  `DeadlineLaws.AloneDeadlineIsExact`.
- The phase tracker's hold after a pause (`phase_tracker.rs:43-44`) never takes effect, because the runtime does not show
  it paused snapshots: `RunPauses.TrackerNeverPaused`. The hold is kept exactly for the streams of
  `RunPauses.HoldKeptIff`; `RunPauses.HoldEndsEarly` breaks it.
- Nor is evaluation suppressed whenever the state is unknown after having been known (`ingest.rs:54-55`):
  `RunPauses.SilentOnceKnownIff` says for which streams it is, `RunPauses.LostStateIsEvaluated` shows one for which it is
  not.
- A route from an unknown source is observed like any other (`monitor.rs:102-132`, against `monitor.rs:8-10`):
  `RouteMonitor.UnusableRouteIsNotObservedIff`, `RouteMonitor.UnknownSourceIsObserved`.
- Larger rewrites of a flight plan are not all replacements (`fplan.rs:370-371`): several entries appended or dropped at the
  end are reported as one edit (`fplan.rs:375-376`). `PlanChange.LargerRewriteReplacedIff`,
  `PlanChange.TwoAppendedAreOneInsertion`.
- Past the cap a phase span need not be contiguous (`summary.rs:155-163`, against `summary.rs:35`):
  `SummaryCap.ContiguousPastTheCapIff`, `SummaryCap.SpansAreContiguousIff`, and a recording that breaks it in
  `SummaryCap.LastSpanIsTorn`.
- Lines after the end of a flight-data session are loaded, not ignored (`fdr.rs:462-463`): `FdrLog.LinesAfterTheEndCount`;
  they are ignored exactly when `FdrText.TrailingIgnoredIff` says.
- The version of a flight-data header is compared in its low 32 bits only (`fdr.rs:436-437`), so a version mismatch is
  refused, as `fdr.rs:732` has it, exactly for versions other than 2 modulo 2^32: `FdrLog.OtherVersionRefusedIff`, with
  version 4294967298 in `FdrLog.WrappedVersionIsTaken`.
- A complete but malformed last line of flight data is dropped like a torn one (`fdr.rs:421-427`, against
  `fdr.rs:394-395`): `FdrText.LoadIffGood`, `FdrText.DocumentedRecoveryIff`, `FdrLog.MalformedLine`.

## Model

Paths are relative to the root of the repository.

| member | source | states |
|---|---|---|
| `Executor.ActionExecutor.Submit` | crates/fd-runtime/src/executor.rs:91-115 | a submitted action is staged under a new id and not yet pending |
| `Executor.ActionExecutor.Commit` | crates/fd-runtime/src/executor.rs:119-121 | staged requests join the end of the live queue, in order |
| `Executor.ActionExecutor.TakeCompleted` | crates/fd-runtime/src/executor.rs:131-133 | outcomes are handed over once |
| `Executor.ActionExecutor.StepValidate` | crates/fd-runtime/src/executor.rs:293-321 | catalog, then capability, then preconditions in order: the first failure is the answer; which one that is in a run, `RunRefusals.RefusalsInEveryRun` tells |
| `Executor.ActionExecutor.RunPass` | crates/fd-runtime/src/executor.rs:152-282 | one drain of the queue is one stage for every record, in submission order |
| `Executor.ActionExecutor.Advance` | crates/fd-runtime/src/executor.rs:140-289 | the loop of passes ends and yields the queue, outcomes, events and adapter calls of the specification |
| `Executor.PassLowersRank` | crates/fd-runtime/src/executor.rs:149-286 | a pass that makes progress lowers a rank summed over the queue, so advancing ends |
| `ExecutorLaws.PassesLaw` | crates/fd-runtime/src/executor.rs:140-289 | per id, an advance continues its lifecycle and its write custody; a record is still queued, in order, or ended in one settled way, and an outcome is recorded exactly for a confirmed one |
| `ExecutorLaws.AdvanceSettlesEach` | crates/fd-runtime/src/executor.rs:149-288 | a record pending at entry is still pending without a terminal event, or gone with exactly one |
| `ExecutorLaws.SurvivorsAreDispatched` | crates/fd-runtime/src/executor.rs:149-286 | whatever is left in the queue after an advance has been dispatched |
| `AdvanceLaws.PassInOrder` | crates/fd-runtime/src/executor.rs:152-282 | a pass takes its actions in the order of their submission: at most one event and one outcome for each, the ids strictly ascending |
| `AdvanceLaws.DispatchedFate` | crates/fd-runtime/src/executor.rs:206-268 | an advance verifies a dispatched action exactly if the snapshot is newer than the dispatch and the verifier of the catalog confirms it over fresh channels; it times out only if not, and only unpaused; it stays only if neither |
| `AdvanceLaws.NoTimeoutWhilePaused` | crates/fd-runtime/src/executor.rs:218-268 | on a paused snapshot no action times out, whatever the deadline |
| `DeadlineLaws.TicksArePasses` | crates/fd-runtime/src/executor.rs:149-268 | an unpaused advance costs a survivor exactly one tick for each of its passes behind the dispatch |
| `DeadlineLaws.CountedOnceIff` | crates/fd-runtime/src/executor.rs:206-268 | an unpaused advance makes of a dispatched action what one tick should, older by one or gone when confirmed or due, if and only if it is confirmed or due anyway, or every record of the queue is dispatched, unconfirmed and within its deadline |
| `DeadlineLaws.DispatchCountedOnceIff` | crates/fd-runtime/src/executor.rs:157-268 | the advance that dispatches a request costs it one tick if and only if no unconfirmed action already dispatched is due at its third tick |
| `DeadlineLaws.CompanyCostsTicks` | crates/fd-runtime/src/executor.rs:8-9 | with two ticks of budget, one unpaused advance drops a dispatched action that stands next to a fresh request |
| `DeadlineLaws.DeadlineBound` | crates/fd-runtime/src/executor.rs:206-268 | an action still queued after a run of advances, with others coming and going, has seen fewer unpaused ones than the deadline, and its count is their number if and only if none of them found a queue that cost it more, by the conditions of the two results above |
| `RunDeadline.DeadlineInEveryRun` | crates/fd-runtime/src/executor.rs:206-268 | in every run, between any two moments at which an action is pending, each unpaused snapshot polled has used at least one of its ticks, and those used before and their number together are below the deadline |
| `RunDeadline.DeadlineSettles` | crates/fd-runtime/src/executor.rs:218-268 | once the unpaused snapshots polled make up the deadline, whatever their times and whatever they show, the action's life in the trace is settled: a stalled feed times out |
| `DeadlineLaws.AloneDeadlineIsExact` | crates/fd-runtime/src/executor.rs:157-268 | from its request on, an action alone in the queue and never confirmed is dropped by just the advance that makes the unpaused ones as many as the deadline, the dispatching one included |
| `Lifecycle.LifeSpellsWord` | crates/fd-runtime/src/executor.rs:157-279 | uncorrupted events of one id spell a prefix of one of four words, and a whole word exactly when settled |
| `Lifecycle.TerminalLetterIsLast` | crates/fd-runtime/src/executor.rs:157-279 | nothing follows a terminal event of an id, so it has at most one |
| `Flow.FlowEngine.AssignActionId` | crates/fd-sop/src/engine.rs:127-137 | the id goes to the first step with that name, or nowhere |
| `Flow.FlowEngine.ReportOutcomes` | crates/fd-sop/src/engine.rs:141-191 | outcomes resolve the waiting steps they name, in order, and then the flow is rechecked |
| `Flow.FlowEngine.RunSteps` | crates/fd-sop/src/engine.rs:207-274 | every step once, its dependencies judged by the statuses at the start of the pass |
| `Flow.FlowEngine.Process` | crates/fd-sop/src/engine.rs:194-278 | a pass starts the flow once and says so, moves its steps, rechecks it; a closed flow is left alone |
| `Flow.FlowEngine.RecheckFlowCompletion` | crates/fd-sop/src/engine.rs:280-306 | a failed step fails the flow and aborts the open steps; all verified completes it |
| `FlowLaws.FlowSafety` | crates/fd-sop/src/engine.rs:127-306 | in every reachable state a started step stands on verified dependencies, statuses agree with the flow's, and each step's events tell one of its stories |
| `FlowLaws.VerifiedForever` | crates/fd-sop/src/engine.rs:141-306 | a verified step stays verified |
| `FlowLaws.ClosingIsFinal` | crates/fd-sop/src/engine.rs:196-306 | at most one completion or failure event, nothing after it, and exactly when the flow is closed |
| `FlowLaws.StepStory` | crates/fd-sop/src/engine.rs:215-274 | a step's events are a prefix of one of four stories; an action is asked for at most once |
| `FlowLaws.CompletedMeansVerified` | crates/fd-sop/src/engine.rs:219-304 | a completed flow has every step verified, and no step starts before its dependencies |
| `FlowEvents.StartedOnce` | crates/fd-sop/src/engine.rs:194-205 | over any calls the flow is started exactly if there was a pass, and then FlowStarted is the very first of its events, once |
| `FlowEvents.EventsAreTruthful` | crates/fd-sop/src/engine.rs:141-306 | every event names the flow, a step of it and that step's own action, and a failure carries a failing status that was reported |
| `FlowEvents.RequestsMatchEvents` | crates/fd-sop/src/engine.rs:257-274 | a pass hands out just the requests that its events tell of, in the same order; a report hands out none |
| `FlowOutcomes.ReportMeans` | crates/fd-sop/src/engine.rs:139-191 | a report gives each waiting step the first decisive outcome of its action, verified or failed, and leaves the others alone; once a step has failed, what is still open is given up |
| `FlowOutcomes.EndInEveryPlay` | crates/fd-sop/src/engine.rs:280-306 | over any calls the flow has failed exactly if a step has, and is completed exactly if it was started and all are verified; the last event says which |
| `FlowOutcomes.PassInStepOrder` | crates/fd-sop/src/engine.rs:207-274 | the events of a pass come in the order of the steps |
| `FlowOutcomes.ReportInOutcomeOrder` | crates/fd-sop/src/engine.rs:141-191 | the verdicts of a report come in the order of the outcomes they are due to, each about a step given that outcome's id |
| `FlowProgress.MinimalStep` | crates/fd-sop/src/engine.rs:219-224 | in an acyclic flow some step of any set of steps depends on none of that set |
| `FlowProgress.RoundLaw` | crates/fd-sop/src/engine.rs:194-306 | after a cooperative round exactly those steps are verified that were or whose dependencies all were |
| `FlowProgress.FlowCompletes` | crates/fd-sop/src/engine.rs:194-306 | an acyclic flow with unique ids completes within as many cooperative rounds of the engine as it has steps, and at least one |
| `ExecutorLiveness.GoodAdvance` | crates/fd-runtime/src/executor.rs:140-289 | under good conditions one advance writes every fresh action and verifies every one written before |
| `RunLiveness.FlowCompletesInEveryRun` | crates/fd-runtime/src/runtime.rs:174-249 | liveness of the whole runtime: with an obliging adapter, a sink that never fails, and polls of newer snapshots that serve the open actions and end with conditions that hold, any calls with four ticks for each step of an acyclic flow put its FlowCompleted into the trace |
| `RunLiveness.ProcedureCompletes` | crates/fd-runtime/src/runtime.rs:174-249 | good conditions exist: a concrete two-action procedure completes in every run of eight ticks |
| `RuntimeObject.Session.NextSeq` | crates/fd-runtime/src/session.rs:30-37 | numbers are handed out one after the other |
| `RuntimeObject.PhaseTracker.Process` | crates/fd-runtime/src/phase_tracker.rs:37-66 | the engine is not fed while paused; a changed phase yields one event from the phase before |
| `RuntimeObject.Runtime.Start` | crates/fd-runtime/src/runtime.rs:126-138 | connects, then traces the start; whole new state and every error |
| `RuntimeObject.Runtime.StartFlow` | crates/fd-runtime/src/runtime.rs:94-104 | one flow only, and none on a poisoned runtime |
| `RuntimeObject.Runtime.SubmitAction` | crates/fd-runtime/src/runtime.rs:141-157 | the request goes live only after its event was appended; otherwise the runtime is poisoned |
| `RuntimeObject.Runtime.OnSnapshot` | crates/fd-runtime/src/runtime.rs:178-227 | ingest, phase, actions, flow, in this order, their events buffered; what they carry, `RunReports.ReportsInEveryRun` and `RunBlocks.TickInEveryRun` tell |
| `RuntimeObject.Runtime.RunFlow` | crates/fd-runtime/src/runtime.rs:203-224 | earlier outcomes, then a pass, then its requests staged under new ids given back to the flow |
| `RuntimeObject.Runtime.Flush` | crates/fd-runtime/src/runtime.rs:229-237 | buffered events are stamped and appended until the first failure, which poisons |
| `RuntimeObject.Runtime.Tick` | crates/fd-runtime/src/runtime.rs:168-249 | whole new state and answer of a tick, the counts being snapshots polled and events that reached the trace |
| `RuntimeObject.Runtime.Finish` | crates/fd-runtime/src/runtime.rs:280-287 | traces the end, then closes the sink |
| `RuntimeLaws.LifecycleInEveryRun` | crates/fd-runtime/src/runtime.rs:141-249 | in every run, with any adapter and any failing sink, the trace events of an id spell a prefix of one of four lifecycles, a whole one exactly when the id has left the pipeline |
| `RuntimeLaws.WritesInEveryRun` | crates/fd-runtime/src/executor.rs:157-205 | every adapter write is for a traced request of that action, cleared on the very snapshot being processed, and the only one for its id |
| `RuntimeLaws.VerifiedAfterDispatch` | crates/fd-runtime/src/executor.rs:187-256 | every ActionVerified follows a dispatch of the same id at a strictly smaller simulator time |
| `RunEvidence.EvidenceInEveryRun` | crates/fd-runtime/src/executor.rs:222-256 | whenever an ActionVerified is appended, a snapshot of its time has been polled before that the verifier confirms over fresh or unannotated channels |
| `RunRefusals.RefusalsInEveryRun` | crates/fd-runtime/src/executor.rs:293-321 | of every ActionRejected in every run, told from the request, the catalog and the exchanges alone: UnknownAction exactly if no entry has the requested kind, exactly if the adapter was never asked; UnsupportedByAdapter and AdapterUnavailable exactly if that was its answer for the id; PreconditionFailed with this text exactly if the answer did not block and the first precondition to fail on the snapshot asked on, one of the event's time, says it |
| `RunRefusals.WriteFailuresInEveryRun` | crates/fd-runtime/src/executor.rs:187-205 | every WriteFailed quotes the answer to the one write of its id, tried at the event's time |
| `RunReports.ReportsInEveryRun` | crates/fd-runtime/src/ingest.rs:18-49 | in every run the trace has one SimStateChanged for just those polled snapshots whose state is not that of the one polled directly before, from that state to this one; one StateDelta, under the tick's source, for just those whose difference is not empty; one PhaseChange for just those that change the assessed phase; each in order and under the snapshot's time, the last ones missing only if an append failed |
| `RunReports.PhasesAreAChain` | crates/fd-runtime/src/phase_tracker.rs:37-66 | in every run the first PhaseChange starts from Preflight and every other one from the phase the one before it ended in, never in the phase it started from; unpoisoned, the last one ended in the current phase |
| `RunAnswers.AnswersInEveryRun` | crates/fd-runtime/src/runtime.rs:94-287 | the answer of every call of every run tells its exchanges: which event was appended with which number and content, which error of adapter or sink there was, what was polled and how far the trace grew; on a poisoned runtime nothing is done |
| `RunAnswers.PoisonInEveryRun` | crates/fd-runtime/src/runtime.rs:111-123 | a runtime is poisoned exactly if the last exchange is a failed append, and by its error |
| `RunBlocks.TickInEveryRun` | crates/fd-runtime/src/runtime.rs:168-249 | a tick tells one block per snapshot, all under its time: state, values, phase, then actions, then flow, then the requests its steps asked for, by the runtime and under the next ids; in the trace under consecutive numbers, a beginning of it if an append failed; each verification told is handed over as one outcome, in order |
| `RunOrder.SequenceInEveryRun` | crates/fd-runtime/src/session.rs:30-37 | trace numbers strictly increase across all calls, and the trace only ever grows |
| `RunOrder.FailStop` | crates/fd-runtime/src/runtime.rs:111-123 | a run with a failing sink is, up to the failed append, the same run with a sink that never fails |
| `RunOrder.FailedTraceIsPrefix` | crates/fd-runtime/src/runtime.rs:229-237 | the recorded trace stops right before the event that could not be appended |
| `RunOrder.PoisonedRunIsSilent` | crates/fd-runtime/src/runtime.rs:118-123 | once poisoned, no later call appends, writes or asks anything |
| `RunFlow.StepVerifiedIsEarned` | crates/fd-runtime/src/runtime.rs:203-246 | every StepVerified of an action step is preceded by the request and the verification of the step's own action under the id it was given |
| `RunFlow.FlowCompletedIsEarned` | crates/fd-sop/src/engine.rs:280-306 | before FlowCompleted the same holds for every action step of the flow |
| `RunFlow.NoFlowFailureInEveryRun` | crates/fd-runtime/src/executor.rs:246-264 | no run has a StepFailed or FlowFailed in its trace |
| `RunTale.StepStoryInEveryRun` | crates/fd-runtime/src/runtime.rs:203-216 | in every run, whatever fails, the traced events of each step of the flow spell a beginning of one of its four stories |
| `RunTale.FlowStartedFirst` | crates/fd-sop/src/engine.rs:199-204 | in every run FlowStarted is traced at most once, before any other event of the flow, and every other one has it before |
| `RunTale.StartIsTraced` | crates/fd-sop/src/engine.rs:199-204 | while no append has failed it is in the trace exactly if the flow has been started |
| `RunTale.FlowEventsInEveryRun` | crates/fd-runtime/src/runtime.rs:203-216 | in every run each traced event of a flow names the flow that was started, a step of it and that step's own action |
| `RunBlocks.FlowCaughtUpInEveryRun` | crates/fd-runtime/src/runtime.rs:203-224 | after a tick that polled a snapshot, a step still pending has a dependency that is no verified action step: outcomes handed over count before the pass |
| `RunObserved.ObservationsAreBacked` | crates/fd-sop/src/engine.rs:233-253 | whenever a StepVerified of an observation step is appended, a snapshot of its time has been polled before on which the step's condition holds |
| `RunStall.StrandedForever` | crates/fd-runtime/src/runtime.rs:203-246 | a step waiting for an id that has left the pipeline without an outcome on its way waits in every continuation, and the flow never completes |
| `RunStall.FailedActionStrandsFlow` | crates/fd-sop/src/engine.rs:139-191 | an action refused, unwritten or timed out leaves the step that was given its id waiting, and the flow neither failed nor completed, for ever |
| `RunStall.VerifiedIsReportedOrLost` | crates/fd-runtime/src/runtime.rs:241-246 | a step waiting for an id the trace calls verified has its outcome on the way if and only if it is not stranded |
| `RunDelivery.VerificationIsReported` | crates/fd-runtime/src/executor.rs:246-256 | in every run with a flow, the tick that traces an ActionVerified puts its outcome on the way to the flow |
| `RunDelivery.FirstPollDecides` | crates/fd-runtime/src/runtime.rs:174-246 | the first successful poll behind that tick alone decides, whatever is called and whatever polls fail until then: it verifies the waiting step exactly if it brings a snapshot, and otherwise the step waits in every continuation |
| `RunExample.RefusedActionRun` | crates/fd-sop/src/engine.rs:139-140 | a concrete run in which a flow's action is refused and its step waits |
| `RunExample.RefusedActionNeverFailsFlow` | crates/fd-sop/src/engine.rs:139-140 | no continuation of that run ends its flow |
| `RunLost.LostOutcomeRun` | crates/fd-runtime/src/replay.rs:125-132 | a concrete replayed run whose flow action is verified, whose next poll is empty, and whose step then waits in every continuation |
| `RunPauses.TrackerNeverPaused` | crates/fd-runtime/src/ingest.rs:56-63 | in no run does the phase tracker learn of a pause |
| `RunPauses.EvaluatedInEveryRun` | crates/fd-runtime/src/runtime.rs:184-188 | in every run the engine has been fed, in order, exactly those of all snapshots polled that were running, or unknown and not right behind a paused one |
| `RunPauses.EvaluatedIff` | crates/fd-runtime/src/ingest.rs:52-63 | the same for the next snapshot of a poll, whatever of the poll was processed before it |
| `RunPauses.HoldKeptIff` | crates/fd-runtime/src/phase_tracker.rs:38-47 | the promised hold is kept exactly when no paused snapshot is followed directly by two unknown ones |
| `RunPauses.SilentOnceKnownIff` | crates/fd-runtime/src/ingest.rs:52-63 | the promised silence once a state was known is kept exactly when, besides, no running snapshot is followed directly by an unknown one |
| `RunPauses.AnyStreamRuns` | crates/fd-runtime/src/runtime.rs:168-188 | every stream of snapshots is polled and evaluated so by some run |
| `RunPauses.HoldEndsEarly` | crates/fd-runtime/src/phase_tracker.rs:38-47 | after a pause the second unknown snapshot is evaluated without a running state confirmed |
| `RunPauses.LostStateIsEvaluated` | crates/fd-runtime/src/ingest.rs:54-61 | the unknown snapshot right behind a running one is evaluated, after any run |
| `RunPauses.TrackerHolds` | crates/fd-runtime/src/phase_tracker.rs:37-66 | given any stream itself the tracker feeds the engine just what is running, or unknown with no pause since the last running one |
| `RunPauses.TrackerAnswers` | crates/fd-runtime/src/phase_tracker.rs:37-66 | and answers with one event exactly if the assessed phase changes, from the phase before |
| `RunCrash.RecoveredTraceIsLawful` | crates/fd-runtime/src/trace.rs:322-358 | any beginning of a run's trace file, with whatever part of a line whose append failed, reads back with lawful lifecycles and increasing numbers, holding every event whose line was whole |
| `TraceLog.TraceWriter.Append` | crates/fd-runtime/src/trace.rs:205-218 | the file grows by the event's line and nothing else, or on an error by some part of it |
| `TraceLog.ReadTrace` | crates/fd-runtime/src/trace.rs:329-358 | reads what the line-by-line specification reads, with the number of the first offending line |
| `TraceLog.RoundTrip` | crates/fd-runtime/src/trace.rs:205-358 | a written trace reads back in full |
| `TraceLog.CrashRecovery` | crates/fd-runtime/src/trace.rs:324-358 | any beginning of a written trace reads without error as the first events, all of those whose line is whole |
| `TraceLog.ReadIffGood` | crates/fd-runtime/src/trace.rs:324-358 | a text reads exactly when every line is blank or current, save a malformed last line without its break; interior corruption and foreign versions are errors |
| `TraceLog.FirstBadLine` | crates/fd-runtime/src/trace.rs:329-358 | otherwise the first line that is not good names the error, its version and its number, counted from one |
| `TextLines.LinesMean` | crates/fd-runtime/src/trace.rs:332-334 | the lines of any text are its pieces between breaks, without a return before a break and without an empty last piece |
| `TextLines.TrimMeans` | crates/fd-fdm/src/fdr.rs:413-416 | trimming takes white space off both ends and nothing else |
| `FdrLog.LoadV2` | crates/fd-fdm/src/fdr.rs:410-472 | loads what the line-by-line specification loads, error for error |
| `FdrLog.RoundTrip` | crates/fd-fdm/src/fdr.rs:300-472 | a written container loads as all its samples and events in order, and its latest metadata |
| `FdrLog.CrashRecovery` | crates/fd-fdm/src/fdr.rs:390-472 | any beginning of a container loads exactly when it holds the header line whole, and then as just the records it holds whole |
| `FdrLog.OnlyBehindTheHeader` | crates/fd-fdm/src/fdr.rs:429-451 | a file with a first record other than a header that is taken is refused: no header, foreign format or version mismatch; behind one that is taken the rest is loaded |
| `FdrLog.OtherVersionRefusedIff` | crates/fd-fdm/src/fdr.rs:436-442 | a container of another version is refused exactly when its version is not 2 modulo 2^32, and loads otherwise |
| `FdrLog.WrappedVersionIsTaken` | crates/fd-fdm/src/fdr.rs:436 | a container of version 4294967298 loads |
| `FdrLog.LinesAfterTheEndCount` | crates/fd-fdm/src/fdr.rs:462-463 | records behind the session end load like any others |
| `FdrText.TrailingIgnoredIff` | crates/fd-fdm/src/fdr.rs:462-463 | for any text, the lines behind a session end are ignored exactly when they are all admitted, or all but a malformed last one, and bring no sample, no event and no other metadata |
| `FdrText.LoadIffGood` | crates/fd-fdm/src/fdr.rs:410-472 | for any text: it loads exactly when it holds a header and every line is blank, a header, or a record behind one, save a malformed last line, complete or not; and as the records of its lines |
| `FdrText.FirstBadLine` | crates/fd-fdm/src/fdr.rs:418-468 | otherwise the first offending line names the error |
| `FdrText.DocumentedRecoveryIff` | crates/fd-fdm/src/fdr.rs:394-427 | loading is as documented exactly when the text does not end in a complete malformed line |
| `FdrText.BlankBehindMalformed` | crates/fd-fdm/src/fdr.rs:414-427 | a blank line behind a malformed one is enough to make it an error |
| `FdrLog.MalformedLine` | crates/fd-fdm/src/fdr.rs:418-427 | two consequences for containers: a complete malformed last line is dropped, and with a record behind it, it is an error |
| `FdrRecorder.StreamedRecorder.RecordSample` | crates/fd-fdm/src/fdr.rs:330-340 | one sample line; everything is flushed just when this is the 32nd since the last such flush, otherwise nothing is |
| `FdrRecorder.StreamedRecorder.RecordEvent` | crates/fd-fdm/src/fdr.rs:343-347 | one event line, never flushed on its own |
| `FdrRecorder.StreamedRecorder.Finish` | crates/fd-fdm/src/fdr.rs:350-357 | the end is written once and everything is flushed |
| `FdrRecorder.CrashLosesFew` | crates/fd-fdm/src/fdr.rs:278-341 | whatever a crash leaves in the file, once its header is whole it loads and fewer than 32 samples are missing, the latest ones |
| `Touchdown.Detect` | crates/fd-fdm/src/qol.rs:127-183 | reports the first touchdown, and nothing exactly when there is none |
| `Touchdown.EvidenceStep` | crates/fd-fdm/src/qol.rs:133-179 | airborne evidence is gained by a third airborne sample in a row, kept by flight and flicker, otherwise lost |
| `Touchdown.LastIsAirborne` | crates/fd-fdm/src/qol.rs:140-152 | the sample used as last airborne is airborne |
| `Touchdown.FirstTouchdownIsStable` | crates/fd-fdm/src/qol.rs:127-183 | a touchdown once found stays the first however the recording goes on |
| `Touchdown.RecordIsObserved` | crates/fd-fdm/src/qol.rs:185-208 | no value of a record is invented; two may come from the sample before, and only for want of their own |
| `GoAround.DetectGoAround` | crates/fd-fdm/src/qoa.rs:353-412 | reports the first sustained climb after an arming descent without contact between, with its first sample and the lowest height since arming, and nothing exactly when there is none |
| `GoAround.ArmedStep` | crates/fd-fdm/src/qoa.rs:360-383 | arming is gained by a low descending sample, kept without contact, lost by contact |
| `Exceedance.FdmAnalyzer.Process` | crates/fd-fdm/src/fdm.rs:160-240 | the answer to each sample is what both sustained rules and the touchdown edge must say, and the log is the answers in order |
| `Exceedance.NextIsRight` | crates/fd-fdm/src/fdm.rs:248-292 | one start where a run of exceeding samples begins, one end right after it with its peak and length, nothing else |
| `Exceedance.AnswersInFigures` | crates/fd-fdm/src/fdm.rs:160-292 | in figures: a start exactly where sink rate or bank of a low airborne sample begins to exceed its threshold, an end exactly where it stops, with greatest figure and length; a hard touchdown exactly on contact right behind an airborne sample at no less than the threshold; in this order |
| `Exceedance.EpisodesAccountForSamples` | crates/fd-fdm/src/fdm.rs:248-292 | lengths of ended episodes and the open run add up to all exceeding samples; starts exceed ends by the open one |
| `OffRoute.OffRouteDetector.Update` | crates/fd-mission/src/monitor.rs:264-300 | an event exactly at the sample where a deviating run reaches the needed length, with the run's first number and its peak so far |
| `OffRoute.NextIsRight` | crates/fd-mission/src/monitor.rs:264-300 | the same of one step, for any stream and configuration, a sustain of zero included |
| `OffRoute.EventInFigures` | crates/fd-mission/src/monitor.rs:264-300 | in figures: an event exactly at the fix that completes the needed number farther off than the limit to one side or the other, with the first one's number and the greatest distance |
| `OffRoute.OneEventPerRun` | crates/fd-mission/src/monitor.rs:262-300 | between two events lies a sample that does not deviate |
| `RouteMonitor.Monitor.Update` | crates/fd-mission/src/monitor.rs:131-207 | on the way: the leg reached, whose end is neither captured nor passed abeam, the distances to its end, through all waypoints ahead and to the destination, and the cross-track error from its start to its end; arrived: no leg and nothing remaining; new leg and completion |
| `RouteMonitor.ObservationMeans` | crates/fd-mission/src/monitor.rs:166-207 | what remains is the length of the path through every waypoint still ahead; on the last leg it is the way to the destination, and once complete nothing |
| `RouteMonitor.FirstUnpassed` | crates/fd-mission/src/monitor.rs:140-159 | the leg reached is the first whose end is neither captured nor, unless last, passed abeam |
| `RouteMonitor.ReachedIff` | crates/fd-mission/src/monitor.rs:139-164 | the leg after an observation is the one leg all of whose predecessors were passed while its own end was not |
| `RouteMonitor.SamePositionChangesNothing` | crates/fd-mission/src/monitor.rs:131-164 | observing the same position again moves nothing |
| `RouteMonitor.NeverGoesBack` | crates/fd-mission/src/monitor.rs:139-164 | over a flight the leg never decreases and completion latches |
| `RouteMonitor.CompleteMeansArrived` | crates/fd-mission/src/monitor.rs:147-164 | a route is complete exactly on its last waypoint, and only after a position within the capture radius of it |
| `RouteMonitor.EveryWaypointPassed` | crates/fd-mission/src/monitor.rs:139-159 | no waypoint is skipped: each one behind was captured or passed abeam by some position |
| `RouteMonitor.UnusableRouteIsNotObservedIff` | crates/fd-mission/src/monitor.rs:100-134 | the promise of empty observations for unusable routes holds exactly when the source is known or there are fewer than two waypoints |
| `RouteMonitor.UnknownSourceIsObserved` | crates/fd-mission/src/monitor.rs:8-10 | an unusable route that is observed all the same |
| `Summary.SessionSummarizer.PushSample` | crates/fd-fdm/src/summary.rs:127-188 | ends, gap statistics, spans, channel-quality counts and landing window are those of all samples so far |
| `Summary.FreshIsDerivable` | crates/fd-fdm/src/summary.rs:46-51 | the samples in which a channel carries no annotation are all samples less the annotated ones counted |
| `Summary.SamplesAreConserved` | crates/fd-fdm/src/summary.rs:147-174 | span samples and the truncated count add up to all samples, within the cap |
| `Summary.SpansAreRle` | crates/fd-fdm/src/summary.rs:147-174 | below the cap the spans are the run-length encoding of the phases and nothing is truncated |
| `Summary.RleUnique` | crates/fd-fdm/src/summary.rs:35-44 | samples have one encoding into maximal stretches of one phase |
| `Summary.RleIsRle` | crates/fd-fdm/src/summary.rs:147-174 | extending or opening spans one by one builds that encoding |
| `Summary.SpansPastTheCap` | crates/fd-fdm/src/summary.rs:152-163 | past the cap the last span collects later samples of its phase and all others are counted as truncated |
| `SummaryCap.ContiguousPastTheCapIff` | crates/fd-fdm/src/summary.rs:152-163 | past the cap the last span is one stretch of the recording if and only if no sample of its phase came behind one of another |
| `SummaryCap.SpansAreContiguousIff` | crates/fd-fdm/src/summary.rs:35-44 | for any recording: every span is contiguous exactly when the phase of the last span the cap allows is never left and taken up again |
| `SummaryCap.LastSpanIsTorn` | crates/fd-fdm/src/summary.rs:152-163 | a recording whose last span counts two samples but not the one between them |
| `Summary.GapStep` | crates/fd-fdm/src/summary.rs:136-146 | the largest gap is the largest forward step, and long ones are counted |
| `Summary.GapsInFigures` | crates/fd-fdm/src/summary.rs:136-146 | in figures: no sample comes later behind its neighbour than the largest gap, one comes just so late, and the long gaps are the places of more than five seconds |
| `Summary.QualityInFigures` | crates/fd-fdm/src/summary.rs:176-183 | every quality count is the number of samples so annotated |
| `Summary.WindowIsTheEnd` | crates/fd-fdm/src/summary.rs:176-188 | the landing window is the end of the recording, as much of it as there is room for |
| `Summary.PhaseTimeline` | crates/fd-debrief/src/lib.rs:154-175 | the timeline is the one the run-length encoding tells, each span left when the next is entered |
| `Summary.SummaryMatchesTimeline` | crates/fd-debrief/src/lib.rs:154-175 | below the cap, summary and timeline agree in phase, entry time and count |
| `PlanChange.Classify` | crates/fd-core/src/fplan.rs:335-386 | of a first plan, nothing if it is empty and else a replacement; otherwise a well-formed list, cleared exactly if the last entry went, and the classification the results below characterise |
| `PlanChange.ClassifiedIsWellFormed` | crates/fd-core/src/fplan.rs:335-386 | at most one verdict on the entries, and last; before it the leg, then perhaps the destination; a cleared plan alone; no change twice |
| `PlanChange.WellFormedIsUnique` | crates/fd-core/src/fplan.rs:335-386 | in a well-formed list no change occurs twice, and no two of inserted, removed, replaced and cleared occur |
| `PlanChange.SilentIffEqual` | crates/fd-core/src/fplan.rs:335-386 | with an unchanged destination nothing is reported exactly when the entries are equal |
| `PlanChange.InsertionReported` | crates/fd-core/src/fplan.rs:370-384 | an insertion is reported exactly when one explains the new plan, at the greatest index that does |
| `PlanChange.RemovalReported` | crates/fd-core/src/fplan.rs:348-384 | likewise a removal, save that removing everything is reported as a cleared plan |
| `PlanChange.Duality` | crates/fd-core/src/fplan.rs:348-384 | inserted one way is removed the other way exactly when the shorter plan is not empty |
| `PlanChange.RemovedIsInserted` | crates/fd-core/src/fplan.rs:370-384 | removed one way is inserted the other way |
| `PlanChange.ReplacementReported` | crates/fd-core/src/fplan.rs:339-385 | a replacement is reported exactly for a first plan and for a change no single edit explains |
| `PlanChange.LargerRewriteReplacedIff` | crates/fd-core/src/fplan.rs:370-384 | a plan longer or shorter by more than one entry is a replacement exactly when neither is a beginning of the other |
| `PlanChange.TwoAppendedAreOneInsertion` | crates/fd-core/src/fplan.rs:375 | two entries appended at once are one insertion |
| `PlanChange.DestinationReported` | crates/fd-core/src/fplan.rs:353-369 | a changed destination index is reported with old and new unless the plan was cleared, and the names at the two exactly when they differ |

## Left out

- Machine integers: sequence numbers, ids and counters are unbounded; the panics on overflow (`session.rs:31-35`, `executor.rs:99`) are not modelled.
- Text of error messages and reasons, and the wrapping of a sink's error text when it is reported again by a poisoned runtime.
- The phase engine, the snapshot comparison, great-circle distance and cross-track geometry: arbitrary functions.
- Rounding of floating-point sums; measurements are otherwise IEEE doubles. Flight-plan entries with a coordinate that is not a number, which would differ from themselves.
- JSON itself, UTF-8 split inside a character, and operating-system buffering below a flush: the codecs and the file are text.
- I/O errors of the flight-data recorder; its buffer is assumed to reach the file in order.
- FdrRecorder.StreamedRecorder.RecordEvent: does not show that a full buffer of the standard library is written through early; what a crash then leaves is covered by `FdrRecorder.CrashLosesFew`, which allows for any part of the buffer in the file. The same holds of `RecordSample`.
- Legacy (version 1) flight-data documents, and the choice between them and version 2.
- Mission events of the trace, which the runtime never emits.
- Package validation: unique step ids and acyclic, resolved dependencies are hypotheses where they are needed.
- Gate evidence and gate classification, FDM event counts, runway metrics, debrief assembly, capability reports, mission control, bridges and transports.
- Events handed to the summarizer and the landing window's conversion to a list; the window itself is modelled.
- TraceLog.TraceWriter.Append: no append behind a failed one; the runtime makes none, as `RunOrder.PoisonedRunIsSilent` shows.
- Summary.SessionSummarizer.PushSample: takes a sample's channel annotations as a second argument, and keeps the samples and the annotations as ghost state, which the source does not store.
- Exceedance.FdmAnalyzer.Process: the specification keeps the stream and the answers as ghost state, which the source does not store.
- Summary.PhaseTimeline: takes the samples behind the time stamps as a ghost argument to name their encoding.
