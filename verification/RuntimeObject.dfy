/** The runtime as an object over its session, phase tracker, executor, flow engine and outside world. */
module RuntimeObject {
  import opened Actions
  import opened History
  import opened Executor
  import opened Flow
  import opened RuntimeModel
  import ExecutorLaws
  import FlowLaws
  import RunOrder

  /** The sequence counter: the only ordering mechanism of a session. */
  class Session {
    const id: nat
    var nextSeq: nat

    constructor (id: nat)
      ensures this.id == id && nextSeq == 0
    {
      this.id := id;
      nextSeq := 0;
    }

    method NextSeq() returns (n: nat)
      modifies this
      ensures n == old(nextSeq) && nextSeq == n + 1
    {
      n := nextSeq;
      nextSeq := nextSeq + 1;
    }
  }

  /** Feeds the phase engine, but not while paused nor while the state is unknown after a pause. */
  class PhaseTracker {
    var seen: seq<Snapshot>
    var last: string
    var paused: bool

    ghost function State(): PhaseState
      reads this
    {
      PhaseState(seen, last, paused)
    }

    constructor ()
      ensures State() == PhaseState([], PREFLIGHT, false)
    {
      seen, last, paused := [], PREFLIGHT, false;
    }

    method Process(setup: Setup, snap: Snapshot) returns (events: seq<TraceEvent>)
      modifies this
      ensures (State(), events) == PhaseSpec(setup, old(State()), snap)
    {
      events := [];
      if snap.sim.Paused? {
        paused := true;
        return;
      }
      if snap.sim.UnknownState? && paused {
        return;
      }
      paused := false;
      seen := seen + [snap];
      var a := setup.assess(seen);
      if a.phase != last {
        events := [PhaseChange(PLACEHOLDER, snap.ms, last, a.phase, a.confidence, a.evidence)];
        last := a.phase;
      }
    }
  }

  class Runtime {
    const setup: Setup
    const outside: Outside
    const session: Session
    const phase: PhaseTracker
    const executor: ActionExecutor
    var last: Option<Snapshot>
    var flows: FlowEngine?
    var flowOutcomes: seq<Outcome>
    var poisoned: Option<string>

    ghost function State(): Sys
      reads this, outside, session, phase, executor, flows
    {
      Sys(session.nextSeq, phase.State(), executor.State(), last,
          if flows == null then None else Some(flows.State()), flowOutcomes, poisoned, outside.history)
    }

    ghost predicate Valid()
      reads this, outside, session, phase, executor, flows
    {
      && outside.env == setup.env && executor.deadline == setup.deadline && session.id == setup.sessionId
      && Ready(State())
    }

    constructor (setup: Setup)
      ensures Valid() && State() == NewSys() && this.setup == setup
      ensures fresh(outside) && fresh(session) && fresh(phase) && fresh(executor)
    {
      this.setup := setup;
      outside := new Outside(setup.env);
      session := new Session(setup.sessionId);
      phase := new PhaseTracker();
      executor := new ActionExecutor(setup.deadline);
      last, flows, flowOutcomes, poisoned := None, null, [], None;
    }

    /** Stamps one event and appends it; the first failure poisons the runtime. */
    method Append(event: TraceEvent) returns (error: Option<string>)
      requires Valid() && poisoned.None?
      modifies this`poisoned, outside, session
      ensures Valid() && State() == AppendOne(setup, old(State()), event) && error == poisoned
    {
      var seqNo := session.NextSeq();
      error := outside.Append(event.WithSeq(seqNo));
      poisoned := error;
    }

    method Start() returns (result: Result<(), RuntimeError>)
      requires Valid()
      modifies this`poisoned, outside, session
      ensures Valid() && State() == StartSpec(setup, old(State()))
      ensures result == StartAnswer(setup, old(State()))
    {
      if poisoned.Some? {
        return Err(Poisoned(poisoned.value));
      }
      var problem := outside.Connect();
      if problem.Some? {
        return Err(AdapterError(problem.value));
      }
      var error := Append(SessionStart(PLACEHOLDER, session.id));
      result := if error.Some? then Err(TraceFailure(error.value)) else Ok(());
    }

    method StartFlow(def: FlowDef) returns (result: Result<(), RuntimeError>)
      requires Valid()
      modifies this`flows
      ensures Valid() && State() == StartFlowSpec(old(State()), def)
      ensures result == StartFlowAnswer(old(State()))
    {
      if poisoned.Some? {
        return Err(Poisoned(poisoned.value));
      }
      if flows != null {
        return Err(Poisoned(FLOW_ACTIVE));
      }
      flows := new FlowEngine(def);
      result := Ok(());
    }

    method SubmitAction(action: CockpitAction, actor: Actor, at: nat) returns (result: Result<ActionId, RuntimeError>)
      requires Valid()
      modifies this`poisoned, outside, session, executor
      ensures Valid() && State() == SubmitActionSpec(setup, old(State()), action, actor, at)
      ensures result == SubmitAnswer(setup, old(State()), action, actor, at)
    {
      if poisoned.Some? {
        return Err(Poisoned(poisoned.value));
      }
      var id, event := executor.Submit(action, actor, at, PLACEHOLDER);
      var error := Append(event);
      if error.Some? {
        return Err(TraceFailure(error.value));
      }
      executor.Commit();
      result := Ok(id);
    }

    /** Ingest and phase evaluation of one snapshot. */
    method Observe(snap: Snapshot, source: EventSource, buffer: seq<TraceEvent>) returns (events: seq<TraceEvent>)
      requires Valid()
      modifies phase
      ensures Valid() && Mid(State(), events) == ObserveSpec(setup, Mid(old(State()), buffer), snap, source)
    {
      events := buffer + Ingest(setup, last, snap, source);
      if ShouldEvaluate(snap, WasPaused(last)) {
        var changes := phase.Process(setup, snap);
        events := events + changes;
      } else {
        assert events + [] == events;
      }
    }

    /** The action pipeline on one snapshot. */
    method AdvanceActions(snap: Snapshot, buffer: seq<TraceEvent>) returns (events: seq<TraceEvent>)
      requires Valid()
      modifies executor, outside
      ensures Valid() && Mid(State(), events) == ActionSpec(setup, Mid(old(State()), buffer), snap)
    {
      ghost var m := ActionSpec(setup, Mid(State(), buffer), snap);
      var more := executor.Advance(setup.catalog, outside, snap);
      events := buffer + more;
      assert Mid(State(), events) == m;
    }

    /** Stages one request of a flow pass and hands its id back to the flow. */
    method StageOne(request: StepRequest, ts: nat, buffer: seq<TraceEvent>) returns (events: seq<TraceEvent>)
      requires Valid() && flows != null
      modifies session, executor, flows
      ensures Valid() && Mid(State(), events) == StageRequest(Mid(old(State()), buffer), request, ts)
    {
      var seqNo := session.NextSeq();
      var id, event := executor.Submit(request.action, RuntimeActor, ts, seqNo);
      flows.AssignActionId(request.stepId, id);
      events := buffer + [event];
    }

    /** Stages all of them, in order. */
    method Stage(requests: seq<StepRequest>, ts: nat, buffer: seq<TraceEvent>) returns (events: seq<TraceEvent>)
      requires Valid() && flows != null
      modifies session, executor, flows
      ensures Valid() && Mid(State(), events) == StageRequests(Mid(old(State()), buffer), requests, ts)
    {
      events := buffer;
      for k := 0 to |requests|
        invariant Valid() && Mid(State(), events) == StageRequests(Mid(old(State()), buffer), requests[..k], ts)
      {
        assert requests[..k + 1][..k] == requests[..k];
        events := StageOne(requests[k], ts, events);
      }
      assert requests[..|requests|] == requests;
    }

    /** The flow on one snapshot: earlier outcomes, then a pass, then its requests. */
    method RunFlow(snap: Snapshot, buffer: seq<TraceEvent>) returns (events: seq<TraceEvent>)
      requires Valid()
      modifies session, executor, flows
      ensures Valid() && Mid(State(), events) == FlowSpec(Mid(old(State()), buffer), snap)
    {
      events := buffer;
      if flows != null {
        FlowLaws.ApplyShaped(flows.State(), FlowLaws.ReportOp(flowOutcomes));
        var reported := flows.ReportOutcomes(flowOutcomes);
        FlowLaws.ApplyShaped(flows.State(), FlowLaws.ProcessOp(snap));
        var processed, requests := flows.Process(snap);
        events := Stage(requests, snap.ms, buffer + SopTrace(reported + processed, snap.ms));
      }
    }

    method OnSnapshot(snap: Snapshot, source: EventSource, buffer: seq<TraceEvent>) returns (events: seq<TraceEvent>)
      requires Valid()
      modifies this`last, phase, executor, outside, session, flows
      ensures Valid() && Mid(State(), events) == SnapshotSpec(setup, Mid(old(State()), buffer), snap, source)
    {
      events := Observe(snap, source, buffer);
      events := AdvanceActions(snap, events);
      events := RunFlow(snap, events);
      last := Some(snap);
    }

    /** All snapshots of one poll, their events buffered. */
    method OnSnapshots(snaps: seq<Snapshot>, source: EventSource) returns (buffer: seq<TraceEvent>)
      requires Valid()
      modifies this`last, phase, executor, outside, session, flows
      ensures Valid() && Mid(State(), buffer) == SnapshotsSpec(setup, Mid(old(State()), []), snaps, source)
    {
      buffer := [];
      for k := 0 to |snaps|
        invariant Valid()
        invariant Mid(State(), buffer) == SnapshotsSpec(setup, Mid(old(State()), []), snaps[..k], source)
      {
        assert snaps[..k + 1][..k] == snaps[..k];
        buffer := OnSnapshot(snaps[k], source, buffer);
      }
      assert snaps[..|snaps|] == snaps;
    }

    /** Appends the buffered events until one fails. */
    method Flush(buffer: seq<TraceEvent>) returns (appended: nat)
      requires Valid() && poisoned.None?
      modifies this`poisoned, outside, session
      ensures Valid() && State() == AppendAll(setup, old(State()), buffer)
      ensures poisoned.None? ==> appended == |buffer|
    {
      appended := 0;
      while appended < |buffer|
        invariant Valid() && poisoned.None? && appended <= |buffer|
        invariant AppendAll(setup, State(), buffer[appended..]) == AppendAll(setup, old(State()), buffer)
      {
        assert buffer[appended..][1..] == buffer[appended + 1..];
        var error := Append(buffer[appended]);
        if error.Some? {
          return;
        }
        appended := appended + 1;
      }
    }

    /** The part of a tick after a successful poll. */
    method Work(snaps: seq<Snapshot>, source: EventSource) returns (result: Result<TickStats, RuntimeError>)
      requires Valid() && poisoned.None?
      modifies this`last, this`flowOutcomes, this`poisoned, outside, session, phase, executor, flows
      ensures Valid() && State() == TickBody(setup, old(State()), snaps, source)
      ensures result == if poisoned.Some? then Err(TraceFailure(poisoned.value))
                        else Ok(TickStats(|snaps|, Growth(Trace(old(outside.history)), Trace(outside.history))))
    {
      ghost var s := State();
      var buffer := OnSnapshots(snaps, source);
      var appended := Flush(buffer);
      if poisoned.Some? {
        return Err(TraceFailure(poisoned.value));
      }
      Settle();
      RunOrder.TickCounts(setup, s, snaps, source);
      result := Ok(TickStats(|snaps|, appended));
    }

    method Tick(source: EventSource) returns (result: Result<TickStats, RuntimeError>)
      requires Valid()
      modifies this`last, this`flowOutcomes, this`poisoned, outside, session, phase, executor, flows
      ensures Valid() && State() == TickSpec(setup, old(State()), source)
      ensures result == TickAnswer(setup, old(State()), source)
    {
      if poisoned.Some? {
        return Err(Poisoned(poisoned.value));
      }
      if !setup.env.connected(outside.history) {
        return Err(AdapterError(NOT_CONNECTED));
      }
      var answer := outside.Poll();
      if answer.Err? {
        return Err(AdapterError(answer.error));
      }
      result := Work(answer.value, source);
    }

    /** Staged requests go live; with a flow the outcomes are drained for the next tick. */
    method Settle()
      requires Valid()
      modifies this`flowOutcomes, executor
      ensures Valid() && State() == SettleSpec(old(State()))
    {
      executor.Commit();
      if flows != null {
        flowOutcomes := executor.TakeCompleted();
      }
    }

    method TakeCompletedActions() returns (taken: seq<Outcome>)
      requires Valid()
      modifies executor
      ensures Valid() && State() == TakeSpec(old(State())) && taken == old(executor.completed)
    {
      taken := executor.TakeCompleted();
    }

    method Finish() returns (result: Result<(), RuntimeError>)
      requires Valid()
      modifies this`poisoned, outside, session
      ensures Valid() && State() == FinishSpec(setup, old(State()))
      ensures result == FinishAnswer(setup, old(State()))
    {
      if poisoned.Some? {
        return Err(Poisoned(poisoned.value));
      }
      var error := Append(SessionEnd(PLACEHOLDER));
      if error.Some? {
        return Err(TraceFailure(error.value));
      }
      var problem := outside.Close();
      result := if problem.Some? then Err(TraceFailure(problem.value)) else Ok(());
    }
  }
}
