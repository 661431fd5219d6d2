/** The runtime: one tick polls, ingests, evaluates, advances actions, runs the flow, and appends what happened. */
module RuntimeModel {
  import opened Actions
  import opened History
  import opened Executor
  import opened Flow
  import ExecutorLaws
  import FlowLaws

  /** What the phase engine makes of the snapshots it has been given. */
  datatype Assessment = Assessment(phase: string, confidence: string, evidence: string)

  /** Everything fixed when a runtime is built. `diff` and `assess` stand for the snapshot comparison and the
      phase engine: any deterministic functions. */
  datatype Setup = Setup(
    env: Env, catalog: Catalog, deadline: nat, sessionId: nat,
    diff: (Snapshot, Snapshot) -> seq<nat>, assess: seq<Snapshot> -> Assessment)
  {
    function Rules(): Rules {
      Executor.RulesOf(env, catalog, deadline)
    }
  }

  datatype RuntimeError = AdapterError(detail: string) | TraceFailure(detail: string) | Poisoned(detail: string)

  datatype TickStats = TickStats(snapshots: nat, events: nat)

  const PREFLIGHT: string := "Preflight"
  const FLOW_ACTIVE: string := "a flow is already active"
  const NOT_CONNECTED: string := "adapter is not connected"

  datatype PhaseState = PhaseState(seen: seq<Snapshot>, last: string, paused: bool)

  /** The runtime's whole state as a value. */
  datatype Sys = Sys(
    nextSeq: nat, phase: PhaseState, exec: Exec, last: Option<Snapshot>,
    flow: Option<Flow>, outcomes: seq<Outcome>, poisoned: Option<string>, history: History)

  /** A tick under way: events not appended yet wait in the buffer. */
  datatype Mid = Mid(sys: Sys, buffer: seq<TraceEvent>)

  /** The queues and the flow are such that a tick cannot get stuck. */
  predicate Ready(s: Sys) {
    AllInFlight(s.exec.pending) && AllInFlight(s.exec.staged) && (s.flow.Some? ==> Shaped(s.flow.value))
  }

  function NewSys(): (s: Sys)
    ensures Ready(s)
  {
    Sys(0, PhaseState([], PREFLIGHT, false), Exec([], [], [], 0), None, None, [], None, Empty)
  }

  // ---------- ingest and phase ----------

  function Ingest(setup: Setup, last: Option<Snapshot>, snap: Snapshot, source: EventSource): seq<TraceEvent> {
    match last
    case None => []
    case Some(prev) =>
      var changed := setup.diff(prev, snap);
      (if prev.sim != snap.sim then [SimStateChanged(PLACEHOLDER, snap.ms, prev.sim, snap.sim)] else [])
      + (if changed != [] then [StateDelta(PLACEHOLDER, snap.ms, source, changed)] else [])
  }

  predicate ShouldEvaluate(snap: Snapshot, prevPaused: bool) {
    snap.sim.Running? || (snap.sim.UnknownState? && !prevPaused)
  }

  predicate WasPaused(last: Option<Snapshot>) {
    last.Some? && last.value.sim.Paused?
  }

  function PhaseSpec(setup: Setup, p: PhaseState, snap: Snapshot): (PhaseState, seq<TraceEvent>) {
    if snap.sim.Paused? then (p.(paused := true), [])
    else if snap.sim.UnknownState? && p.paused then (p, [])
    else
      var seen := p.seen + [snap];
      var a := setup.assess(seen);
      (PhaseState(seen, a.phase, false),
       if a.phase != p.last then [PhaseChange(PLACEHOLDER, snap.ms, p.last, a.phase, a.confidence, a.evidence)] else [])
  }

  function EvaluateSpec(
      setup: Setup, p: PhaseState, last: Option<Snapshot>, snap: Snapshot): (PhaseState, seq<TraceEvent>) {
    if ShouldEvaluate(snap, WasPaused(last)) then PhaseSpec(setup, p, snap) else (p, [])
  }

  // ---------- the flow inside a tick ----------

  function SopToTrace(e: SopEvent, ts: nat): TraceEvent {
    match e
    case SopStarted(flow) => FlowStarted(PLACEHOLDER, ts, flow)
    case SopReady(flow, step) => StepReady(PLACEHOLDER, ts, flow, step)
    case SopWaiting(flow, step) => StepWaiting(PLACEHOLDER, ts, flow, step)
    case SopRequested(flow, step, action) => StepActionRequested(PLACEHOLDER, ts, flow, step, action)
    case SopVerified(flow, step) => StepVerified(PLACEHOLDER, ts, flow, step)
    case SopFailed(flow, step, cause) => StepFailed(PLACEHOLDER, ts, flow, step, cause)
    case SopFlowCompleted(flow) => FlowCompleted(PLACEHOLDER, ts, flow)
    case SopFlowFailed(flow) => FlowFailed(PLACEHOLDER, ts, flow)
  }

  function SopTrace(events: seq<SopEvent>, ts: nat): seq<TraceEvent> {
    seq(|events|, i requires 0 <= i < |events| => SopToTrace(events[i], ts))
  }

  /** One flow request staged through the same two-phase submit as any other action. */
  function StageRequest(m: Mid, r: StepRequest, ts: nat): (n: Mid)
    requires Ready(m.sys) && m.sys.flow.Some?
    ensures Ready(n.sys) && n.sys.flow.Some?
  {
    var s := m.sys;
    var id := s.exec.nextId;
    Mid(s.(nextSeq := s.nextSeq + 1,
           exec := Executor.SubmitSpec(s.exec, r.action, RuntimeActor, ts),
           flow := Some(AssignSpec(s.flow.value, r.stepId, id))),
        m.buffer + [ActionRequested(s.nextSeq, ts, r.action, RuntimeActor, id)])
  }

  function StageRequests(m: Mid, requests: seq<StepRequest>, ts: nat): (n: Mid)
    requires Ready(m.sys) && m.sys.flow.Some?
    ensures Ready(n.sys) && n.sys.flow.Some?
  {
    if requests == [] then m
    else StageRequest(StageRequests(m, requests[..|requests| - 1], ts), requests[|requests| - 1], ts)
  }

  /** Outcomes of earlier ticks first, then one pass; its requests are still to be staged. */
  function Processed(m: Mid, snap: Snapshot): (r: (Mid, seq<StepRequest>))
    requires Ready(m.sys) && m.sys.flow.Some?
    ensures Ready(r.0.sys) && r.0.sys.flow.Some?
  {
    var f := m.sys.flow.value;
    FlowLaws.ApplyShaped(f, FlowLaws.ReportOp(m.sys.outcomes));
    var (f1, reported) := ReportSpec(f, m.sys.outcomes);
    FlowLaws.ApplyShaped(f1, FlowLaws.ProcessOp(snap));
    var (f2, processed, requests) := ProcessSpec(f1, snap);
    (Mid(m.sys.(flow := Some(f2)), m.buffer + SopTrace(reported + processed, snap.ms)), requests)
  }

  function FlowSpec(m: Mid, snap: Snapshot): (n: Mid)
    requires Ready(m.sys)
    ensures Ready(n.sys)
  {
    if m.sys.flow.None? then m
    else
      var (n, requests) := Processed(m, snap);
      StageRequests(n, requests, snap.ms)
  }

  // ---------- one snapshot, one tick ----------

  function ActionSpec(setup: Setup, m: Mid, snap: Snapshot): (n: Mid)
    requires Ready(m.sys)
    ensures Ready(n.sys)
  {
    ExecutorLaws.SurvivorsAreDispatched(setup.Rules(), m.sys.exec.pending, snap, m.sys.history);
    var (exec, events, history) := AdvanceSpec(setup.Rules(), m.sys.exec, snap, m.sys.history);
    Mid(m.sys.(exec := exec, history := history), m.buffer + events)
  }

  function ObserveSpec(setup: Setup, m: Mid, snap: Snapshot, source: EventSource): (n: Mid)
    requires Ready(m.sys)
    ensures Ready(n.sys)
  {
    var (phase, changes) := EvaluateSpec(setup, m.sys.phase, m.sys.last, snap);
    Mid(m.sys.(phase := phase), m.buffer + Ingest(setup, m.sys.last, snap, source) + changes)
  }

  function SnapshotSpec(setup: Setup, m: Mid, snap: Snapshot, source: EventSource): (n: Mid)
    requires Ready(m.sys)
    ensures Ready(n.sys)
  {
    var n := FlowSpec(ActionSpec(setup, ObserveSpec(setup, m, snap, source), snap), snap);
    n.(sys := n.sys.(last := Some(snap)))
  }

  function SnapshotsSpec(setup: Setup, m: Mid, snaps: seq<Snapshot>, source: EventSource): (n: Mid)
    requires Ready(m.sys)
    ensures Ready(n.sys)
  {
    if snaps == [] then m
    else SnapshotSpec(setup, SnapshotsSpec(setup, m, snaps[..|snaps| - 1], source), snaps[|snaps| - 1], source)
  }

  /** One event stamped and appended; a failure poisons. */
  function AppendOne(setup: Setup, s: Sys, event: TraceEvent): (t: Sys)
    ensures Ready(s) ==> Ready(t)
  {
    var (error, h) := AppendSpec(setup.env, s.history, event.WithSeq(s.nextSeq));
    s.(nextSeq := s.nextSeq + 1, history := h, poisoned := error)
  }

  /** Buffered events in order, until the first failure. */
  function AppendAll(setup: Setup, s: Sys, events: seq<TraceEvent>): (t: Sys)
    ensures Ready(s) ==> Ready(t)
    decreases |events|
  {
    if events == [] || s.poisoned.Some? then s
    else AppendAll(setup, AppendOne(setup, s, events[0]), events[1..])
  }

  lemma AllInFlightConcat(a: Queue, b: Queue)
    requires AllInFlight(a) && AllInFlight(b)
    ensures AllInFlight(a + b)
  {
  }

  /** The trace holds the whole tick: staged requests go live and outcomes are drained for the next tick. */
  function SettleSpec(s: Sys): (t: Sys)
    requires Ready(s)
    ensures Ready(t)
  {
    AllInFlightConcat(s.exec.pending, s.exec.staged);
    var exec := CommitSpec(s.exec);
    if s.flow.Some? then s.(exec := exec.(completed := []), outcomes := exec.completed) else s.(exec := exec)
  }

  function TickBody(setup: Setup, s: Sys, snaps: seq<Snapshot>, source: EventSource): (t: Sys)
    requires Ready(s) && s.poisoned.None?
    ensures Ready(t)
  {
    var m := SnapshotsSpec(setup, Mid(s, []), snaps, source);
    var a := AppendAll(setup, m.sys, m.buffer);
    if a.poisoned.Some? then a else SettleSpec(a)
  }

  // ---------- the calls ----------

  function TickSpec(setup: Setup, s: Sys, source: EventSource): (t: Sys)
    requires Ready(s)
    ensures Ready(t)
  {
    if s.poisoned.Some? || !setup.env.connected(s.history) then s
    else
      var answer := setup.env.poll(s.history);
      var polled := s.(history := After(s.history, Polled(answer)));
      match answer
      case Err(_) => polled
      case Ok(snaps) => TickBody(setup, polled, snaps, source)
  }

  function StartSpec(setup: Setup, s: Sys): (t: Sys)
    ensures Ready(s) ==> Ready(t)
  {
    if s.poisoned.Some? then s
    else
      var problem := setup.env.connect(s.history);
      var c := s.(history := After(s.history, Connected(problem)));
      if problem.Some? then c else AppendOne(setup, c, SessionStart(PLACEHOLDER, setup.sessionId))
  }

  function StartFlowSpec(s: Sys, def: FlowDef): (t: Sys)
    ensures Ready(s) ==> Ready(t)
  {
    if s.poisoned.Some? || s.flow.Some? then s else s.(flow := Some(NewFlow(def)))
  }

  function SubmitActionSpec(setup: Setup, s: Sys, action: CockpitAction, actor: Actor, at: nat): (t: Sys)
    requires Ready(s)
    ensures Ready(t)
  {
    if s.poisoned.Some? then s
    else
      var exec := Executor.SubmitSpec(s.exec, action, actor, at);
      var a := AppendOne(setup, s.(exec := exec), ActionRequested(PLACEHOLDER, at, action, actor, s.exec.nextId));
      AllInFlightConcat(a.exec.pending, a.exec.staged);
      if a.poisoned.Some? then a else a.(exec := CommitSpec(a.exec))
  }

  function TakeSpec(s: Sys): (t: Sys)
    ensures Ready(s) ==> Ready(t)
  {
    s.(exec := s.exec.(completed := []))
  }

  function FinishSpec(setup: Setup, s: Sys): (t: Sys)
    ensures Ready(s) ==> Ready(t)
  {
    if s.poisoned.Some? then s
    else
      var a := AppendOne(setup, s, SessionEnd(PLACEHOLDER));
      if a.poisoned.Some? then a else a.(history := After(a.history, Closed(setup.env.close(a.history))))
  }

  // ---------- what the calls answer ----------

  function StartAnswer(setup: Setup, s: Sys): Result<(), RuntimeError> {
    var problem := setup.env.connect(s.history);
    var t := StartSpec(setup, s);
    if s.poisoned.Some? then Err(Poisoned(s.poisoned.value))
    else if problem.Some? then Err(AdapterError(problem.value))
    else if t.poisoned.Some? then Err(TraceFailure(t.poisoned.value))
    else Ok(())
  }

  function StartFlowAnswer(s: Sys): Result<(), RuntimeError> {
    if s.poisoned.Some? then Err(Poisoned(s.poisoned.value))
    else if s.flow.Some? then Err(Poisoned(FLOW_ACTIVE))
    else Ok(())
  }

  function SubmitAnswer(
      setup: Setup, s: Sys, action: CockpitAction, actor: Actor, at: nat): Result<ActionId, RuntimeError>
    requires Ready(s)
  {
    var t := SubmitActionSpec(setup, s, action, actor, at);
    if s.poisoned.Some? then Err(Poisoned(s.poisoned.value))
    else if t.poisoned.Some? then Err(TraceFailure(t.poisoned.value))
    else Ok(s.exec.nextId)
  }

  function Growth(before: seq<TraceEvent>, after: seq<TraceEvent>): nat {
    if |before| <= |after| then |after| - |before| else 0
  }

  /** A successful tick counts the snapshots it was given and the events it put into the trace. */
  function TickAnswer(setup: Setup, s: Sys, source: EventSource): Result<TickStats, RuntimeError>
    requires Ready(s)
  {
    var t := TickSpec(setup, s, source);
    if s.poisoned.Some? then Err(Poisoned(s.poisoned.value))
    else if !setup.env.connected(s.history) then Err(AdapterError(NOT_CONNECTED))
    else match setup.env.poll(s.history)
      case Err(detail) => Err(AdapterError(detail))
      case Ok(snaps) =>
        if t.poisoned.Some? then Err(TraceFailure(t.poisoned.value))
        else Ok(TickStats(|snaps|, Growth(Trace(s.history), Trace(t.history))))
  }

  function FinishAnswer(setup: Setup, s: Sys): Result<(), RuntimeError> {
    var a := AppendOne(setup, s, SessionEnd(PLACEHOLDER));
    if s.poisoned.Some? then Err(Poisoned(s.poisoned.value))
    else if a.poisoned.Some? then Err(TraceFailure(a.poisoned.value))
    else match setup.env.close(a.history)
      case Some(problem) => Err(TraceFailure(problem))
      case None => Ok(())
  }

  datatype Call =
    | StartCall
    | StartFlowCall(def: FlowDef)
    | SubmitCall(action: CockpitAction, actor: Actor, at: nat)
    | TickCall(source: EventSource)
    | TakeCall
    | FinishCall

  function Do(setup: Setup, s: Sys, call: Call): (t: Sys)
    requires Ready(s)
    ensures Ready(t)
  {
    match call
    case StartCall => StartSpec(setup, s)
    case StartFlowCall(def) => StartFlowSpec(s, def)
    case SubmitCall(action, actor, at) => SubmitActionSpec(setup, s, action, actor, at)
    case TickCall(source) => TickSpec(setup, s, source)
    case TakeCall => TakeSpec(s)
    case FinishCall => FinishSpec(setup, s)
  }

  /** The state after a list of calls on a new runtime. */
  function Run(setup: Setup, calls: seq<Call>): (s: Sys)
    ensures Ready(s)
  {
    if calls == [] then NewSys() else Do(setup, Run(setup, calls[..|calls| - 1]), calls[|calls| - 1])
  }
}
