/** The flow engine: a dependency graph of steps driven by snapshots and by action outcomes. */
module Flow {
  import opened Actions

  datatype TriBool = Yes | No | Unsure

  datatype StepKind = Observe(condition: Snapshot -> TriBool) | Act(action: CockpitAction)

  datatype StepDef = StepDef(id: string, dependsOn: seq<string>, kind: StepKind)

  datatype FlowDef = FlowDef(id: string, steps: seq<StepDef>)

  datatype StepStatus = PendingStep | ReadyStep | WaitingStep | VerifiedStep | FailedStep | AbortedStep

  datatype FlowStatus = NotStarted | RunningFlow | CompletedFlow | FailedFlow

  datatype StepState = StepState(status: StepStatus, actionId: Option<ActionId>, waitingEmitted: bool)

  datatype SopEvent =
    | SopStarted(flow: string)
    | SopReady(flow: string, step: string)
    | SopWaiting(flow: string, step: string)
    | SopRequested(flow: string, step: string, action: CockpitAction)
    | SopVerified(flow: string, step: string)
    | SopFailed(flow: string, step: string, cause: ActionStatus)
    | SopFlowCompleted(flow: string)
    | SopFlowFailed(flow: string)

  datatype StepRequest = StepRequest(stepId: string, action: CockpitAction)

  /** The engine's whole state as a value. */
  datatype Flow = Flow(def: FlowDef, steps: seq<StepState>, status: FlowStatus, started: bool)

  predicate Shaped(f: Flow) {
    |f.steps| == |f.def.steps|
  }

  function NewFlow(def: FlowDef): (f: Flow)
    ensures Shaped(f)
  {
    Flow(def, seq(|def.steps|, i => StepState(PendingStep, None, false)), NotStarted, false)
  }

  /** Index of the first step with this id. */
  function Position(steps: seq<StepDef>, id: string): (p: Option<nat>)
    ensures p.Some? ==> p.value < |steps| && steps[p.value].id == id
    ensures p.None? ==> forall i :: 0 <= i < |steps| ==> steps[i].id != id
  {
    if steps == [] then None
    else if steps[0].id == id then Some(0)
    else match Position(steps[1..], id)
      case None => None
      case Some(k) => Some(k + 1)
  }

  predicate IsVerified(f: Flow, i: nat) {
    i < |f.steps| && f.steps[i].status.VerifiedStep?
  }

  predicate DepsOk(f: Flow, i: nat)
    requires Shaped(f) && i < |f.steps|
  {
    forall d :: d in f.def.steps[i].dependsOn ==>
      var p := Position(f.def.steps, d);
      p.Some? && IsVerified(f, p.value)
  }

  function AssignSpec(f: Flow, stepId: string, id: ActionId): (g: Flow)
    requires Shaped(f)
    ensures Shaped(g)
  {
    match Position(f.def.steps, stepId)
    case None => f
    case Some(i) => f.(steps := f.steps[i := f.steps[i].(actionId := Some(id))])
  }

  // ---------- outcomes ----------

  /** One step against one outcome. */
  function ReportStep(flow: string, d: StepDef, st: StepState, o: Outcome): (StepState, seq<SopEvent>) {
    if st.actionId == Some(o.id) && st.status.WaitingStep? then
      if o.status.Verified? then (st.(status := VerifiedStep), [SopVerified(flow, d.id)])
      else if o.status.Failed? || o.status.Rejected? || o.status.TimedOut? then
        (st.(status := FailedStep), [SopFailed(flow, d.id, o.status)])
      else (st, [])
    else (st, [])
  }

  function ReportSteps(f: Flow, o: Outcome): (g: Flow)
    requires Shaped(f)
    ensures Shaped(g)
  {
    f.(steps := seq(|f.steps|, i requires 0 <= i < |f.steps| => ReportStep(f.def.id, f.def.steps[i], f.steps[i], o).0))
  }

  function ReportEvents(f: Flow, o: Outcome, k: nat): seq<SopEvent>
    requires Shaped(f) && k <= |f.steps|
  {
    if k == 0 then []
    else ReportEvents(f, o, k - 1) + ReportStep(f.def.id, f.def.steps[k - 1], f.steps[k - 1], o).1
  }

  function ReportAll(f: Flow, outcomes: seq<Outcome>): (r: (Flow, seq<SopEvent>))
    requires Shaped(f)
    ensures Shaped(r.0) && r.0.def == f.def && r.0.status == f.status && r.0.started == f.started
  {
    if outcomes == [] then (f, [])
    else
      var n := |outcomes| - 1;
      var (g, events) := ReportAll(f, outcomes[..n]);
      (ReportSteps(g, outcomes[n]), events + ReportEvents(g, outcomes[n], |g.steps|))
  }

  function AbortStep(st: StepState): StepState {
    if st.status.FailedStep? || st.status.VerifiedStep? || st.status.AbortedStep? then st
    else st.(status := AbortedStep)
  }

  function Recheck(f: Flow): (Flow, seq<SopEvent>) {
    if !f.status.RunningFlow? then (f, [])
    else if exists i :: 0 <= i < |f.steps| && f.steps[i].status.FailedStep? then
      (f.(status := FailedFlow, steps := seq(|f.steps|, i requires 0 <= i < |f.steps| => AbortStep(f.steps[i]))),
       [SopFlowFailed(f.def.id)])
    else if forall i :: 0 <= i < |f.steps| ==> f.steps[i].status.VerifiedStep? then
      (f.(status := CompletedFlow), [SopFlowCompleted(f.def.id)])
    else (f, [])
  }

  function ReportSpec(f: Flow, outcomes: seq<Outcome>): (Flow, seq<SopEvent>)
    requires Shaped(f)
  {
    var (g, events) := ReportAll(f, outcomes);
    var (h, more) := Recheck(g);
    (h, events + more)
  }

  // ---------- one pass ----------

  datatype StepPass = StepPass(st: StepState, events: seq<SopEvent>, requests: seq<StepRequest>)

  /** A step that is ready acts: an observe step checks its condition, an action step asks for its action once. */
  function ActStep(flow: string, d: StepDef, st: StepState, snap: Snapshot): StepPass {
    match d.kind
    case Observe(condition) =>
      if condition(snap).Yes? then StepPass(st.(status := VerifiedStep), [SopVerified(flow, d.id)], [])
      else if !st.waitingEmitted then StepPass(st.(waitingEmitted := true), [SopWaiting(flow, d.id)], [])
      else StepPass(st, [], [])
    case Act(action) =>
      StepPass(st.(status := WaitingStep), [SopRequested(flow, d.id, action)], [StepRequest(d.id, action)])
  }

  function ProcessStep(flow: string, d: StepDef, st: StepState, depsOk: bool, snap: Snapshot): StepPass {
    if st.status.PendingStep? then
      if !depsOk then StepPass(st, [], [])
      else
        var a := ActStep(flow, d, st.(status := ReadyStep), snap);
        StepPass(a.st, [SopReady(flow, d.id)] + a.events, a.requests)
    else if st.status.ReadyStep? then ActStep(flow, d, st, snap)
    else StepPass(st, [], [])
  }

  function PassAt(f: Flow, snap: Snapshot, i: nat): StepPass
    requires Shaped(f) && i < |f.steps|
  {
    ProcessStep(f.def.id, f.def.steps[i], f.steps[i], DepsOk(f, i), snap)
  }

  function PassSteps(f: Flow, snap: Snapshot): (g: Flow)
    requires Shaped(f)
    ensures Shaped(g)
  {
    f.(steps := seq(|f.steps|, i requires 0 <= i < |f.steps| => PassAt(f, snap, i).st))
  }

  function PassEvents(f: Flow, snap: Snapshot, k: nat): seq<SopEvent>
    requires Shaped(f) && k <= |f.steps|
  {
    if k == 0 then [] else PassEvents(f, snap, k - 1) + PassAt(f, snap, k - 1).events
  }

  function PassRequests(f: Flow, snap: Snapshot, k: nat): seq<StepRequest>
    requires Shaped(f) && k <= |f.steps|
  {
    if k == 0 then [] else PassRequests(f, snap, k - 1) + PassAt(f, snap, k - 1).requests
  }

  function Begin(f: Flow): Flow {
    if f.started then f else f.(started := true, status := RunningFlow)
  }

  function ProcessSpec(f: Flow, snap: Snapshot): (Flow, seq<SopEvent>, seq<StepRequest>)
    requires Shaped(f)
  {
    if f.status.FailedFlow? || f.status.CompletedFlow? then (f, [], [])
    else
      var opening := if f.started then [] else [SopStarted(f.def.id)];
      var b := Begin(f);
      var (g, closing) := Recheck(PassSteps(b, snap));
      (g, opening + PassEvents(b, snap, |b.steps|) + closing, PassRequests(b, snap, |b.steps|))
  }

  // ---------- the engine ----------

  class FlowEngine {
    const def: FlowDef
    var steps: seq<StepState>
    var status: FlowStatus
    var started: bool

    ghost function State(): Flow
      reads this
    {
      Flow(def, steps, status, started)
    }

    constructor (def: FlowDef)
      ensures this.def == def && State() == NewFlow(def)
    {
      this.def := def;
      steps := seq(|def.steps|, i => StepState(PendingStep, None, false));
      status, started := NotStarted, false;
    }

    method AssignActionId(stepId: string, id: ActionId)
      requires Shaped(State())
      modifies this
      ensures State() == AssignSpec(old(State()), stepId, id)
    {
      var p := Position(def.steps, stepId);
      if p.Some? {
        steps := steps[p.value := steps[p.value].(actionId := Some(id))];
      }
    }

    method ReportOutcome(o: Outcome) returns (events: seq<SopEvent>)
      requires Shaped(State())
      modifies this
      ensures State() == ReportSteps(old(State()), o)
      ensures events == ReportEvents(old(State()), o, |steps|)
    {
      ghost var f := State();
      events := [];
      for idx := 0 to |steps|
        invariant |steps| == |f.steps| && status == f.status && started == f.started
        invariant forall j :: 0 <= j < idx ==> steps[j] == ReportStep(def.id, def.steps[j], f.steps[j], o).0
        invariant forall j :: idx <= j < |steps| ==> steps[j] == f.steps[j]
        invariant events == ReportEvents(f, o, idx)
      {
        var (st, more) := ReportStep(def.id, def.steps[idx], steps[idx], o);
        steps := steps[idx := st];
        events := events + more;
      }
      assert steps == ReportSteps(f, o).steps;
    }

    method ReportOutcomes(outcomes: seq<Outcome>) returns (events: seq<SopEvent>)
      requires Shaped(State())
      modifies this
      ensures (State(), events) == ReportSpec(old(State()), outcomes)
    {
      events := [];
      for k := 0 to |outcomes|
        invariant Shaped(State())
        invariant (State(), events) == ReportAll(old(State()), outcomes[..k])
      {
        var o := outcomes[k];
        assert outcomes[..k + 1][..k] == outcomes[..k] && outcomes[..k + 1][k] == o;
        var more := ReportOutcome(o);
        events := events + more;
      }
      assert outcomes[..|outcomes|] == outcomes;
      var closing := RecheckFlowCompletion();
      events := events + closing;
    }

    /** Every step once, against the statuses at the start of the pass. */
    method RunSteps(snap: Snapshot) returns (events: seq<SopEvent>, requests: seq<StepRequest>)
      requires Shaped(State())
      modifies this
      ensures State() == PassSteps(old(State()), snap)
      ensures events == PassEvents(old(State()), snap, |steps|)
      ensures requests == PassRequests(old(State()), snap, |steps|)
    {
      ghost var b := State();
      events, requests := [], [];
      var verified := seq(|steps|, i requires 0 <= i < |steps| reads this => steps[i].status.VerifiedStep?);
      for idx := 0 to |def.steps|
        invariant |steps| == |b.steps| && status == b.status && started == b.started
        invariant forall j :: 0 <= j < idx ==> steps[j] == PassAt(b, snap, j).st
        invariant forall j :: idx <= j < |steps| ==> steps[j] == b.steps[j]
        invariant events == PassEvents(b, snap, idx)
        invariant requests == PassRequests(b, snap, idx)
      {
        var d := def.steps[idx];
        var depsOk := forall x :: x in d.dependsOn ==>
          var p := Position(def.steps, x);
          p.Some? && verified[p.value];
        assert depsOk == DepsOk(b, idx);
        var p := ProcessStep(def.id, d, steps[idx], depsOk, snap);
        steps := steps[idx := p.st];
        events := events + p.events;
        requests := requests + p.requests;
      }
      assert steps == PassSteps(b, snap).steps;
    }

    method Process(snap: Snapshot) returns (events: seq<SopEvent>, requests: seq<StepRequest>)
      requires Shaped(State())
      modifies this
      ensures (State(), events, requests) == ProcessSpec(old(State()), snap)
    {
      if status.FailedFlow? || status.CompletedFlow? {
        return [], [];
      }
      events := [];
      if !started {
        started, status := true, RunningFlow;
        events := [SopStarted(def.id)];
      }
      assert State() == Begin(old(State()));
      var more, wanted := RunSteps(snap);
      var closing := RecheckFlowCompletion();
      events := events + more + closing;
      requests := wanted;
    }

    method RecheckFlowCompletion() returns (events: seq<SopEvent>)
      modifies this
      ensures (State(), events) == Recheck(old(State()))
    {
      events := [];
      if !status.RunningFlow? {
        return;
      }
      if exists i :: 0 <= i < |steps| && steps[i].status.FailedStep? {
        status := FailedFlow;
        ghost var before := steps;
        for k := 0 to |steps|
          invariant |steps| == |before| && status == FailedFlow && started == old(started)
          invariant forall j :: 0 <= j < k ==> steps[j] == AbortStep(before[j])
          invariant forall j :: k <= j < |steps| ==> steps[j] == before[j]
        {
          steps := steps[k := AbortStep(steps[k])];
        }
        assert steps == Recheck(old(State())).0.steps;
        events := [SopFlowFailed(def.id)];
      } else if forall i :: 0 <= i < |steps| ==> steps[i].status.VerifiedStep? {
        status := CompletedFlow;
        events := [SopFlowCompleted(def.id)];
      }
    }
  }
}
