/** One concrete run in which a flow action is refused and the flow is left waiting. */
module RunExample {
  import opened Actions
  import opened History
  import opened Executor
  import opened Flow
  import opened RuntimeModel
  import opened RunFlow
  import opened RunStall
  import opened FlowLaws
  import opened RuntimeFrame

  const SNAP: Snapshot := Snapshot(0, Running, map[], map[])

  const BEACON: CockpitAction := SetBeacon(On)

  /** One action step, no dependencies. */
  const DEF: FlowDef := FlowDef("before-start", [StepDef("beacon", [], Act(BEACON))])

  /** An adapter that always delivers the same snapshot, a sink that never fails, an empty catalog. */
  const SETUP: Setup := Setup(
    Env(h => None, h => true, h => Ok([SNAP]), (h, a) => Supported, (h, a) => None, (h, e) => None, h => None),
    [], 30, 0, (a, b) => [], seen => Assessment(PREFLIGHT, "", ""))

  const CALLS: seq<Call> := [StartFlowCall(DEF), TickCall(Simulator), TickCall(Simulator)]

  const POLLED: Effect := Polled(Ok([SNAP]))

  function Waiting(): Flow {
    Flow(DEF, [StepState(WaitingStep, Some(0), false)], RunningFlow, true)
  }

  const ASKED: ActionRecord := NewRecord(0, BEACON, RuntimeActor, 0)

  /** The flow's first pass starts it, readies its only step and asks for the step's action. */
  lemma FirstPass(snap: Snapshot)
    ensures ReportSpec(NewFlow(DEF), []) == (NewFlow(DEF), [])
    ensures var (f, _, requests) := ProcessSpec(NewFlow(DEF), snap);
            && f == Flow(DEF, [StepState(WaitingStep, None, false)], RunningFlow, true)
            && requests == [StepRequest("beacon", BEACON)]
  {
    assert ReportSpec(NewFlow(DEF), []).0 == NewFlow(DEF) && ReportSpec(NewFlow(DEF), []).1 == [];
    var b := Begin(NewFlow(DEF));
    assert b.steps == [StepState(PendingStep, None, false)];
    assert DepsOk(b, 0);
    assert PassRequests(b, snap, 1) == PassRequests(b, snap, 0) + PassAt(b, snap, 0).requests;
    var m := PassSteps(b, snap);
    assert m.steps == [StepState(WaitingStep, None, false)];
    assert !m.steps[0].status.VerifiedStep? && Recheck(m).0 == m;
  }

  lemma StagedFirst(p: Mid)
    requires Ready(p.sys) && p.sys.exec == Exec([], [], [], 0)
    requires p.sys.flow == Some(Flow(DEF, [StepState(WaitingStep, None, false)], RunningFlow, true))
    ensures var n := StageRequest(p, StepRequest("beacon", BEACON), 0);
            n.sys.exec == Exec([ASKED], [], [], 1) && n.sys.flow == Some(Waiting())
  {
    assert Position(DEF.steps, "beacon") == Some(0);
    var steps := [StepState(WaitingStep, None, false)];
    assert steps[0 := steps[0].(actionId := Some(0))] == [StepState(WaitingStep, Some(0), false)];
  }

  /** On any adapter, the first snapshot has the step's action requested. */
  lemma FirstTick(setup: Setup, s: Sys)
    requires NeverFailing(setup) && Ready(s) && s.poisoned.None? && s.outcomes == [] && s.exec == Exec([], [], [], 0)
    requires s.flow == Some(NewFlow(DEF)) && s.last.None?
    ensures var t := TickBody(setup, s, [SNAP], Simulator);
            && t.poisoned.None? && t.outcomes == [] && t.exec == Exec([], [ASKED], [], 1) && t.flow == Some(Waiting())
  {
    var m := Mid(s, []);
    var b := ActionSpec(setup, ObserveSpec(setup, m, SNAP, Simulator), SNAP);
    assert b.sys.exec == s.exec;
    FirstPass(SNAP);
    var (p, requests) := Processed(b, SNAP);
    assert requests[..0] == [];
    assert StageRequests(p, requests, 0) == StageRequest(p, requests[0], 0);
    StagedFirst(p);
    var n := SnapshotSpec(setup, m, SNAP, Simulator);
    assert n.sys.exec == Exec([ASKED], [], [], 1) && n.sys.flow == Some(Waiting());
    OneSnapshot(setup, m, SNAP);
    NeverFails(setup, n.sys, n.buffer);
  }

  lemma OneSnapshot(setup: Setup, m: Mid, snap: Snapshot)
    requires Ready(m.sys)
    ensures SnapshotsSpec(setup, m, [snap], Simulator) == SnapshotSpec(setup, m, snap, Simulator)
  {
    assert [snap][..0] == [];
  }

  lemma Refused(h: History)
    ensures AdvanceSpec(SETUP.Rules(), Exec([], [ASKED], [], 1), SNAP, h) ==
            (Exec([], [], [], 1), [ActionRejected(PLACEHOLDER, 0, 0, UnknownAction)], h)
  {
    var refused := ActionRejected(PLACEHOLDER, 0, 0, UnknownAction);
    assert [ASKED][1..] == [];
    var t := Stage(SETUP.Rules(), ASKED, SNAP, h);
    assert t == Turn([], [], [refused], true, h);
    assert Pass(SETUP.Rules(), [ASKED], SNAP, h) == Join(t, Idle(h)) == t;
  }

  lemma StillWaiting(snap: Snapshot)
    ensures ReportSpec(Waiting(), []) == (Waiting(), []) && ProcessSpec(Waiting(), snap) == (Waiting(), [], [])
  {
    var f := Waiting();
    assert !f.steps[0].status.VerifiedStep?;
    assert PassSteps(f, snap).steps == f.steps;
    assert PassEvents(f, snap, 1) == PassEvents(f, snap, 0) + [];
    assert PassRequests(f, snap, 1) == PassRequests(f, snap, 0) + [];
  }

  /** The second snapshot has the request refused and leaves the flow alone. */
  lemma SecondSnapshot(s: Sys) returns (n: Mid, at: nat)
    requires Ready(s) && s.poisoned.None? && s.outcomes == [] && s.exec == Exec([], [ASKED], [], 1)
    requires s.flow == Some(Waiting())
    ensures n == SnapshotSpec(SETUP, Mid(s, []), SNAP, Simulator)
    ensures && n.sys.poisoned.None? && n.sys.flow == Some(Waiting())
            && at < |n.buffer| && n.buffer[at] == ActionRejected(PLACEHOLDER, 0, 0, UnknownAction)
  {
    var a := ObserveSpec(SETUP, Mid(s, []), SNAP, Simulator);
    at := |a.buffer|;
    Refused(s.history);
    var b := ActionSpec(SETUP, a, SNAP);
    assert b.buffer == a.buffer + [ActionRejected(PLACEHOLDER, 0, 0, UnknownAction)] && b.sys.flow == Some(Waiting());
    StillWaiting(SNAP);
    assert FlowSpec(b, SNAP).sys == b.sys && FlowSpec(b, SNAP).buffer == b.buffer + [];
    n := SnapshotSpec(SETUP, Mid(s, []), SNAP, Simulator);
  }

  /** The trace says that action 0 was refused. */
  ghost predicate SaysRefused(s: Sys) {
    exists e :: e in Trace(s.history) && e.ActionRejected? && e.id == 0
  }

  lemma SecondTick(s: Sys)
    requires Ready(s) && s.poisoned.None? && s.outcomes == [] && s.exec == Exec([], [ASKED], [], 1)
    requires s.flow == Some(Waiting())
    ensures var t := TickBody(SETUP, s, [SNAP], Simulator);
            t.poisoned.None? && t.flow == Some(Waiting()) && SaysRefused(t)
  {
    var n, at := SecondSnapshot(s);
    TickOfOne(SETUP, s, SNAP, n);
    RefusalRecorded(SETUP, n, at);
  }

  lemma RefusalRecorded(setup: Setup, n: Mid, at: nat)
    requires NeverFailing(setup) && n.sys.poisoned.None?
    requires at < |n.buffer| && n.buffer[at] == ActionRejected(PLACEHOLDER, 0, 0, UnknownAction)
    ensures SaysRefused(AppendAll(setup, n.sys, n.buffer))
  {
    var k := Recorded(setup, n.sys, n.buffer, at);
    var e := n.buffer[at].WithSeq(k);
    assert e == ActionRejected(e.seqNo, 0, 0, UnknownAction);
  }

  /** A tick of one snapshot appends its events and settles. */
  lemma TickOfOne(setup: Setup, s: Sys, snap: Snapshot, n: Mid)
    requires NeverFailing(setup) && Ready(s) && s.poisoned.None?
    requires n == SnapshotSpec(setup, Mid(s, []), snap, Simulator) && n.sys.poisoned.None?
    ensures var a, t := AppendAll(setup, n.sys, n.buffer), TickBody(setup, s, [snap], Simulator);
            t.poisoned.None? && t.flow == n.sys.flow && t.history == a.history
  {
    OneSnapshot(setup, Mid(s, []), snap);
    NeverFails(setup, n.sys, n.buffer);
  }

  /** After two ticks the flow's action has been refused, and its step waits; by `FailedActionStrandsFlow` it does so
      for ever. */
  lemma RefusedActionRun()
    ensures var s := Run(SETUP, CALLS);
            UniqueFlows(CALLS) && s.poisoned.None? && WaitsFor(s, DEF, 0, 0) && SaysRefused(s)
  {
    var calls := [StartFlowCall(DEF), TickCall(Simulator)];
    AskedRun();
    RunSnoc(SETUP, calls, TickCall(Simulator));
    assert calls + [TickCall(Simulator)] == CALLS;
    var s := Run(SETUP, calls);
    TickPolls(s);
    SecondTick(s.(history := After(s.history, POLLED)));
  }

  lemma TickPolls(s: Sys)
    requires Ready(s) && s.poisoned.None?
    ensures Do(SETUP, s, TickCall(Simulator)) ==
            TickBody(SETUP, s.(history := After(s.history, POLLED)), [SNAP], Simulator)
  {
  }

  lemma AskedRun()
    ensures var s := Run(SETUP, [StartFlowCall(DEF), TickCall(Simulator)]);
            && s.poisoned.None? && s.outcomes == [] && s.exec == Exec([], [ASKED], [], 1) && s.flow == Some(Waiting())
  {
    var start := StartFlowCall(DEF);
    RunSnoc(SETUP, [], start);
    RunSnoc(SETUP, [start], TickCall(Simulator));
    assert [] + [start] == [start] && [start] + [TickCall(Simulator)] == [start, TickCall(Simulator)];
    var s := Run(SETUP, [start]);
    assert s == StartFlowSpec(NewSys(), DEF);
    TickPolls(s);
    FirstTick(SETUP, s.(history := After(s.history, POLLED)));
  }

  /** The documented promise that a failed action fails the flow does not hold of this run, nor of any that continues
      it. */
  lemma RefusedActionNeverFailsFlow(more: seq<Call>)
    requires UniqueFlows(more)
    ensures WaitsFor(Run(SETUP, CALLS + more), DEF, 0, 0)
    ensures forall e :: e in Trace(Run(SETUP, CALLS + more).history) ==> !e.FlowCompleted? && !e.FlowFailed?
  {
    RefusedActionRun();
    var trace := Trace(Run(SETUP, CALLS).history);
    var e :| e in trace && e.ActionRejected? && e.id == 0;
    var k :| 0 <= k < |trace| && trace[k] == e;
    assert forall c :: c in CALLS + more ==> c in CALLS || c in more;
    FailedActionStrandsFlow(SETUP, CALLS, more, 0, 0, k);
  }
}
