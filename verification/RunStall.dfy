/** What the flow never hears: a failed, refused or lost action leaves its step waiting for ever. */
module RunStall {
  import opened Actions
  import opened History
  import opened Executor
  import opened Lifecycle
  import opened ExecutorLaws
  import opened Flow
  import opened RuntimeModel
  import opened RuntimeLaws
  import opened FlowLaws
  import opened RunFlow
  import FlowProgress
  import RuntimeFrame

  /** Step `i` of the running flow waits for this id. */
  ghost predicate WaitsFor(s: Sys, def: FlowDef, i: nat, id: ActionId) {
    && s.flow.Some? && s.flow.value.def == def && s.flow.value.status.RunningFlow?
    && i < |s.flow.value.steps| && i < |def.steps|
    && s.flow.value.steps[i].status.WaitingStep? && s.flow.value.steps[i].actionId == Some(id)
  }

  predicate Unmentioned(outcomes: seq<Outcome>, id: ActionId) {
    forall o :: o in outcomes ==> o.id != id
  }

  /** The id has left the pipeline and no outcome for it is on its way to the flow. */
  predicate Gone(s: Sys, id: ActionId) {
    && id < s.exec.nextId && Find(s.exec.staged, id).None? && Find(s.exec.pending, id).None?
    && Unmentioned(s.exec.completed, id) && Unmentioned(s.outcomes, id)
  }

  ghost predicate Stranded(s: Sys, def: FlowDef, i: nat, id: ActionId) {
    WaitsFor(s, def, i, id) && Gone(s, id)
  }

  /** Everything known of a tick under way. */
  ghost predicate Lawful(setup: Setup, m: Mid)
    requires Ready(m.sys)
  {
    MidLaw(setup, m) && Linked(m)
  }

  // ---------- nothing in a tick wakes the step ----------

  lemma ActionStranded(setup: Setup, m: Mid, snap: Snapshot, def: FlowDef, i: nat, id: ActionId)
    requires Ready(m.sys) && MidLaw(setup, m) && Stranded(m.sys, def, i, id)
    ensures Stranded(ActionSpec(setup, m, snap).sys, def, i, id)
  {
    var x := m.sys.exec;
    PendingConsistent(setup, m, snap);
    PassesLaw(setup.Rules(), x.pending, snap, m.sys.history, 0, Bar(x), id, MidLife(m, id));
    PassesFrame(setup.Rules(), x.pending, snap, m.sys.history);
    var t := Passes(setup.Rules(), x.pending, snap, m.sys.history);
    forall o | o in t.done ensures o.id != id {
      assert o == Outcome(o.id, Verified);
    }
  }

  /** A report that does not mention the id, and a pass, leave the waiting step as it is. */
  lemma FlowPassStranded(f: Flow, outcomes: seq<Outcome>, snap: Snapshot, i: nat, id: ActionId)
    requires Sane(f) && UniqueIds(f.def) && NoFailure(f) && f.status.RunningFlow? && i < |f.steps|
    requires f.steps[i].status.WaitingStep? && f.steps[i].actionId == Some(id)
    requires Unmentioned(outcomes, id) && forall o :: o in outcomes ==> o.status == Verified
    ensures var f1 := ReportSpec(f, outcomes).0;
            Sane(f1) && f1.def == f.def && var (f2, _, requests) := ProcessSpec(f1, snap);
            && Shaped(f2) && f2.def == f.def && f2.status.RunningFlow? && f2.steps[i] == f.steps[i]
            && forall r :: r in requests ==> r.stepId != f.def.steps[i].id
  {
    var f1 := ReportSpec(f, outcomes).0;
    ReportEffect(f, outcomes);
    assert StepReported(f, f1, i, outcomes);
    ProcessEffect(f1, snap);
    var (f2, _, requests) := ProcessSpec(f1, snap);
    assert StepPassed(f1, f2, i);
    forall r | r in requests ensures r.stepId != f.def.steps[i].id {
      assert RequestFrom(f1, f2, r);
      var j :| 0 <= j < |f1.steps| && f1.def.steps[j].id == r.stepId && f1.def.steps[j].kind == Act(r.action)
               && (f1.steps[j].status.PendingStep? || f1.steps[j].status.ReadyStep?) && f2.steps[j].status.WaitingStep?;
      assert j != i;
    }
  }

  lemma {:induction false} StageStranded(
      m: Mid, requests: seq<StepRequest>, ts: nat, def: FlowDef, i: nat, id: ActionId)
    requires Ready(m.sys) && m.sys.flow.Some? && Stranded(m.sys, def, i, id)
    requires forall r :: r in requests ==> r.stepId != def.steps[i].id
    ensures Stranded(StageRequests(m, requests, ts).sys, def, i, id)
    decreases |requests|
  {
    if requests != [] {
      var k := |requests| - 1;
      assert requests[k] in requests;
      StageStranded(m, requests[..k], ts, def, i, id);
      var n := StageRequests(m, requests[..k], ts);
      var x := n.sys.exec;
      FindConcat(x.staged, [NewRecord(x.nextId, requests[k].action, RuntimeActor, ts)], id);
    }
  }

  lemma FlowSpecStranded(m: Mid, snap: Snapshot, def: FlowDef, i: nat, id: ActionId)
    requires Ready(m.sys) && Linked(m) && Stranded(m.sys, def, i, id)
    ensures Stranded(FlowSpec(m, snap).sys, def, i, id)
  {
    FlowPassStranded(m.sys.flow.value, m.sys.outcomes, snap, i, id);
    var (n, requests) := Processed(m, snap);
    assert Stranded(n.sys, def, i, id);
    StageStranded(n, requests, snap.ms, def, i, id);
  }

  lemma SnapshotStranded(setup: Setup, m: Mid, snap: Snapshot, source: EventSource, def: FlowDef, i: nat, id: ActionId)
    requires Ready(m.sys) && Lawful(setup, m) && Stranded(m.sys, def, i, id)
    ensures Stranded(SnapshotSpec(setup, m, snap, source).sys, def, i, id)
  {
    var a := ObserveSpec(setup, m, snap, source);
    ObserveLaw(setup, m, snap, source);
    ObserveLinked(setup, m, snap, source);
    ActionStranded(setup, a, snap, def, i, id);
    ActionLinked(setup, a, snap);
    FlowSpecStranded(ActionSpec(setup, a, snap), snap, def, i, id);
  }

  lemma {:induction false} SnapshotsStranded(
      setup: Setup, m: Mid, snaps: seq<Snapshot>, source: EventSource, def: FlowDef, i: nat, id: ActionId)
    requires Ready(m.sys) && Lawful(setup, m) && Stranded(m.sys, def, i, id)
    ensures Stranded(SnapshotsSpec(setup, m, snaps, source).sys, def, i, id)
    decreases |snaps|
  {
    if snaps != [] {
      var k := |snaps| - 1;
      SnapshotsStranded(setup, m, snaps[..k], source, def, i, id);
      SnapshotsLaw(setup, m, snaps[..k], source);
      SnapshotsLinked(setup, m, snaps[..k], source);
      SnapshotStranded(setup, SnapshotsSpec(setup, m, snaps[..k], source), snaps[k], source, def, i, id);
    }
  }

  // ---------- nor does any call ----------

  /** Stranded, or stopped for good with the step still waiting. */
  ghost predicate StillStranded(s: Sys, def: FlowDef, i: nat, id: ActionId) {
    WaitsFor(s, def, i, id) && (s.poisoned.None? ==> Gone(s, id))
  }

  lemma TickStranded(
      setup: Setup, s: Sys, snaps: seq<Snapshot>, source: EventSource, def: FlowDef, i: nat, id: ActionId)
    requires Ready(s) && s.poisoned.None? && Lawful(setup, Mid(s, [])) && Stranded(s, def, i, id)
    ensures StillStranded(TickBody(setup, s, snaps, source), def, i, id)
  {
    var m := SnapshotsSpec(setup, Mid(s, []), snaps, source);
    SnapshotsStranded(setup, Mid(s, []), snaps, source, def, i, id);
    SnapshotsLinked(setup, Mid(s, []), snaps, source);
    RuntimeFrame.SnapshotsFramed(setup, Mid(s, []), snaps, source);
    AppendAllLinked(setup, m.sys, m.buffer);
    FindConcat(m.sys.exec.pending, m.sys.exec.staged, id);
  }

  lemma SubmitStranded(
      setup: Setup, s: Sys, action: CockpitAction, actor: Actor, at: nat, def: FlowDef, i: nat, id: ActionId)
    requires Ready(s) && s.poisoned.None? && Stranded(s, def, i, id)
    ensures StillStranded(SubmitActionSpec(setup, s, action, actor, at), def, i, id)
  {
    var staged := s.exec.staged + [NewRecord(s.exec.nextId, action, actor, at)];
    FindConcat(s.exec.staged, [NewRecord(s.exec.nextId, action, actor, at)], id);
    FindConcat(s.exec.pending, staged, id);
  }

  lemma CallStranded(setup: Setup, s: Sys, call: Call, def: FlowDef, i: nat, id: ActionId)
    requires Ready(s) && RunLaw(setup, s) && RunLinked(s) && StillStranded(s, def, i, id)
    ensures StillStranded(Do(setup, s, call), def, i, id)
  {
    if s.poisoned.None? {
      match call
      case StartCall =>
      case StartFlowCall(_) =>
      case SubmitCall(action, actor, at) => SubmitStranded(setup, s, action, actor, at, def, i, id);
      case TickCall(source) =>
        if setup.env.connected(s.history) && setup.env.poll(s.history).Ok? {
          var answer := setup.env.poll(s.history);
          var polled := s.(history := After(s.history, Polled(answer)));
          NeutralLaw(setup, s, polled, Polled(answer));
          NeutralLinked(s, polled);
          TickStranded(setup, polled, answer.value, source, def, i, id);
        }
      case TakeCall =>
      case FinishCall =>
    }
  }

  lemma UniqueBefore(calls: seq<Call>, more: seq<Call>)
    requires UniqueFlows(calls + more)
    ensures UniqueFlows(calls)
  {
    assert forall c :: c in calls ==> c in calls + more;
  }

  lemma CallsStranded(setup: Setup, calls: seq<Call>, call: Call, def: FlowDef, i: nat, id: ActionId)
    requires UniqueFlows(calls) && StillStranded(Run(setup, calls), def, i, id)
    ensures StillStranded(Run(setup, calls + [call]), def, i, id)
  {
    RunSnoc(setup, calls, call);
    RunKeepsLaw(setup, calls);
    RunKeepsLink(setup, calls);
    CallStranded(setup, Run(setup, calls), call, def, i, id);
  }

  lemma {:induction false} StrandedAfter(
      setup: Setup, calls: seq<Call>, more: seq<Call>, def: FlowDef, i: nat, id: ActionId)
    requires UniqueFlows(calls + more) && StillStranded(Run(setup, calls), def, i, id)
    ensures StillStranded(Run(setup, calls + more), def, i, id)
    decreases |more|
  {
    if more == [] {
      assert calls + more == calls;
    } else {
      var n := |more| - 1;
      var before := calls + more[..n];
      assert calls + more == before + [more[n]];
      UniqueBefore(before, [more[n]]);
      StrandedAfter(setup, calls, more[..n], def, i, id);
      CallsStranded(setup, before, more[n], def, i, id);
    }
  }

  // ---------- main results ----------

  /** A stranded step waits for ever: whatever is called next, it still waits for the same id, the flow is still
      running, and the trace never says that the flow completed. */
  lemma StrandedForever(setup: Setup, calls: seq<Call>, more: seq<Call>, def: FlowDef, i: nat, id: ActionId)
    requires UniqueFlows(calls + more) && Stranded(Run(setup, calls), def, i, id)
    ensures var t := Run(setup, calls + more);
            && WaitsFor(t, def, i, id)
            && forall e :: e in Trace(t.history) ==> !e.FlowCompleted?
  {
    StrandedAfter(setup, calls, more, def, i, id);
    var t := Run(setup, calls + more);
    RunKeepsLink(setup, calls + more);
    forall e | e in Trace(t.history) ensures !e.FlowCompleted? {
      var k :| 0 <= k < |Trace(t.history)| && Trace(t.history)[k] == e;
      assert EventEarned(t.flow, Trace(t.history), k);
    }
  }

  /** The terminal event of an id tells how its life ended. */
  lemma TerminalLife(trace: seq<TraceEvent>, id: ActionId, k: nat)
    requires !LifeIn(trace, id).Corrupt? && k < |trace| && Concerns(trace[k], id)
    ensures trace[k].ActionVerified? ==> LifeIn(trace, id).Confirmed?
    ensures trace[k].ActionRejected? ==> LifeIn(trace, id).Refused?
    ensures trace[k].ActionFailed? ==> LifeIn(trace, id).Unwritten? || LifeIn(trace, id).Expired?
  {
    LifeSpellsWord(trace, id);
    LetterInWord(trace, id, k);
  }

  /** An outcome on its way to the flow belongs to a confirmed life. */
  lemma ProvenIsConfirmed(setup: Setup, s: Sys, o: Outcome)
    requires Ready(s) && RunLaw(setup, s) && RunLinked(s) && s.poisoned.None?
    requires o in s.outcomes || o in s.exec.completed
    ensures LifeIn(Trace(s.history), o.id).Confirmed?
  {
    var trace := Trace(s.history);
    assert Told(Mid(s, [])) == trace;
    assert Sound(setup, s.history, o.id);
    assert ProvenBefore(trace, |trace|, o.id);
    var j :| 0 <= j < |trace| && trace[j].ActionVerified? && trace[j].id == o.id;
    TerminalLife(trace, o.id, j);
  }

  /** A settled life is one whose id has left the pipeline. */
  lemma SettledIsOut(setup: Setup, s: Sys, id: ActionId)
    requires Ready(s) && RunLaw(setup, s) && s.poisoned.None? && Settled(LifeIn(Trace(s.history), id))
    ensures id < s.exec.nextId && Find(s.exec.staged, id).None? && Find(s.exec.pending, id).None?
  {
    assert IdLaw(setup, Mid(s, []), id);
    StagedAboveBar(s.exec, id);
    FindMember(s.exec.pending, id);
  }

  /** Once an event of the id is terminal other than a verification, no outcome for it exists or is to come. */
  lemma UnverifiedIsGone(setup: Setup, s: Sys, id: ActionId, k: nat)
    requires Ready(s) && RunLaw(setup, s) && RunLinked(s) && s.poisoned.None?
    requires k < |Trace(s.history)|
    requires var e := Trace(s.history)[k]; (e.ActionRejected? || e.ActionFailed?) && e.id == id
    ensures Gone(s, id)
  {
    assert Sound(setup, s.history, id);
    TerminalLife(Trace(s.history), id, k);
    SettledIsOut(setup, s, id);
    forall o | o in s.outcomes || o in s.exec.completed ensures o.id != id {
      ProvenIsConfirmed(setup, s, o);
    }
  }

  lemma {:induction false} LetterInWord(trace: seq<TraceEvent>, id: ActionId, k: nat)
    requires k < |trace| && Concerns(trace[k], id)
    ensures LetterOf(trace[k]) in Word(trace, id)
  {
    if k > 0 {
      LetterInWord(trace[1..], id, k - 1);
    }
  }

  /** Step `i` of the flow was given this id. */
  predicate Owns(s: Sys, i: nat, id: ActionId) {
    s.flow.Some? && i < |s.flow.value.steps| && s.flow.value.steps[i].actionId == Some(id)
  }

  /** An id that is not confirmed has not verified the step that owns it: the step waits. */
  lemma OwnerWaits(setup: Setup, s: Sys, i: nat, id: ActionId)
    requires Ready(s) && RunLaw(setup, s) && RunLinked(s) && s.poisoned.None? && Owns(s, i, id)
    requires !LifeIn(Trace(s.history), id).Confirmed?
    ensures WaitsFor(s, s.flow.value.def, i, id)
  {
    var f, trace := s.flow.value, Trace(s.history);
    assert Told(Mid(s, [])) == trace;
    assert StepLinked(f, i, trace) && StepSane(f, i);
    assert Sound(setup, s.history, id);
    if ProvenBefore(trace, |trace|, id) {
      var j :| 0 <= j < |trace| && trace[j].ActionVerified? && trace[j].id == id;
      TerminalLife(trace, id, j);
    }
  }

  /** A flow action that is rejected, cannot be written or times out strands the step that was given its id: the flow is
      never told, so it neither fails nor completes. */
  lemma FailedActionStrandsFlow(setup: Setup, calls: seq<Call>, more: seq<Call>, i: nat, id: ActionId, k: nat)
    requires UniqueFlows(calls + more) && Run(setup, calls).poisoned.None? && Owns(Run(setup, calls), i, id)
    requires var trace := Trace(Run(setup, calls).history);
             k < |trace| && (trace[k].ActionRejected? || trace[k].ActionFailed?) && trace[k].id == id
    ensures WaitsFor(Run(setup, calls + more), Run(setup, calls).flow.value.def, i, id)
    ensures forall e :: e in Trace(Run(setup, calls + more).history) ==> !e.FlowCompleted? && !e.FlowFailed?
  {
    var s := Run(setup, calls);
    RunKeepsLaw(setup, calls);
    assert forall c :: c in calls ==> c in calls + more;
    RunKeepsLink(setup, calls);
    UnverifiedIsGone(setup, s, id, k);
    assert Sound(setup, s.history, id);
    TerminalLife(Trace(s.history), id, k);
    OwnerWaits(setup, s, i, id);
    StrandedForever(setup, calls, more, s.flow.value.def, i, id);
    forall e | e in Trace(Run(setup, calls + more).history) ensures !e.FlowFailed? {
      NoFlowFailureInEveryRun(setup, calls + more, e);
    }
  }

  // ---------- when a verified outcome reaches its step ----------

  lemma FirstSnapshotDelivers(
      setup: Setup, m: Mid, snap: Snapshot, source: EventSource, def: FlowDef, i: nat, id: ActionId)
    requires Ready(m.sys) && Linked(m) && WaitsFor(m.sys, def, i, id) && Outcome(id, Verified) in m.sys.outcomes
    ensures var f := SnapshotSpec(setup, m, snap, source).sys.flow;
            f.Some? && IsVerified(f.value, i)
  {
    var a := ObserveSpec(setup, m, snap, source);
    ObserveLinked(setup, m, snap, source);
    var b := ActionSpec(setup, a, snap);
    ActionLinked(setup, a, snap);
    var f := b.sys.flow.value;
    ReportEffect(f, b.sys.outcomes);
    FlowProgress.VerifiedOutcomesResolve(f, b.sys.outcomes, i);
    RecheckKeepsVerified(ReportAll(f, b.sys.outcomes).0, i);
    var f1 := ReportSpec(f, b.sys.outcomes).0;
    ProcessEffect(f1, snap);
    var (n, requests) := Processed(b, snap);
    StageKeepsVerified(n, requests, snap.ms, i);
  }

  lemma RecheckKeepsVerified(f: Flow, i: nat)
    requires Shaped(f) && IsVerified(f, i)
    ensures IsVerified(Recheck(f).0, i)
  {
  }

  lemma {:induction false} StageKeepsVerified(m: Mid, requests: seq<StepRequest>, ts: nat, i: nat)
    requires Ready(m.sys) && m.sys.flow.Some? && IsVerified(m.sys.flow.value, i)
    ensures IsVerified(StageRequests(m, requests, ts).sys.flow.value, i)
    decreases |requests|
  {
    if requests != [] { StageKeepsVerified(m, requests[..|requests| - 1], ts, i); }
  }

  lemma LaterSnapshotKeeps(setup: Setup, m: Mid, snap: Snapshot, source: EventSource, i: nat)
    requires Ready(m.sys) && Linked(m) && m.sys.flow.Some? && IsVerified(m.sys.flow.value, i)
    ensures var f := SnapshotSpec(setup, m, snap, source).sys.flow;
            f.Some? && IsVerified(f.value, i)
  {
    var a := ObserveSpec(setup, m, snap, source);
    ObserveLinked(setup, m, snap, source);
    var b := ActionSpec(setup, a, snap);
    ActionLinked(setup, a, snap);
    ReportEffect(b.sys.flow.value, b.sys.outcomes);
    ProcessEffect(ReportSpec(b.sys.flow.value, b.sys.outcomes).0, snap);
    var (n, requests) := Processed(b, snap);
    StageKeepsVerified(n, requests, snap.ms, i);
  }

  lemma {:induction false} SnapshotsDeliver(
      setup: Setup, m: Mid, snaps: seq<Snapshot>, source: EventSource, def: FlowDef, i: nat, id: ActionId)
    requires Ready(m.sys) && Linked(m) && WaitsFor(m.sys, def, i, id) && Outcome(id, Verified) in m.sys.outcomes
    requires snaps != []
    ensures var f := SnapshotsSpec(setup, m, snaps, source).sys.flow;
            f.Some? && IsVerified(f.value, i)
    decreases |snaps|
  {
    var k := |snaps| - 1;
    if k == 0 {
      assert snaps[..k] == [];
      FirstSnapshotDelivers(setup, m, snaps[0], source, def, i, id);
    } else {
      SnapshotsDeliver(setup, m, snaps[..k], source, def, i, id);
      SnapshotsLinked(setup, m, snaps[..k], source);
      LaterSnapshotKeeps(setup, SnapshotsSpec(setup, m, snaps[..k], source), snaps[k], source, i);
    }
  }

  /** A poll that delivers something delivers the outcome. */
  lemma TickDelivers(
      setup: Setup, s: Sys, snaps: seq<Snapshot>, source: EventSource, def: FlowDef, i: nat, id: ActionId)
    requires Ready(s) && RunLinked(s) && s.poisoned.None?
    requires WaitsFor(s, def, i, id) && Outcome(id, Verified) in s.outcomes && snaps != []
    ensures var f := TickBody(setup, s, snaps, source).flow;
            f.Some? && IsVerified(f.value, i)
  {
    var m := SnapshotsSpec(setup, Mid(s, []), snaps, source);
    SnapshotsDeliver(setup, Mid(s, []), snaps, source, def, i, id);
    SnapshotsLinked(setup, Mid(s, []), snaps, source);
    RuntimeFrame.SnapshotsFramed(setup, Mid(s, []), snaps, source);
    AppendAllLinked(setup, m.sys, m.buffer);
  }

  /** A poll that delivers nothing loses it. */
  lemma EmptyTickLoses(setup: Setup, s: Sys, source: EventSource, def: FlowDef, i: nat, id: ActionId)
    requires Ready(s) && RunLaw(setup, s) && RunLinked(s) && s.poisoned.None?
    requires WaitsFor(s, def, i, id) && Outcome(id, Verified) in s.outcomes
    ensures Stranded(TickBody(setup, s, [], source), def, i, id)
  {
    ProvenIsConfirmed(setup, s, Outcome(id, Verified));
    SettledIsOut(setup, s, id);
    FindConcat(s.exec.pending, s.exec.staged, id);
  }

  lemma TickDelivery(setup: Setup, s: Sys, source: EventSource, def: FlowDef, i: nat, id: ActionId)
    requires Ready(s) && RunLaw(setup, s) && RunLinked(s) && s.poisoned.None?
    requires WaitsFor(s, def, i, id) && Outcome(id, Verified) in s.outcomes
    requires setup.env.connected(s.history) && setup.env.poll(s.history).Ok?
    ensures var t := TickSpec(setup, s, source);
            && t.flow.Some?
            && (IsVerified(t.flow.value, i) <==> setup.env.poll(s.history).value != [])
            && (setup.env.poll(s.history).value == [] ==> Stranded(t, def, i, id))
  {
    var answer := setup.env.poll(s.history);
    var polled := s.(history := After(s.history, Polled(answer)));
    NeutralLaw(setup, s, polled, Polled(answer));
    NeutralLinked(s, polled);
    if answer.value != [] {
      TickDelivers(setup, polled, answer.value, source, def, i, id);
    } else {
      EmptyTickLoses(setup, polled, source, def, i, id);
    }
  }

  lemma RunSnoc(setup: Setup, calls: seq<Call>, call: Call)
    ensures Run(setup, calls + [call]) == Do(setup, Run(setup, calls), call)
  {
  }

  /** A verified outcome waiting to be reported reaches its step exactly when the next poll that succeeds delivers a
      snapshot; a poll that succeeds with none loses the outcome and strands the step. */
  lemma OutcomeDelivery(setup: Setup, calls: seq<Call>, source: EventSource, def: FlowDef, i: nat, id: ActionId)
    requires UniqueFlows(calls)
    requires var s := Run(setup, calls);
             && s.poisoned.None? && WaitsFor(s, def, i, id) && Outcome(id, Verified) in s.outcomes
             && setup.env.connected(s.history) && setup.env.poll(s.history).Ok?
    ensures var s := Run(setup, calls);
            var t := Run(setup, calls + [TickCall(source)]);
            && t.flow.Some?
            && (IsVerified(t.flow.value, i) <==> setup.env.poll(s.history).value != [])
            && (setup.env.poll(s.history).value == [] ==> Stranded(t, def, i, id))
  {
    RunSnoc(setup, calls, TickCall(source));
    RunKeepsLaw(setup, calls);
    RunKeepsLink(setup, calls);
    TickDelivery(setup, Run(setup, calls), source, def, i, id);
  }

  // ---------- from the trace alone ----------

  /** Once a flow has begun, no outcome is left behind in the executor between calls. */
  ghost predicate Drained(s: Sys) {
    s.poisoned.None? && s.flow.Some? && s.flow.value.started ==> s.exec.completed == []
  }

  lemma CallDrains(setup: Setup, s: Sys, call: Call)
    requires Ready(s) && Drained(s)
    ensures Drained(Do(setup, s, call))
  {
  }

  lemma {:induction false} RunDrains(setup: Setup, calls: seq<Call>)
    ensures Drained(Run(setup, calls))
    decreases |calls|
  {
    if calls != [] {
      var k := |calls| - 1;
      RunDrains(setup, calls[..k]);
      CallDrains(setup, Run(setup, calls[..k]), calls[k]);
    }
  }

  /** A step that waits for an id the trace calls verified has its outcome on the way, or is stranded, and not both. */
  lemma VerifiedIsReportedOrLost(setup: Setup, calls: seq<Call>, def: FlowDef, i: nat, id: ActionId, k: nat)
    requires UniqueFlows(calls)
    requires var s := Run(setup, calls);
             && s.poisoned.None? && WaitsFor(s, def, i, id)
             && k < |Trace(s.history)| && Trace(s.history)[k].ActionVerified? && Trace(s.history)[k].id == id
    ensures Outcome(id, Verified) in Run(setup, calls).outcomes <==> !Stranded(Run(setup, calls), def, i, id)
  {
    var s := Run(setup, calls);
    RunKeepsLaw(setup, calls);
    RunKeepsLink(setup, calls);
    RunDrains(setup, calls);
    assert Sound(setup, s.history, id);
    TerminalLife(Trace(s.history), id, k);
    SettledIsOut(setup, s, id);
    assert s.exec.completed == [];
    assert forall o :: o in s.outcomes && o.id == id ==> o == Outcome(id, Verified);
  }

  /** What the next poll does to a step whose action the trace calls verified, whatever the runtime keeps to itself: it
      verifies the step exactly if it brings a snapshot in time, and otherwise the step waits for ever. */
  lemma VerifiedActionDelivery(
      setup: Setup, calls: seq<Call>, more: seq<Call>, source: EventSource, def: FlowDef, i: nat, id: ActionId, k: nat)
    requires UniqueFlows(calls + [TickCall(source)] + more)
    requires var s := Run(setup, calls);
             && s.poisoned.None? && WaitsFor(s, def, i, id)
             && k < |Trace(s.history)| && Trace(s.history)[k].ActionVerified? && Trace(s.history)[k].id == id
             && setup.env.connected(s.history) && setup.env.poll(s.history).Ok?
    ensures var s, t := Run(setup, calls), Run(setup, calls + [TickCall(source)]);
            && t.flow.Some?
            && (IsVerified(t.flow.value, i) <==>
                  setup.env.poll(s.history).value != [] && !Stranded(s, def, i, id))
            && (!IsVerified(t.flow.value, i) ==> WaitsFor(Run(setup, calls + [TickCall(source)] + more), def, i, id))
  {
    var tick := [TickCall(source)];
    UniqueBefore(calls + tick, more);
    UniqueBefore(calls, tick);
    VerifiedIsReportedOrLost(setup, calls, def, i, id, k);
    if Stranded(Run(setup, calls), def, i, id) {
      StrandedAfter(setup, calls, tick, def, i, id);
      StrandedAfter(setup, calls + tick, more, def, i, id);
    } else {
      OutcomeDelivery(setup, calls, source, def, i, id);
      if setup.env.poll(Run(setup, calls).history).value == [] {
        StrandedAfter(setup, calls + tick, more, def, i, id);
      }
    }
  }
}
