/** The flow in the trace: what a run's trace says of its flow is what the flow engine says, event by event. */
module RunTale {
  import opened Actions
  import opened History
  import opened Executor
  import opened ExecutorLaws
  import opened Flow
  import opened FlowLaws
  import opened FlowEvents
  import opened RuntimeModel
  import opened RuntimeFrame
  import opened RunFlow

  // ---------- the flow's events in a trace ----------

  predicate IsFlowEvent(e: TraceEvent) {
    || e.FlowStarted? || e.StepReady? || e.StepWaiting? || e.StepActionRequested? || e.StepVerified?
    || e.StepFailed? || e.FlowCompleted? || e.FlowFailed?
  }

  /** What a traced event says of a flow. */
  function Said(e: TraceEvent): SopEvent
    requires IsFlowEvent(e)
  {
    match e
    case FlowStarted(_, _, flow) => SopStarted(flow)
    case StepReady(_, _, flow, step) => SopReady(flow, step)
    case StepWaiting(_, _, flow, step) => SopWaiting(flow, step)
    case StepActionRequested(_, _, flow, step, action) => SopRequested(flow, step, action)
    case StepVerified(_, _, flow, step) => SopVerified(flow, step)
    case StepFailed(_, _, flow, step, cause) => SopFailed(flow, step, cause)
    case FlowCompleted(_, _, flow) => SopFlowCompleted(flow)
    case FlowFailed(_, _, flow) => SopFlowFailed(flow)
  }

  /** All that a trace says of flows, in order. */
  function FlowTold(v: seq<TraceEvent>): seq<SopEvent> {
    if v == [] then []
    else
      var e := v[|v| - 1];
      FlowTold(v[..|v| - 1]) + if IsFlowEvent(e) then [Said(e)] else []
  }

  lemma {:induction false} ToldConcat(a: seq<TraceEvent>, b: seq<TraceEvent>)
    ensures FlowTold(a + b) == FlowTold(a) + FlowTold(b)
    decreases |b|
  {
    if b == [] {
      assert a + b == a;
    } else {
      var n := |b| - 1;
      assert (a + b)[..|a + b| - 1] == a + b[..n];
      ToldConcat(a, b[..n]);
    }
  }

  lemma ToldPrefix(a: seq<TraceEvent>, b: seq<TraceEvent>)
    requires a <= b
    ensures FlowTold(a) <= FlowTold(b)
  {
    assert b == a + b[|a|..];
    ToldConcat(a, b[|a|..]);
  }

  predicate NoFlowEvents(events: seq<TraceEvent>) {
    forall e :: e in events ==> !IsFlowEvent(e)
  }

  lemma {:induction false} NothingTold(events: seq<TraceEvent>)
    requires NoFlowEvents(events)
    ensures FlowTold(events) == []
  {
    if events != [] { NothingTold(events[..|events| - 1]); }
  }

  lemma ToldAsBefore(a: seq<TraceEvent>, events: seq<TraceEvent>)
    requires NoFlowEvents(events)
    ensures FlowTold(a + events) == FlowTold(a)
  {
    ToldConcat(a, events);
    NothingTold(events);
  }

  /** Tracing a flow's events loses and changes nothing. */
  lemma {:induction false} TracedAsSaid(events: seq<SopEvent>, ts: nat)
    ensures FlowTold(SopTrace(events, ts)) == events
    decreases |events|
  {
    if events != [] {
      var n := |events| - 1;
      var v := SopTrace(events, ts);
      assert v[..n] == SopTrace(events[..n], ts);
      TracedAsSaid(events[..n], ts);
      assert Said(v[n]) == events[n];
    }
  }

  /** Numbers do not matter. */
  lemma {:induction false} ToldRestamped(v: seq<TraceEvent>, w: seq<TraceEvent>)
    requires Covers(v, w) && |v| == |w|
    ensures FlowTold(v) == FlowTold(w)
    decreases |v|
  {
    if v != [] {
      var n := |v| - 1;
      assert w[n].WithSeq(0) == v[n].WithSeq(0);
      SaidRestamped(v[n], w[n]);
      ToldRestamped(v[..n], w[..n]);
    }
  }

  lemma SaidRestamped(d: TraceEvent, e: TraceEvent)
    requires d.WithSeq(0) == e.WithSeq(0)
    ensures IsFlowEvent(d) == IsFlowEvent(e) && (IsFlowEvent(d) ==> Said(d) == Said(e))
  {
  }

  // ---------- a play behind every tick ----------

  /** The flow stands as some calls on its engine left it, and those calls said just what these events say. */
  ghost predicate Played(flow: Option<Flow>, events: seq<SopEvent>) {
    match flow
    case None => events == []
    case Some(f) => exists ops :: Play(f.def, ops) == (f, events)
  }

  lemma PlaySnoc(def: FlowDef, ops: seq<FlowOp>, op: FlowOp)
    ensures var (f, events) := Play(def, ops);
            Play(def, ops + [op]) == (Apply(f, op).0, events + Apply(f, op).1)
  {
    assert (ops + [op])[..|ops|] == ops;
  }

  lemma PlayedOn(f: Flow, events: seq<SopEvent>, op: FlowOp)
    requires Shaped(f) && Played(Some(f), events)
    ensures Played(Some(Apply(f, op).0), events + Apply(f, op).1)
  {
    var ops :| Play(f.def, ops) == (f, events);
    PlaySnoc(f.def, ops, op);
    ApplyShaped(f, op);
  }

  lemma ProcessedPlayed(m: Mid, snap: Snapshot)
    requires Ready(m.sys) && m.sys.flow.Some? && Played(m.sys.flow, FlowTold(Told(m)))
    ensures var n := Processed(m, snap).0; Played(n.sys.flow, FlowTold(Told(n)))
  {
    var f := m.sys.flow.value;
    ProcessedTold(m, snap);
    var (f1, reported) := ReportSpec(f, m.sys.outcomes);
    var processed := ProcessSpec(f1, snap).1;
    ReportedAndProcessed(f, FlowTold(Told(m)), m.sys.outcomes, snap);
    ToldConcat(Told(m), SopTrace(reported + processed, snap.ms));
    TracedAsSaid(reported + processed, snap.ms);
  }

  lemma ReportedAndProcessed(f: Flow, v: seq<SopEvent>, outcomes: seq<Outcome>, snap: Snapshot)
    requires Shaped(f) && Played(Some(f), v)
    ensures var (f1, reported) := ReportSpec(f, outcomes);
            && Shaped(f1)
            && var (g, processed, _) := ProcessSpec(f1, snap);
            Played(Some(g), v + (reported + processed))
  {
    ReportPlayed(f, v, outcomes);
    var (f1, reported) := ReportSpec(f, outcomes);
    ProcessPlayed(f1, v + reported, snap);
    ThreeInARow(v, reported, ProcessSpec(f1, snap).1);
  }

  lemma ThreeInARow(a: seq<SopEvent>, b: seq<SopEvent>, c: seq<SopEvent>)
    ensures a + (b + c) == a + b + c
  {
  }

  lemma ReportPlayed(f: Flow, v: seq<SopEvent>, outcomes: seq<Outcome>)
    requires Shaped(f) && Played(Some(f), v)
    ensures var (g, events) := ReportSpec(f, outcomes); Shaped(g) && Played(Some(g), v + events)
  {
    ApplyShaped(f, FlowLaws.ReportOp(outcomes));
    PlayedOn(f, v, FlowLaws.ReportOp(outcomes));
  }

  lemma ProcessPlayed(f: Flow, v: seq<SopEvent>, snap: Snapshot)
    requires Shaped(f) && Played(Some(f), v)
    ensures var (g, events, _) := ProcessSpec(f, snap); Played(Some(g), v + events)
  {
    PlayedOn(f, v, FlowLaws.ProcessOp(snap));
  }

  lemma StagedPlayed(m: Mid, r: StepRequest, ts: nat)
    requires Ready(m.sys) && m.sys.flow.Some? && Played(m.sys.flow, FlowTold(Told(m)))
    ensures var n := StageRequest(m, r, ts); Played(n.sys.flow, FlowTold(Told(n)))
  {
    var n := StageRequest(m, r, ts);
    var e := ActionRequested(m.sys.nextSeq, ts, r.action, RuntimeActor, m.sys.exec.nextId);
    PlayedOn(m.sys.flow.value, FlowTold(Told(m)), AssignOp(r.stepId, m.sys.exec.nextId));
    assert Told(n) == Told(m) + [e];
    ToldAsBefore(Told(m), [e]);
    assert FlowTold(Told(m)) + [] == FlowTold(Told(m));
  }

  lemma {:induction false} StagePlayed(m: Mid, requests: seq<StepRequest>, ts: nat)
    requires Ready(m.sys) && m.sys.flow.Some? && Played(m.sys.flow, FlowTold(Told(m)))
    ensures var n := StageRequests(m, requests, ts); Played(n.sys.flow, FlowTold(Told(n)))
    decreases |requests|
  {
    if requests != [] {
      var k := |requests| - 1;
      StagePlayed(m, requests[..k], ts);
      StagedPlayed(StageRequests(m, requests[..k], ts), requests[k], ts);
    }
  }

  lemma ObservePlayed(setup: Setup, m: Mid, snap: Snapshot, source: EventSource)
    requires Ready(m.sys)
    ensures FlowTold(Told(ObserveSpec(setup, m, snap, source))) == FlowTold(Told(m))
  {
    var events := Ingest(setup, m.sys.last, snap, source) + EvaluateSpec(setup, m.sys.phase, m.sys.last, snap).1;
    assert Told(ObserveSpec(setup, m, snap, source)) == Told(m) + events;
    ToldAsBefore(Told(m), events);
  }

  lemma ActionPlayed(setup: Setup, m: Mid, snap: Snapshot)
    requires Ready(m.sys)
    ensures FlowTold(Told(ActionSpec(setup, m, snap))) == FlowTold(Told(m))
  {
    var t := Passes(setup.Rules(), m.sys.exec.pending, snap, m.sys.history);
    PassesFrame(setup.Rules(), m.sys.exec.pending, snap, m.sys.history);
    assert Told(ActionSpec(setup, m, snap)) == Told(m) + t.events;
    ToldAsBefore(Told(m), t.events);
  }

  lemma SnapshotPlayed(setup: Setup, m: Mid, snap: Snapshot, source: EventSource)
    requires Ready(m.sys) && Played(m.sys.flow, FlowTold(Told(m)))
    ensures var n := SnapshotSpec(setup, m, snap, source); Played(n.sys.flow, FlowTold(Told(n)))
  {
    var a := ObserveSpec(setup, m, snap, source);
    var b := ActionSpec(setup, a, snap);
    ObservePlayed(setup, m, snap, source);
    ActionPlayed(setup, a, snap);
    if b.sys.flow.Some? {
      ProcessedPlayed(b, snap);
      StagePlayed(Processed(b, snap).0, Processed(b, snap).1, snap.ms);
    }
    var n := FlowSpec(b, snap);
    assert Told(n.(sys := n.sys.(last := Some(snap)))) == Told(n);
  }

  lemma {:induction false} SnapshotsPlayed(setup: Setup, m: Mid, snaps: seq<Snapshot>, source: EventSource)
    requires Ready(m.sys) && Played(m.sys.flow, FlowTold(Told(m)))
    ensures var n := SnapshotsSpec(setup, m, snaps, source); Played(n.sys.flow, FlowTold(Told(n)))
    decreases |snaps|
  {
    if snaps != [] {
      var k := |snaps| - 1;
      SnapshotsPlayed(setup, m, snaps[..k], source);
      SnapshotPlayed(setup, SnapshotsSpec(setup, m, snaps[..k], source), snaps[k], source);
    }
  }

  // ---------- every run ----------

  /** The trace tells a beginning of a play, and all of it unless an append failed. */
  ghost predicate Retold(s: Sys) {
    match s.flow
    case None => FlowTold(Trace(s.history)) == []
    case Some(f) =>
      exists ops :: Play(f.def, ops).0 == f && FlowTold(Trace(s.history)) <= Play(f.def, ops).1
                    && (s.poisoned.None? ==> FlowTold(Trace(s.history)) == Play(f.def, ops).1)
  }

  lemma {:induction false} AppendAllTold(setup: Setup, s: Sys, events: seq<TraceEvent>)
    requires s.poisoned.None?
    ensures var t := AppendAll(setup, s, events);
            && t.flow == s.flow && FlowTold(Trace(t.history)) <= FlowTold(Told(Mid(s, events)))
            && (t.poisoned.None? ==> FlowTold(Trace(t.history)) == FlowTold(Told(Mid(s, events))))
    decreases |events|
  {
    if events == [] {
      assert Told(Mid(s, events)) == Trace(s.history);
    } else {
      var t := AppendOne(setup, s, events[0]);
      AppendTold(setup, s, events);
      if t.poisoned.None? {
        ToldRestamped(Told(Mid(s, events)), Told(Mid(t, events[1..])));
        AppendAllTold(setup, t, events[1..]);
      } else {
        ToldPrefix(Trace(s.history), Told(Mid(s, events)));
      }
    }
  }

  lemma TickRetold(setup: Setup, s: Sys, snaps: seq<Snapshot>, source: EventSource)
    requires Ready(s) && s.poisoned.None? && Retold(s)
    ensures Retold(TickBody(setup, s, snaps, source))
  {
    var m := SnapshotsSpec(setup, Mid(s, []), snaps, source);
    assert Told(Mid(s, [])) == Trace(s.history);
    RetoldIsPlayed(s);
    SnapshotsPlayed(setup, Mid(s, []), snaps, source);
    SnapshotsFramed(setup, Mid(s, []), snaps, source);
    AppendAllTold(setup, m.sys, m.buffer);
    PlayedIsRetold(m, TickBody(setup, s, snaps, source));
  }

  lemma RetoldIsPlayed(s: Sys)
    requires s.poisoned.None? && Retold(s)
    ensures Played(s.flow, FlowTold(Trace(s.history)))
  {
    if s.flow.Some? {
      var f := s.flow.value;
      var ops :| Play(f.def, ops).0 == f && FlowTold(Trace(s.history)) == Play(f.def, ops).1;
      assert Play(f.def, ops) == (f, FlowTold(Trace(s.history)));
    }
  }

  lemma PlayedIsRetold(m: Mid, t: Sys)
    requires Played(m.sys.flow, FlowTold(Told(m))) && t.flow == m.sys.flow
    requires FlowTold(Trace(t.history)) <= FlowTold(Told(m))
    requires t.poisoned.None? ==> FlowTold(Trace(t.history)) == FlowTold(Told(m))
    ensures Retold(t)
  {
    if t.flow.Some? {
      var ops :| Play(t.flow.value.def, ops) == (t.flow.value, FlowTold(Told(m)));
      assert Play(t.flow.value.def, ops).0 == t.flow.value;
    }
  }

  /** Calls other than a tick append at most one event, and none of a flow. */
  lemma OtherCallTold(setup: Setup, s: Sys, call: Call)
    requires Ready(s) && !call.TickCall?
    ensures FlowTold(Trace(Do(setup, s, call).history)) == FlowTold(Trace(s.history))
    ensures s.poisoned.Some? ==> Do(setup, s, call).poisoned.Some?
  {
    if s.poisoned.None? {
      match call
      case StartCall =>
        var c := s.(history := After(s.history, Connected(setup.env.connect(s.history))));
        AppendsNoTale(setup, c, SessionStart(PLACEHOLDER, setup.sessionId));
      case StartFlowCall(_) =>
      case SubmitCall(action, actor, at) =>
        AppendsNoTale(setup, s.(exec := SubmitSpec(s.exec, action, actor, at)),
                      ActionRequested(PLACEHOLDER, at, action, actor, s.exec.nextId));
      case TakeCall =>
      case FinishCall => AppendsNoTale(setup, s, SessionEnd(PLACEHOLDER));
    }
  }

  lemma AppendsNoTale(setup: Setup, s: Sys, e: TraceEvent)
    requires !IsFlowEvent(e)
    ensures FlowTold(Trace(AppendOne(setup, s, e).history)) == FlowTold(Trace(s.history))
  {
    SaidRestamped(e, e.WithSeq(s.nextSeq));
    ToldAsBefore(Trace(s.history), [e.WithSeq(s.nextSeq)]);
  }

  lemma CallRetold(setup: Setup, s: Sys, call: Call)
    requires Ready(s) && Retold(s)
    ensures Retold(Do(setup, s, call))
  {
    if call.TickCall? {
      if s.poisoned.None? && setup.env.connected(s.history) {
        var answer := setup.env.poll(s.history);
        var polled := s.(history := After(s.history, Polled(answer)));
        assert Retold(polled);
        if answer.Ok? { TickRetold(setup, polled, answer.value, call.source); }
      }
    } else {
      OtherCallTold(setup, s, call);
      OtherCallRetold(s, Do(setup, s, call));
      if call.StartFlowCall? { NewFlowRetold(s, call.def); }
    }
  }

  lemma OtherCallRetold(s: Sys, t: Sys)
    requires Retold(s) && FlowTold(Trace(t.history)) == FlowTold(Trace(s.history))
    requires s.poisoned.Some? ==> t.poisoned.Some?
    ensures t.flow == s.flow ==> Retold(t)
  {
    if t.flow == s.flow && s.flow.Some? {
      var f := s.flow.value;
      var ops :| Play(f.def, ops).0 == f && FlowTold(Trace(s.history)) <= Play(f.def, ops).1
                 && (s.poisoned.None? ==> FlowTold(Trace(s.history)) == Play(f.def, ops).1);
      assert Play(f.def, ops).0 == t.flow.value;
    }
  }

  lemma NewFlowRetold(s: Sys, def: FlowDef)
    requires Retold(s)
    ensures Retold(StartFlowSpec(s, def))
  {
    if s.poisoned.None? && s.flow.None? {
      assert Play(def, []) == (NewFlow(def), []);
    }
  }

  lemma {:induction false} RunIsRetold(setup: Setup, calls: seq<Call>)
    ensures Retold(Run(setup, calls))
    decreases |calls|
  {
    if calls != [] {
      var k := |calls| - 1;
      RunIsRetold(setup, calls[..k]);
      CallRetold(setup, Run(setup, calls[..k]), calls[k]);
    }
  }

  // ---------- what every run's trace says of its flow ----------

  /** The letters that traced events add to a step's story. */
  function TracedWord(trace: seq<TraceEvent>, step: string): seq<StepLetter> {
    if trace == [] then []
    else
      var e := trace[|trace| - 1];
      TracedWord(trace[..|trace| - 1], step) + TracedLetter(e, step)
  }

  function TracedLetter(e: TraceEvent, step: string): seq<StepLetter> {
    match e
    case StepReady(_, _, _, name) => if name == step then [Rdy] else []
    case StepWaiting(_, _, _, name) => if name == step then [Wait] else []
    case StepActionRequested(_, _, _, name, _) => if name == step then [Ask] else []
    case StepVerified(_, _, _, name) => if name == step then [Ver] else []
    case StepFailed(_, _, _, name, _) => if name == step then [Fail] else []
    case _ => []
  }

  lemma LetterIsSaid(e: TraceEvent, step: string)
    ensures TracedLetter(e, step) ==
            if IsFlowEvent(e) && IsStepEvent(Said(e)) && Said(e).step == step then [StepLetterOf(Said(e))] else []
  {
  }

  lemma StepWordSnoc(events: seq<SopEvent>, e: SopEvent, step: string)
    ensures StepWord(events + [e], step) ==
            StepWord(events, step) + if IsStepEvent(e) && e.step == step then [StepLetterOf(e)] else []
  {
    assert (events + [e])[..|events|] == events;
  }

  lemma {:induction false} TracedWordIsStepWord(trace: seq<TraceEvent>, step: string)
    ensures TracedWord(trace, step) == StepWord(FlowTold(trace), step)
  {
    if trace != [] {
      var n := |trace| - 1;
      TracedWordIsStepWord(trace[..n], step);
      LetterIsSaid(trace[n], step);
      if IsFlowEvent(trace[n]) {
        StepWordSnoc(FlowTold(trace[..n]), Said(trace[n]), step);
      } else {
        AddNothing(FlowTold(trace[..n]));
      }
    }
  }

  lemma AddNothing<T>(a: seq<T>)
    ensures a + [] == a
  {
  }

  lemma {:induction false} StepWordPrefix(a: seq<SopEvent>, b: seq<SopEvent>, step: string)
    requires a <= b
    ensures StepWord(a, step) <= StepWord(b, step)
    decreases |b|
  {
    if |a| < |b| {
      StepWordPrefix(a, b[..|b| - 1], step);
    } else {
      assert a == b;
    }
  }

  lemma StoryPrefix(v: seq<StepLetter>, w: seq<StepLetter>)
    requires v <= w && IsStepPrefix(w)
    ensures IsStepPrefix(v)
  {
  }

  /** In every run, whatever fails: the traced events of each step of the flow spell a beginning of one of its stories.
      */
  lemma StepStoryInEveryRun(setup: Setup, calls: seq<Call>, i: nat)
    requires UniqueFlows(calls) && Run(setup, calls).flow.Some? && i < |Run(setup, calls).flow.value.def.steps|
    ensures var s := Run(setup, calls);
            IsStepPrefix(TracedWord(Trace(s.history), s.flow.value.def.steps[i].id))
  {
    var s := Run(setup, calls);
    var def := s.flow.value.def;
    RunIsRetold(setup, calls);
    FlowIsUnique(setup, calls);
    var ops :| Play(def, ops).0 == s.flow.value && FlowTold(Trace(s.history)) <= Play(def, ops).1;
    StepStory(def, ops, i);
    TracedWordIsStepWord(Trace(s.history), def.steps[i].id);
    StepWordPrefix(FlowTold(Trace(s.history)), Play(def, ops).1, def.steps[i].id);
    StoryPrefix(TracedWord(Trace(s.history), def.steps[i].id), StepWord(Play(def, ops).1, def.steps[i].id));
  }

  lemma {:induction false} FlowIsUnique(setup: Setup, calls: seq<Call>)
    requires UniqueFlows(calls)
    ensures var s := Run(setup, calls); s.flow.Some? ==> UniqueIds(s.flow.value.def)
    decreases |calls|
  {
    if calls != [] {
      var k := |calls| - 1;
      assert calls[k] in calls;
      FlowIsUnique(setup, calls[..k]);
      var s := Run(setup, calls[..k]);
      if calls[k].TickCall? && s.poisoned.None? && setup.env.connected(s.history) && setup.env.poll(s.history).Ok? {
        var answer := setup.env.poll(s.history);
        TickKeepsDef(setup, s.(history := After(s.history, Polled(answer))), answer.value, calls[k].source);
      }
    }
  }

  lemma TickKeepsDef(setup: Setup, s: Sys, snaps: seq<Snapshot>, source: EventSource)
    requires Ready(s) && s.poisoned.None?
    ensures var t := TickBody(setup, s, snaps, source);
            t.flow.Some? == s.flow.Some? && (t.flow.Some? ==> t.flow.value.def == s.flow.value.def)
  {
    var m := SnapshotsSpec(setup, Mid(s, []), snaps, source);
    SnapshotsFramed(setup, Mid(s, []), snaps, source);
    AppendAllTold(setup, m.sys, m.buffer);
  }

  // ---------- positions ----------

  /** Where in what was told a traced event of the flow stands. */
  lemma {:induction false} ToldAt(trace: seq<TraceEvent>, k: nat) returns (i: nat)
    requires k < |trace| && IsFlowEvent(trace[k])
    ensures i < |FlowTold(trace)| && FlowTold(trace)[i] == Said(trace[k]) && i == |FlowTold(trace[..k])|
    decreases |trace|
  {
    var n := |trace| - 1;
    if k == n {
      i := |FlowTold(trace[..n])|;
    } else {
      i := ToldAt(trace[..n], k);
      assert trace[..n][..k] == trace[..k];
    }
  }

  lemma ToldInOrder(trace: seq<TraceEvent>, j: nat, k: nat)
    requires j < k < |trace| && IsFlowEvent(trace[j])
    ensures |FlowTold(trace[..j])| < |FlowTold(trace[..k])|
  {
    assert trace[..j + 1] <= trace[..k] && trace[..j + 1] == trace[..j] + [trace[j]];
    ToldConcat(trace[..j], [trace[j]]);
    assert [trace[j]][..0] == [];
    ToldPrefix(trace[..j + 1], trace[..k]);
  }

  /** In every run the trace says at most once that the flow started, before anything else about it, and each event of
      the flow has that event before it or is it. */
  lemma FlowStartedFirst(setup: Setup, calls: seq<Call>, k: nat)
    requires UniqueFlows(calls)
    requires k < |Trace(Run(setup, calls).history)| && IsFlowEvent(Trace(Run(setup, calls).history)[k])
    ensures var trace := Trace(Run(setup, calls).history);
            && (trace[k].FlowStarted? ==> forall j :: 0 <= j < k ==> !IsFlowEvent(trace[j]))
            && (!trace[k].FlowStarted? ==> exists j :: 0 <= j < k && trace[j].FlowStarted?)
  {
    var s := Run(setup, calls);
    var trace := Trace(s.history);
    RunIsRetold(setup, calls);
    FlowIsUnique(setup, calls);
    var i := ToldAt(trace, k);
    assert s.flow.Some?;
    var def := s.flow.value.def;
    var ops :| Play(def, ops).0 == s.flow.value && FlowTold(trace) <= Play(def, ops).1;
    StartedOnce(def, ops);
    if trace[k].FlowStarted? {
      assert i == 0;
      forall j | 0 <= j < k ensures !IsFlowEvent(trace[j]) {
        if IsFlowEvent(trace[j]) { ToldInOrder(trace, j, k); }
      }
    } else {
      assert i != 0;
      var j := FirstTold(trace[..k]);
      assert FlowTold(trace[..k]) <= FlowTold(trace) by { ToldPrefix(trace[..k], trace); }
    }
  }

  /** The traced event that is told first. */
  lemma {:induction false} FirstTold(trace: seq<TraceEvent>) returns (j: nat)
    requires FlowTold(trace) != []
    ensures j < |trace| && IsFlowEvent(trace[j]) && Said(trace[j]) == FlowTold(trace)[0]
    decreases |trace|
  {
    var n := |trace| - 1;
    if FlowTold(trace[..n]) == [] {
      j := n;
    } else {
      j := FirstTold(trace[..n]);
    }
  }

  /** And while no append has failed, a flow that has been started is in the trace. */
  lemma StartIsTraced(setup: Setup, calls: seq<Call>)
    requires UniqueFlows(calls) && Run(setup, calls).poisoned.None? && Run(setup, calls).flow.Some?
    ensures Run(setup, calls).flow.value.started <==>
            exists e :: e in Trace(Run(setup, calls).history) && e.FlowStarted?
  {
    var s := Run(setup, calls);
    var trace := Trace(s.history);
    RunIsRetold(setup, calls);
    FlowIsUnique(setup, calls);
    var def := s.flow.value.def;
    var ops :| Play(def, ops).0 == s.flow.value && FlowTold(trace) == Play(def, ops).1;
    StartedOnce(def, ops);
    if s.flow.value.started {
      var j := FirstTold(trace);
      assert trace[j] in trace && trace[j].FlowStarted?;
    }
    if e :| e in trace && e.FlowStarted? {
      var k :| 0 <= k < |trace| && trace[k] == e;
      var i := ToldAt(trace, k);
    }
  }

  /** In every run each traced event of a flow names the flow that was started, and if it is about a step, a step of
      that flow, with the step's own action if it asks for one. */
  lemma FlowEventsInEveryRun(setup: Setup, calls: seq<Call>, e: TraceEvent)
    requires UniqueFlows(calls) && e in Trace(Run(setup, calls).history) && IsFlowEvent(e)
    ensures Run(setup, calls).flow.Some?
    ensures var def := Run(setup, calls).flow.value.def;
            && e.flow == def.id
            && (!e.FlowStarted? && !e.FlowCompleted? && !e.FlowFailed? ==>
                  exists i :: 0 <= i < |def.steps| && def.steps[i].id == e.step
                              && (e.StepActionRequested? ==> def.steps[i].kind == Act(e.action)))
  {
    var s := Run(setup, calls);
    var trace := Trace(s.history);
    RunIsRetold(setup, calls);
    var k :| 0 <= k < |trace| && trace[k] == e;
    var i := ToldAt(trace, k);
    assert s.flow.Some?;
    var def := s.flow.value.def;
    var ops :| Play(def, ops).0 == s.flow.value && FlowTold(trace) <= Play(def, ops).1;
    EventsAreTruthful(def, ops);
    assert Play(def, ops).1[i] == Said(e);
    TruthfulTraced(def, Reported(ops), e);
  }

  lemma TruthfulTraced(def: FlowDef, outcomes: seq<Outcome>, e: TraceEvent)
    requires IsFlowEvent(e) && Truthful(def, outcomes, Said(e))
    ensures e.flow == def.id
    ensures !e.FlowStarted? && !e.FlowCompleted? && !e.FlowFailed? ==>
              exists i :: 0 <= i < |def.steps| && def.steps[i].id == e.step
                          && (e.StepActionRequested? ==> def.steps[i].kind == Act(e.action))
  {
  }
}
