/** Observation steps in a run: each one called verified was seen to hold on a polled snapshot of that very time. */
module RunObserved {
  import opened Actions
  import opened History
  import opened Executor
  import opened ExecutorLaws
  import opened Flow
  import opened RuntimeModel
  import opened RuntimeFrame
  import opened FlowLaws
  import opened RunFlow

  /** Whatever observation step of the flow has this name, its condition held on some polled snapshot of this time. */
  ghost predicate Observed(def: FlowDef, seen: set<Snapshot>, step: string, ts: nat) {
    forall i :: 0 <= i < |def.steps| && def.steps[i].id == step && def.steps[i].kind.Observe? ==>
      exists snap :: snap in seen && snap.ms == ts && def.steps[i].kind.condition(snap).Yes?
  }

  ghost predicate EventObserved(def: Option<FlowDef>, seen: set<Snapshot>, e: TraceEvent) {
    e.StepVerified? ==> def.Some? && Observed(def.value, seen, e.step, e.ts)
  }

  ghost predicate AllObserved(def: Option<FlowDef>, seen: set<Snapshot>, v: seq<TraceEvent>) {
    forall e :: e in v ==> EventObserved(def, seen, e)
  }

  /** Every verdict in the trace had been observed when it was appended. */
  ghost predicate HistoryObserved(def: Option<FlowDef>, h: History) {
    match h
    case Empty => true
    case After(past, last) =>
      HistoryObserved(def, past) && (last.Appended? ==> EventObserved(def, Seen(past), last.event))
  }

  function DefOf(flow: Option<Flow>): Option<FlowDef> {
    if flow.Some? then Some(flow.value.def) else None
  }

  /** And every one waiting in the buffer has been observed already. */
  ghost predicate Shown(m: Mid) {
    HistoryObserved(DefOf(m.sys.flow), m.sys.history)
    && AllObserved(DefOf(m.sys.flow), Seen(m.sys.history), m.buffer)
  }

  lemma {:induction false} HistoryKept(def: Option<FlowDef>, h: History, h': History)
    requires Past(h, h') && Trace(h') == Trace(h) && HistoryObserved(def, h)
    ensures HistoryObserved(def, h')
  {
    if h != h' {
      PastTrace(h, h'.past);
      HistoryKept(def, h, h'.past);
    }
  }

  lemma {:induction false} ObservedAtTheTime(def: Option<FlowDef>, h: History, p: History)
    requires HistoryObserved(def, h) && Past(p, h) && p.After? && p.last.Appended?
    ensures EventObserved(def, Seen(p.past), p.last.event)
  {
    if p != h { ObservedAtTheTime(def, h.past, p); }
  }

  // ---------- one flow pass ----------

  /** Verdicts of a pass are about steps whose condition holds on its snapshot; those of a report are about actions. */
  ghost predicate SopObserved(def: FlowDef, snap: Snapshot, events: seq<SopEvent>) {
    forall e :: e in events && e.SopVerified? ==> Observed(def, {snap}, e.step, snap.ms)
  }

  lemma {:induction false} PassEventsObserved(f: Flow, snap: Snapshot, k: nat)
    requires Shaped(f) && UniqueIds(f.def) && k <= |f.steps|
    ensures SopObserved(f.def, snap, PassEvents(f, snap, k))
    decreases k
  {
    if k > 0 {
      PassEventsObserved(f, snap, k - 1);
      forall e | e in PassAt(f, snap, k - 1).events && e.SopVerified?
        ensures Observed(f.def, {snap}, e.step, snap.ms)
      {
        StepObserved(f, snap, k - 1, e);
      }
    }
  }

  lemma StepObserved(f: Flow, snap: Snapshot, i: nat, e: SopEvent)
    requires Shaped(f) && UniqueIds(f.def) && i < |f.steps| && e in PassAt(f, snap, i).events && e.SopVerified?
    ensures Observed(f.def, {snap}, e.step, snap.ms)
  {
    var d := f.def.steps[i];
    assert e.step == d.id && d.kind.Observe? && d.kind.condition(snap).Yes?;
    forall j | 0 <= j < |f.def.steps| && f.def.steps[j].id == e.step ensures j == i {}
  }

  /** Only action steps wait for an outcome. */
  predicate WaitingActs(f: Flow)
    requires Shaped(f)
  {
    forall i :: 0 <= i < |f.steps| && f.steps[i].status.WaitingStep? ==> f.def.steps[i].kind.Act?
  }

  lemma {:induction false} ReportEventsObserved(f: Flow, o: Outcome, snap: Snapshot, k: nat)
    requires Shaped(f) && WaitingActs(f) && UniqueIds(f.def) && k <= |f.steps|
    ensures SopObserved(f.def, snap, ReportEvents(f, o, k))
    decreases k
  {
    if k > 0 {
      ReportEventsObserved(f, o, snap, k - 1);
      forall e | e in ReportStep(f.def.id, f.def.steps[k - 1], f.steps[k - 1], o).1 && e.SopVerified?
        ensures Observed(f.def, {snap}, e.step, snap.ms)
      {
        assert e.step == f.def.steps[k - 1].id && f.def.steps[k - 1].kind.Act?;
        forall j | 0 <= j < |f.def.steps| && f.def.steps[j].id == e.step ensures j == k - 1 {}
      }
    }
  }

  lemma {:induction false} ReportAllObserved(f: Flow, outcomes: seq<Outcome>, snap: Snapshot)
    requires Shaped(f) && WaitingActs(f) && UniqueIds(f.def)
    ensures SopObserved(f.def, snap, ReportAll(f, outcomes).1) && WaitingActs(ReportAll(f, outcomes).0)
    decreases |outcomes|
  {
    if outcomes != [] {
      var n := |outcomes| - 1;
      ReportAllObserved(f, outcomes[..n], snap);
      var g := ReportAll(f, outcomes[..n]).0;
      ReportEventsObserved(g, outcomes[n], snap, |g.steps|);
    }
  }

  /** Whatever a report and a pass on this snapshot call verified. */
  lemma FlowEventsObserved(f: Flow, outcomes: seq<Outcome>, snap: Snapshot)
    requires Sane(f) && UniqueIds(f.def) && NoFailure(f) && forall o :: o in outcomes ==> o.status == Verified
    ensures var (f1, reported) := ReportSpec(f, outcomes);
            && Shaped(f1) && f1.def == f.def
            && SopObserved(f.def, snap, reported) && SopObserved(f.def, snap, ProcessSpec(f1, snap).1)
  {
    forall i | 0 <= i < |f.steps| && f.steps[i].status.WaitingStep? ensures f.def.steps[i].kind.Act? {
      assert StepSane(f, i);
    }
    ReportAllObserved(f, outcomes, snap);
    ReportEffect(f, outcomes);
    var f1 := ReportSpec(f, outcomes).0;
    PassEventsObserved(Begin(f1), snap, |f1.steps|);
  }

  // ---------- a tick under way ----------

  lemma {:induction false} SeenMore(def: FlowDef, seen: set<Snapshot>, more: set<Snapshot>, step: string, ts: nat)
    requires Observed(def, seen, step, ts) && seen <= more
    ensures Observed(def, more, step, ts)
  {
  }

  /** Events told after others, none of them a verdict on a step. */
  lemma QuietShown(m: Mid, n: Mid, events: seq<TraceEvent>)
    requires Ready(m.sys) && Ready(n.sys) && Shown(m) && NoVerdict(events) && Framed(m.sys, n.sys)
    requires n.buffer == m.buffer + events
    ensures Shown(n)
  {
    HistoryKept(DefOf(m.sys.flow), m.sys.history, n.sys.history);
  }

  lemma ProcessedShown(m: Mid, snap: Snapshot)
    requires Ready(m.sys) && m.sys.flow.Some? && Linked(m) && Shown(m) && snap in Seen(m.sys.history)
    ensures Shown(Processed(m, snap).0)
  {
    var f := m.sys.flow.value;
    FlowEventsObserved(f, m.sys.outcomes, snap);
    var (f1, reported) := ReportSpec(f, m.sys.outcomes);
    var sop := reported + ProcessSpec(f1, snap).1;
    var n := Processed(m, snap).0;
    ProcessedFramed(m, snap);
    assert n.buffer == m.buffer + SopTrace(sop, snap.ms);
    SopTraceObserved(f.def, snap, Seen(m.sys.history), sop);
  }

  /** Traced, what a pass called verified on a snapshot has been observed as soon as the snapshot has been seen. */
  lemma SopTraceObserved(def: FlowDef, snap: Snapshot, seen: set<Snapshot>, sop: seq<SopEvent>)
    requires SopObserved(def, snap, sop) && snap in seen
    ensures AllObserved(Some(def), seen, SopTrace(sop, snap.ms))
  {
    forall e | e in SopTrace(sop, snap.ms) && e.StepVerified? ensures Observed(def, seen, e.step, e.ts) {
      var k :| 0 <= k < |sop| && e == SopToTrace(sop[k], snap.ms);
      assert sop[k] in sop && sop[k].SopVerified?;
      SeenMore(def, {snap}, seen, e.step, snap.ms);
    }
  }

  lemma {:induction false} StageShown(m: Mid, requests: seq<StepRequest>, ts: nat)
    requires Ready(m.sys) && m.sys.flow.Some? && Shown(m)
    ensures Shown(StageRequests(m, requests, ts))
    decreases |requests|
  {
    if requests != [] {
      var k := |requests| - 1;
      StageShown(m, requests[..k], ts);
      var n := StageRequests(m, requests[..k], ts);
      var e := ActionRequested(n.sys.nextSeq, ts, requests[k].action, RuntimeActor, n.sys.exec.nextId);
      QuietShown(n, StageRequest(n, requests[k], ts), [e]);
    }
  }

  lemma ObserveShown(setup: Setup, m: Mid, snap: Snapshot, source: EventSource)
    requires Ready(m.sys) && Shown(m)
    ensures Shown(ObserveSpec(setup, m, snap, source))
  {
    var a := ObserveSpec(setup, m, snap, source);
    var events := Ingest(setup, m.sys.last, snap, source) + EvaluateSpec(setup, m.sys.phase, m.sys.last, snap).1;
    assert a.buffer == m.buffer + events;
    QuietShown(m, a, events);
  }

  lemma ActionShown(setup: Setup, m: Mid, snap: Snapshot)
    requires Ready(m.sys) && Shown(m)
    ensures Shown(ActionSpec(setup, m, snap))
  {
    var t := Passes(setup.Rules(), m.sys.exec.pending, snap, m.sys.history);
    PassesFrame(setup.Rules(), m.sys.exec.pending, snap, m.sys.history);
    QuietShown(m, ActionSpec(setup, m, snap), t.events);
  }

  lemma SnapshotShown(setup: Setup, m: Mid, snap: Snapshot, source: EventSource)
    requires Ready(m.sys) && Linked(m) && Shown(m) && snap in Seen(m.sys.history)
    ensures Shown(SnapshotSpec(setup, m, snap, source))
  {
    var a := ObserveSpec(setup, m, snap, source);
    ObserveShown(setup, m, snap, source);
    ObserveLinked(setup, m, snap, source);
    var b := ActionSpec(setup, a, snap);
    ActionShown(setup, a, snap);
    ActionLinked(setup, a, snap);
    PassesFrame(setup.Rules(), a.sys.exec.pending, snap, a.sys.history);
    if b.sys.flow.Some? {
      ProcessedShown(b, snap);
      StageShown(Processed(b, snap).0, Processed(b, snap).1, snap.ms);
    }
  }

  lemma {:induction false} SnapshotsShown(setup: Setup, m: Mid, snaps: seq<Snapshot>, source: EventSource)
    requires Ready(m.sys) && Linked(m) && Shown(m) && forall s :: s in snaps ==> s in Seen(m.sys.history)
    ensures Shown(SnapshotsSpec(setup, m, snaps, source))
    decreases |snaps|
  {
    if snaps != [] {
      var k := |snaps| - 1;
      assert snaps[k] in snaps;
      SnapshotsShown(setup, m, snaps[..k], source);
      SnapshotsLinked(setup, m, snaps[..k], source);
      SnapshotsFramed(setup, m, snaps[..k], source);
      SnapshotShown(setup, SnapshotsSpec(setup, m, snaps[..k], source), snaps[k], source);
    }
  }

  // ---------- every run ----------

  /** What the trace says stays shown, also when an append fails. */
  lemma {:induction false} AppendAllShown(setup: Setup, s: Sys, events: seq<TraceEvent>)
    requires Shown(Mid(s, events))
    ensures var t := AppendAll(setup, s, events);
            t.flow == s.flow && HistoryObserved(DefOf(t.flow), t.history)
    decreases |events|
  {
    if events != [] && s.poisoned.None? {
      var t := AppendOne(setup, s, events[0]);
      assert EventObserved(DefOf(s.flow), Seen(s.history), events[0]);
      assert forall e :: e in events[1..] ==> e in events;
      AppendAllShown(setup, t, events[1..]);
    }
  }

  ghost predicate RunShown(s: Sys) {
    HistoryObserved(DefOf(s.flow), s.history)
  }

  lemma TickShown(setup: Setup, s: Sys, snaps: seq<Snapshot>, source: EventSource)
    requires Ready(s) && RunLinked(s) && s.poisoned.None? && RunShown(s)
    requires forall x :: x in snaps ==> x in Seen(s.history)
    ensures RunShown(TickBody(setup, s, snaps, source))
  {
    var m := SnapshotsSpec(setup, Mid(s, []), snaps, source);
    SnapshotsShown(setup, Mid(s, []), snaps, source);
    AppendAllShown(setup, m.sys, m.buffer);
  }

  /** Before a flow was started no step was called verified, so any flow will do. */
  lemma {:induction false} NoVerdictsYet(h: History, flow: Option<Flow>)
    requires HistoryObserved(None, h)
    ensures HistoryObserved(DefOf(flow), h)
  {
    if h.After? { NoVerdictsYet(h.past, flow); }
  }

  /** Calls other than a tick append at most an event that is no verdict. */
  lemma OtherCallShown(setup: Setup, s: Sys, call: Call)
    requires Ready(s) && RunShown(s) && !call.TickCall?
    ensures RunShown(Do(setup, s, call))
  {
    if call.StartFlowCall? && s.flow.None? { NoVerdictsYet(s.history, Do(setup, s, call).flow); }
  }

  lemma CallShown(setup: Setup, s: Sys, call: Call)
    requires Ready(s) && RunLinked(s) && RunShown(s)
    ensures RunShown(Do(setup, s, call))
  {
    if !call.TickCall? {
      OtherCallShown(setup, s, call);
    } else if s.poisoned.None? && setup.env.connected(s.history) {
      var answer := setup.env.poll(s.history);
      var polled := s.(history := After(s.history, Polled(answer)));
      NeutralLinked(s, polled);
      if answer.Ok? { TickShown(setup, polled, answer.value, call.source); }
    }
  }

  lemma {:induction false} RunKeepsShown(setup: Setup, calls: seq<Call>)
    requires UniqueFlows(calls)
    ensures RunShown(Run(setup, calls))
    decreases |calls|
  {
    if calls != [] {
      var k := |calls| - 1;
      RunKeepsShown(setup, calls[..k]);
      RunKeepsLink(setup, calls[..k]);
      CallShown(setup, Run(setup, calls[..k]), calls[k]);
    }
  }

  /** In every run, a StepVerified of an observation step is no invention: when it is appended, a snapshot of the
      event's own time has been polled before that satisfies the step's condition. */
  lemma ObservationsAreBacked(setup: Setup, calls: seq<Call>, p: History, i: nat)
    requires UniqueFlows(calls)
    requires Past(p, Run(setup, calls).history) && p.After? && p.last.Appended? && p.last.event.StepVerified?
    ensures Run(setup, calls).flow.Some?
    ensures var steps, e := Run(setup, calls).flow.value.def.steps, p.last.event;
            i < |steps| && steps[i].id == e.step && steps[i].kind.Observe? ==>
              exists snap :: snap in Seen(p.past) && snap.ms == e.ts && steps[i].kind.condition(snap).Yes?
  {
    RunKeepsShown(setup, calls);
    var s := Run(setup, calls);
    ObservedAtTheTime(DefOf(s.flow), s.history, p);
    assert Observed(s.flow.value.def, Seen(p.past), p.last.event.step, p.last.event.ts);
  }
}
