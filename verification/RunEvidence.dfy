/** What stands behind the verdicts on actions in a run: a polled snapshot that confirms a verified one, and the
    exchanges with the adapter that a refusal or a failed write came from. */
module RunEvidence {
  import opened Actions
  import opened History
  import opened Executor
  import opened Lifecycle
  import opened ExecutorLaws
  import opened Flow
  import opened RuntimeModel
  import opened RuntimeLaws
  import opened Grounds
  import FlowLaws
  import RuntimeFrame

  /** Some polled snapshot of this time confirms the action whose request the trace holds under this id. */
  ghost predicate Backed(setup: Setup, h: History, id: ActionId, ts: nat) {
    exists snap, action :: snap in Seen(h) && snap.ms == ts
                           && Confirms(setup.catalog, action, snap) && RequestTraced(h, id, action)
  }

  /** A refusal or a failed write is explained for the action that was requested under its id. */
  ghost predicate Reasoned(setup: Setup, h: History, e: TraceEvent)
    requires e.IsAction()
  {
    exists action :: RequestTraced(h, e.id, action) && Explained(setup.catalog, h, action, e)
  }

  ghost predicate Grounded(setup: Setup, h: History, e: TraceEvent) {
    && (e.ActionVerified? ==> Backed(setup, h, e.id, e.ts))
    && (e.ActionRejected? || e.ActionFailed? ==> Reasoned(setup, h, e))
  }

  predicate IsVerdict(e: TraceEvent) {
    e.ActionVerified? || e.ActionRejected? || e.ActionFailed?
  }

  ghost predicate EventsBacked(setup: Setup, h: History, events: seq<TraceEvent>) {
    forall e :: e in events ==> Grounded(setup, h, e)
  }

  /** Every verdict in the trace was grounded when it was appended. */
  ghost predicate HistoryBacked(setup: Setup, h: History) {
    match h
    case Empty => true
    case After(past, last) =>
      HistoryBacked(setup, past) && (last.Appended? ==> Grounded(setup, past, last.event))
  }

  /** And every one waiting in the buffer is backed already. */
  ghost predicate AllBacked(setup: Setup, m: Mid) {
    && HistoryBacked(setup, m.sys.history) && EventsBacked(setup, m.sys.history, m.buffer)
    && AskedKnown(setup.catalog, m.sys.history)
  }

  lemma {:induction false} HistoryKept(setup: Setup, h: History, h': History)
    requires Past(h, h') && Trace(h') == Trace(h) && HistoryBacked(setup, h)
    ensures HistoryBacked(setup, h')
  {
    if h != h' {
      PastTrace(h, h'.past);
      HistoryKept(setup, h, h'.past);
    }
  }

  lemma {:induction false} GroundedAtTheTime(setup: Setup, h: History, p: History)
    requires HistoryBacked(setup, h) && Past(p, h) && p.After? && p.last.Appended?
    ensures Grounded(setup, p.past, p.last.event)
  {
    if p != h { GroundedAtTheTime(setup, h.past, p); }
  }

  lemma {:induction false} BackedKept(setup: Setup, h: History, h': History, id: ActionId, ts: nat)
    requires Past(h, h') && Backed(setup, h, id, ts)
    ensures Backed(setup, h', id, ts)
  {
    PastTrace(h, h');
    var snap, action :| snap in Seen(h) && snap.ms == ts
                        && Confirms(setup.catalog, action, snap) && RequestTraced(h, id, action);
    RequestKept(h, h', id, action);
  }

  lemma {:induction false} EventsKept(setup: Setup, h: History, h': History, events: seq<TraceEvent>)
    requires Past(h, h') && EventsBacked(setup, h, events)
    ensures EventsBacked(setup, h', events)
  {
    forall e | e in events ensures Grounded(setup, h', e) {
      assert Grounded(setup, h, e);
      if e.ActionVerified? { BackedKept(setup, h, h', e.id, e.ts); }
      if e.ActionRejected? || e.ActionFailed? { ReasonedKept(setup, h, h', e); }
    }
  }

  lemma ReasonedKept(setup: Setup, h: History, h': History, e: TraceEvent)
    requires Past(h, h') && e.IsAction() && Reasoned(setup, h, e)
    ensures Reasoned(setup, h', e)
  {
    var action :| RequestTraced(h, e.id, action) && Explained(setup.catalog, h, action, e);
    RequestKept(h, h', e.id, action);
    ExplainedStays(setup.catalog, h, h', action, e);
  }

  lemma RequestKept(h: History, h': History, id: ActionId, action: CockpitAction)
    requires Past(h, h') && RequestTraced(h, id, action)
    ensures RequestTraced(h', id, action)
  {
    PastTrace(h, h');
    var e :| e in Trace(h) && e.ActionRequested? && e.id == id && e.action == action;
    assert e in Trace(h');
  }

  /** Buffering events without verifications. */
  lemma QuietEventsBacked(setup: Setup, m: Mid, n: Mid, events: seq<TraceEvent>)
    requires AllBacked(setup, m) && n.sys.history == m.sys.history
    requires n.buffer == m.buffer + events && forall e :: e in events ==> !IsVerdict(e)
    ensures AllBacked(setup, n)
  {
  }

  // ---------- the advance ----------

  /** A verification among events that end uncorrupted: the life was open before and is confirmed after. */
  lemma {:induction false} VerifiedConfirms(l: Life, events: seq<TraceEvent>, id: ActionId, k: nat)
    requires k < |events| && events[k].ActionVerified? && events[k].id == id && !LifeFrom(l, events, id).Corrupt?
    ensures LifeFrom(l, events, id).Confirmed? && !l.Confirmed?
    decreases |events|
  {
    var l' := LifeStep(l, events[0], id);
    if k > 0 {
      if l'.Corrupt? { CorruptStays(events[1..], id); }
      VerifiedConfirms(l', events[1..], id, k - 1);
      if l.Confirmed? && Concerns(events[0], id) { CorruptStays(events[1..], id); }
    } else {
      if l'.Corrupt? { CorruptStays(events[1..], id); }
      ConfirmedStays(events[1..], id);
    }
  }

  lemma {:induction false} ConfirmedStays(events: seq<TraceEvent>, id: ActionId)
    requires !LifeFrom(Confirmed, events, id).Corrupt?
    ensures LifeFrom(Confirmed, events, id).Confirmed?
    decreases |events|
  {
    if events != [] {
      if LifeStep(Confirmed, events[0], id).Corrupt? { CorruptStays(events[1..], id); }
      ConfirmedStays(events[1..], id);
    }
  }

  lemma PendingWasTraced(setup: Setup, m: Mid, id: ActionId)
    requires MidLaw(setup, m) && Find(m.sys.exec.pending, id).Some?
    ensures RequestTraced(m.sys.history, id, Find(m.sys.exec.pending, id).value.action)
  {
    assert IdLaw(setup, m, id);
    FindMember(m.sys.exec.pending, id);
    CustodyMeaning(setup.catalog, m.sys.history, id);
  }

  lemma ActionVerifiedBacked(setup: Setup, m: Mid, snap: Snapshot, e: TraceEvent)
    requires Ready(m.sys) && MidLaw(setup, m) && snap in Seen(m.sys.history)
    requires e in Passes(setup.Rules(), m.sys.exec.pending, snap, m.sys.history).events && e.ActionVerified?
    ensures Backed(setup, m.sys.history, e.id, e.ts)
  {
    var rules, x, h := setup.Rules(), m.sys.exec, m.sys.history;
    var t := Passes(rules, x.pending, snap, h);
    var n := ActionSpec(setup, m, snap);
    var l := MidLife(m, e.id);
    PendingConsistent(setup, m, snap);
    assert IdLaw(setup, m, e.id);
    PassesLaw(rules, x.pending, snap, h, 0, Bar(x), e.id, l);
    PassesFrame(rules, x.pending, snap, h);
    ActionIdLaw(setup, m, snap, e.id);
    LifeConcat(LifeIn(Trace(h), e.id), m.buffer, t.events, e.id);
    var k :| 0 <= k < |t.events| && t.events[k] == e;
    FindMember(n.sys.exec.pending, e.id);
    VerifiedConfirms(l, t.events, e.id, k);
    PendingWasTraced(setup, m, e.id);
  }

  lemma ActionReasoned(setup: Setup, m: Mid, snap: Snapshot, e: TraceEvent)
    requires Ready(m.sys) && MidLaw(setup, m) && e.IsAction()
    requires e in Passes(setup.Rules(), m.sys.exec.pending, snap, m.sys.history).events
    ensures Reasoned(setup, Passes(setup.Rules(), m.sys.exec.pending, snap, m.sys.history).history, e)
  {
    var q := m.sys.exec.pending;
    var t := Passes(setup.Rules(), q, snap, m.sys.history);
    PassesExplained(setup.Rules(), q, snap, m.sys.history);
    assert ExplainedBy(setup.catalog, t.history, q, e);
    var r :| r in q && r.id == e.id && Explained(setup.catalog, t.history, r.action, e);
    var i :| 0 <= i < |q| && q[i] == r;
    FindIsUnique(q, 0, Bar(m.sys.exec), i);
    PendingWasTraced(setup, m, e.id);
    RequestKept(m.sys.history, t.history, e.id, r.action);
  }

  lemma ActionBacked(setup: Setup, m: Mid, snap: Snapshot)
    requires Ready(m.sys) && MidLaw(setup, m) && AllBacked(setup, m) && snap in Seen(m.sys.history)
    ensures AllBacked(setup, ActionSpec(setup, m, snap))
  {
    var t := Passes(setup.Rules(), m.sys.exec.pending, snap, m.sys.history);
    PassesFrame(setup.Rules(), m.sys.exec.pending, snap, m.sys.history);
    PassesExplained(setup.Rules(), m.sys.exec.pending, snap, m.sys.history);
    forall e | e in t.events ensures Grounded(setup, t.history, e) {
      if e.ActionVerified? {
        ActionVerifiedBacked(setup, m, snap, e);
        BackedKept(setup, m.sys.history, t.history, e.id, e.ts);
      }
      if e.ActionRejected? || e.ActionFailed? { ActionReasoned(setup, m, snap, e); }
    }
    EventsKept(setup, m.sys.history, t.history, m.buffer);
    HistoryKept(setup, m.sys.history, t.history);
  }

  // ---------- the rest of a tick ----------

  lemma {:induction false} StageBacked(setup: Setup, m: Mid, requests: seq<StepRequest>, ts: nat)
    requires Ready(m.sys) && m.sys.flow.Some? && AllBacked(setup, m)
    ensures AllBacked(setup, StageRequests(m, requests, ts))
    ensures StageRequests(m, requests, ts).sys.history == m.sys.history
    decreases |requests|
  {
    if requests != [] {
      var k := |requests| - 1;
      StageBacked(setup, m, requests[..k], ts);
      var n := StageRequests(m, requests[..k], ts);
      var e := ActionRequested(n.sys.nextSeq, ts, requests[k].action, RuntimeActor, n.sys.exec.nextId);
      QuietEventsBacked(setup, n, StageRequest(n, requests[k], ts), [e]);
    }
  }

  lemma FlowBacked(setup: Setup, m: Mid, snap: Snapshot)
    requires Ready(m.sys) && AllBacked(setup, m)
    ensures AllBacked(setup, FlowSpec(m, snap)) && FlowSpec(m, snap).sys.history == m.sys.history
  {
    if m.sys.flow.Some? {
      var sop := ProcessedEvents(m, snap);
      var (n, requests) := Processed(m, snap);
      QuietEventsBacked(setup, m, n, SopTrace(sop, snap.ms));
      StageBacked(setup, n, requests, snap.ms);
    }
  }

  lemma ObserveBacked(setup: Setup, m: Mid, snap: Snapshot, source: EventSource)
    requires Ready(m.sys) && AllBacked(setup, m)
    ensures AllBacked(setup, ObserveSpec(setup, m, snap, source))
  {
    var a := ObserveSpec(setup, m, snap, source);
    var events := Ingest(setup, m.sys.last, snap, source) + EvaluateSpec(setup, m.sys.phase, m.sys.last, snap).1;
    assert a.buffer == m.buffer + events;
    QuietEventsBacked(setup, m, a, events);
  }

  lemma SnapshotBacked(setup: Setup, m: Mid, snap: Snapshot, source: EventSource)
    requires Ready(m.sys) && MidLaw(setup, m) && AllBacked(setup, m) && snap in Seen(m.sys.history)
    ensures AllBacked(setup, SnapshotSpec(setup, m, snap, source))
  {
    var a := ObserveSpec(setup, m, snap, source);
    ObserveBacked(setup, m, snap, source);
    ObserveLaw(setup, m, snap, source);
    ActionBacked(setup, a, snap);
    FlowBacked(setup, ActionSpec(setup, a, snap), snap);
  }

  lemma {:induction false} SnapshotsBacked(setup: Setup, m: Mid, snaps: seq<Snapshot>, source: EventSource)
    requires Ready(m.sys) && MidLaw(setup, m) && AllBacked(setup, m)
    requires forall s :: s in snaps ==> s in Seen(m.sys.history)
    ensures AllBacked(setup, SnapshotsSpec(setup, m, snaps, source))
    decreases |snaps|
  {
    if snaps != [] {
      var k := |snaps| - 1;
      SnapshotsBacked(setup, m, snaps[..k], source);
      SnapshotsLaw(setup, m, snaps[..k], source);
      RuntimeFrame.SnapshotsFramed(setup, m, snaps[..k], source);
      assert snaps[k] in snaps;
      SnapshotBacked(setup, SnapshotsSpec(setup, m, snaps[..k], source), snaps[k], source);
    }
  }

  lemma AppendBacked(setup: Setup, s: Sys, events: seq<TraceEvent>)
    requires events != [] && AllBacked(setup, Mid(s, events))
    ensures AllBacked(setup, Mid(AppendOne(setup, s, events[0]), events[1..]))
  {
    var t := AppendOne(setup, s, events[0]);
    EventsKept(setup, s.history, t.history, events);
    assert events[0] in events;
    GroundedRestamped(setup, s.history, events[0], s.nextSeq);
    assert forall e :: e in events[1..] ==> e in events;
  }

  /** Numbers do not matter. */
  lemma GroundedRestamped(setup: Setup, h: History, e: TraceEvent, n: nat)
    requires Grounded(setup, h, e)
    ensures Grounded(setup, h, e.WithSeq(n))
  {
    if e.ActionRejected? || e.ActionFailed? {
      var action :| RequestTraced(h, e.id, action) && Explained(setup.catalog, h, action, e);
      assert Explained(setup.catalog, h, action, e.WithSeq(n));
    }
  }

  lemma {:induction false} AppendAllBacked(setup: Setup, s: Sys, events: seq<TraceEvent>)
    requires AllBacked(setup, Mid(s, events))
    ensures AllBacked(setup, Mid(AppendAll(setup, s, events), []))
    decreases |events|
  {
    if events != [] && s.poisoned.None? {
      AppendBacked(setup, s, events);
      AppendAllBacked(setup, AppendOne(setup, s, events[0]), events[1..]);
    }
  }

  // ---------- every run ----------

  lemma AppendOneBacked(setup: Setup, s: Sys, e: TraceEvent)
    requires AllBacked(setup, Mid(s, [])) && !IsVerdict(e)
    ensures AllBacked(setup, Mid(AppendOne(setup, s, e), []))
  {
    AppendBacked(setup, s, [e]);
  }

  lemma NeutralBacked(setup: Setup, s: Sys, t: Sys, e: Effect)
    requires AllBacked(setup, Mid(s, [])) && t.history == After(s.history, e) && !e.Appended? && !e.Asked?
    ensures AllBacked(setup, Mid(t, []))
  {
  }

  lemma TickBacked(setup: Setup, s: Sys, snaps: seq<Snapshot>, source: EventSource)
    requires Ready(s) && RunLaw(setup, s) && s.poisoned.None? && AllBacked(setup, Mid(s, []))
    requires forall x :: x in snaps ==> x in Seen(s.history)
    ensures AllBacked(setup, Mid(TickBody(setup, s, snaps, source), []))
  {
    var m := SnapshotsSpec(setup, Mid(s, []), snaps, source);
    SnapshotsBacked(setup, Mid(s, []), snaps, source);
    AppendAllBacked(setup, m.sys, m.buffer);
  }

  lemma CallBacked(setup: Setup, s: Sys, call: Call)
    requires Ready(s) && RunLaw(setup, s) && AllBacked(setup, Mid(s, []))
    ensures AllBacked(setup, Mid(Do(setup, s, call), []))
  {
    if s.poisoned.None? {
      match call
      case StartCall =>
        var c := s.(history := After(s.history, Connected(setup.env.connect(s.history))));
        NeutralBacked(setup, s, c, Connected(setup.env.connect(s.history)));
        AppendOneBacked(setup, c, SessionStart(PLACEHOLDER, setup.sessionId));
      case StartFlowCall(def) =>
      case SubmitCall(action, actor, at) =>
        AppendOneBacked(setup, s.(exec := SubmitSpec(s.exec, action, actor, at)),
                        ActionRequested(PLACEHOLDER, at, action, actor, s.exec.nextId));
      case TickCall(source) =>
        if setup.env.connected(s.history) {
          var answer := setup.env.poll(s.history);
          var polled := s.(history := After(s.history, Polled(answer)));
          NeutralBacked(setup, s, polled, Polled(answer));
          NeutralLaw(setup, s, polled, Polled(answer));
          if answer.Ok? { TickBacked(setup, polled, answer.value, source); }
        }
      case TakeCall =>
      case FinishCall =>
        AppendOneBacked(setup, s, SessionEnd(PLACEHOLDER));
        var a := AppendOne(setup, s, SessionEnd(PLACEHOLDER));
        var closed := Closed(setup.env.close(a.history));
        NeutralBacked(setup, a, a.(history := After(a.history, closed)), closed);
    }
  }

  lemma {:induction false} RunBacked(setup: Setup, calls: seq<Call>)
    ensures AllBacked(setup, Mid(Run(setup, calls), []))
    decreases |calls|
  {
    if calls != [] {
      var k := |calls| - 1;
      RunBacked(setup, calls[..k]);
      RunKeepsLaw(setup, calls[..k]);
      CallBacked(setup, Run(setup, calls[..k]), calls[k]);
    }
  }

  /** Success is an observed post-condition: whenever a run appends an ActionVerified, a snapshot of the event's own
      time has been polled before on which the catalog's verifier confirms the action, over channels that are all fresh
      or unannotated, and the action's request is in the trace already. */
  lemma EvidenceInEveryRun(setup: Setup, calls: seq<Call>, p: History)
    requires Past(p, Run(setup, calls).history) && p.After? && p.last.Appended? && p.last.event.ActionVerified?
    ensures var e := p.last.event;
            exists snap, action :: snap in Seen(p.past) && snap.ms == e.ts
                                   && Confirms(setup.catalog, action, snap) && RequestTraced(p.past, e.id, action)
  {
    RunBacked(setup, calls);
    GroundedAtTheTime(setup, Run(setup, calls).history, p);
  }
}
