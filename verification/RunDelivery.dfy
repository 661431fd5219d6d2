/** How a verified action reaches its step: the tick that traces the verification puts its outcome on the way, and the
    next successful poll decides what becomes of it. */
module RunDelivery {
  import opened Actions
  import opened History
  import opened Executor
  import opened Lifecycle
  import opened ExecutorLaws
  import opened Flow
  import opened RuntimeModel
  import opened RuntimeLaws
  import opened RunFlow
  import opened RunStall
  import RunEvidence
  import RuntimeFrame
  import FlowLaws

  // ---------- lives turn confirmed by verifications only ----------

  predicate NoVerification(events: seq<TraceEvent>) {
    forall e :: e in events ==> !e.ActionVerified?
  }

  lemma {:induction false} ConfirmedBefore(l: Life, events: seq<TraceEvent>, id: ActionId)
    requires NoVerification(events) && LifeFrom(l, events, id).Confirmed?
    ensures l.Confirmed?
    decreases |events|
  {
    if events != [] {
      assert events[0] in events;
      ConfirmedBefore(LifeStep(l, events[0], id), events[1..], id);
    }
  }

  // ---------- a tick under way ----------

  /** If the id was not confirmed before the tick and is now, its outcome has been recorded. */
  ghost predicate OnItsWay(m: Mid, id: ActionId) {
    MidLife(m, id).Confirmed? ==> Outcome(id, Verified) in m.sys.exec.completed
  }

  /** Buffering events without verifications. */
  lemma QuietOnItsWay(m: Mid, n: Mid, events: seq<TraceEvent>, id: ActionId)
    requires OnItsWay(m, id) && NoVerification(events)
    requires n.buffer == m.buffer + events && Trace(n.sys.history) == Trace(m.sys.history)
    requires n.sys.exec.completed == m.sys.exec.completed
    ensures OnItsWay(n, id)
  {
    LifeConcat(LifeIn(Trace(m.sys.history), id), m.buffer, events, id);
    if MidLife(n, id).Confirmed? { ConfirmedBefore(MidLife(m, id), events, id); }
  }

  lemma ActionOnItsWay(setup: Setup, m: Mid, snap: Snapshot, id: ActionId)
    requires Ready(m.sys) && MidLaw(setup, m) && OnItsWay(m, id)
    ensures OnItsWay(ActionSpec(setup, m, snap), id)
  {
    var rules, x, h := setup.Rules(), m.sys.exec, m.sys.history;
    var t := Passes(rules, x.pending, snap, h);
    PendingConsistent(setup, m, snap);
    assert IdLaw(setup, m, id);
    PassesLaw(rules, x.pending, snap, h, 0, Bar(x), id, MidLife(m, id));
    PassesFrame(rules, x.pending, snap, h);
    LifeConcat(LifeIn(Trace(h), id), m.buffer, t.events, id);
  }

  lemma {:induction false} StageOnItsWay(m: Mid, requests: seq<StepRequest>, ts: nat, id: ActionId)
    requires Ready(m.sys) && m.sys.flow.Some? && OnItsWay(m, id)
    ensures OnItsWay(StageRequests(m, requests, ts), id)
    decreases |requests|
  {
    if requests != [] {
      var k := |requests| - 1;
      StageOnItsWay(m, requests[..k], ts, id);
      var n := StageRequests(m, requests[..k], ts);
      var e := ActionRequested(n.sys.nextSeq, ts, requests[k].action, RuntimeActor, n.sys.exec.nextId);
      QuietOnItsWay(n, StageRequest(n, requests[k], ts), [e], id);
    }
  }

  lemma SnapshotOnItsWay(setup: Setup, m: Mid, snap: Snapshot, source: EventSource, id: ActionId)
    requires Ready(m.sys) && MidLaw(setup, m) && OnItsWay(m, id)
    ensures OnItsWay(SnapshotSpec(setup, m, snap, source), id)
  {
    var a := ObserveSpec(setup, m, snap, source);
    var seen := Ingest(setup, m.sys.last, snap, source) + EvaluateSpec(setup, m.sys.phase, m.sys.last, snap).1;
    assert a.buffer == m.buffer + seen;
    QuietOnItsWay(m, a, seen, id);
    ObserveLaw(setup, m, snap, source);
    ActionOnItsWay(setup, a, snap, id);
    FlowOnItsWay(ActionSpec(setup, a, snap), snap, id);
  }

  lemma FlowOnItsWay(b: Mid, snap: Snapshot, id: ActionId)
    requires Ready(b.sys) && OnItsWay(b, id)
    ensures OnItsWay(FlowSpec(b, snap), id)
  {
    if b.sys.flow.Some? {
      var sop := ProcessedEvents(b, snap);
      var (n, requests) := Processed(b, snap);
      QuietOnItsWay(b, n, SopTrace(sop, snap.ms), id);
      StageOnItsWay(n, requests, snap.ms, id);
    }
  }

  lemma {:induction false} SnapshotsOnItsWay(
      setup: Setup, m: Mid, snaps: seq<Snapshot>, source: EventSource, id: ActionId)
    requires Ready(m.sys) && MidLaw(setup, m) && OnItsWay(m, id)
    ensures OnItsWay(SnapshotsSpec(setup, m, snaps, source), id)
    decreases |snaps|
  {
    if snaps != [] {
      var k := |snaps| - 1;
      SnapshotsOnItsWay(setup, m, snaps[..k], source, id);
      SnapshotsLaw(setup, m, snaps[..k], source);
      SnapshotOnItsWay(setup, SnapshotsSpec(setup, m, snaps[..k], source), snaps[k], source, id);
    }
  }

  // ---------- the appends ----------

  lemma AppendLife(setup: Setup, s: Sys, events: seq<TraceEvent>, id: ActionId)
    requires events != [] && AppendOne(setup, s, events[0]).poisoned.None?
    ensures MidLife(Mid(AppendOne(setup, s, events[0]), events[1..]), id) == MidLife(Mid(s, events), id)
  {
    var e := events[0].WithSeq(s.nextSeq);
    LifeSnoc(NotRequested, Trace(s.history), e, id);
    assert LifeStep(LifeIn(Trace(s.history), id), e, id) == LifeStep(LifeIn(Trace(s.history), id), events[0], id);
  }

  /** Appended in full, the buffer's events have become the trace's. */
  lemma {:induction false} AppendedLife(setup: Setup, s: Sys, events: seq<TraceEvent>, id: ActionId)
    requires s.poisoned.None?
    ensures var t := AppendAll(setup, s, events);
            && t.exec == s.exec && t.flow == s.flow
            && (t.poisoned.None? ==> LifeIn(Trace(t.history), id) == MidLife(Mid(s, events), id))
    decreases |events|
  {
    if events != [] {
      var t := AppendOne(setup, s, events[0]);
      if t.poisoned.None? {
        AppendLife(setup, s, events, id);
        AppendedLife(setup, t, events[1..], id);
      }
    }
  }

  /** A tick after which an id is confirmed that was not before has its outcome among those to be reported. */
  lemma TickPutsOnItsWay(setup: Setup, s: Sys, snaps: seq<Snapshot>, source: EventSource, id: ActionId)
    requires Ready(s) && RunLaw(setup, s) && s.poisoned.None? && s.flow.Some?
    requires !LifeIn(Trace(s.history), id).Confirmed?
    requires var t := TickBody(setup, s, snaps, source);
             t.poisoned.None? && LifeIn(Trace(t.history), id).Confirmed?
    ensures Outcome(id, Verified) in TickBody(setup, s, snaps, source).outcomes
  {
    var m := SnapshotsSpec(setup, Mid(s, []), snaps, source);
    SnapshotsOnItsWay(setup, Mid(s, []), snaps, source, id);
    RuntimeFrame.SnapshotsFramed(setup, Mid(s, []), snaps, source);
    AppendedLife(setup, m.sys, m.buffer, id);
  }

  // ---------- runs ----------

  /** The event at `k` of the longer trace is the verification of the id, and new. */
  ghost predicate NewlyVerified(s: Sys, t: Sys, id: ActionId, k: nat) {
    && |Trace(s.history)| <= k < |Trace(t.history)|
    && Trace(t.history)[k].ActionVerified? && Trace(t.history)[k].id == id
  }

  lemma NewlyConfirmed(setup: Setup, s: Sys, t: Sys, id: ActionId, k: nat)
    requires RunLaw(setup, t) && Trace(s.history) <= Trace(t.history) && NewlyVerified(s, t, id, k)
    ensures !LifeIn(Trace(s.history), id).Confirmed? && LifeIn(Trace(t.history), id).Confirmed?
  {
    var v, w := Trace(s.history), Trace(t.history);
    var more := w[|v|..];
    assert w == v + more && more[k - |v|] == w[k];
    assert Sound(setup, t.history, id);
    LifeConcat(NotRequested, v, more, id);
    RunEvidence.VerifiedConfirms(LifeIn(v, id), more, id, k - |v|);
  }

  lemma TickGrowsTrace(setup: Setup, s: Sys, source: EventSource)
    requires Ready(s)
    ensures Trace(s.history) <= Trace(TickSpec(setup, s, source).history)
  {
    if s.poisoned.None? && setup.env.connected(s.history) && setup.env.poll(s.history).Ok? {
      var answer := setup.env.poll(s.history);
      var polled := s.(history := After(s.history, Polled(answer)));
      var m := SnapshotsSpec(setup, Mid(polled, []), answer.value, source);
      RuntimeFrame.SnapshotsFramed(setup, Mid(polled, []), answer.value, source);
      AppendGrows(setup, m.sys, m.buffer);
    }
  }

  lemma {:induction false} AppendGrows(setup: Setup, s: Sys, events: seq<TraceEvent>)
    ensures Trace(s.history) <= Trace(AppendAll(setup, s, events).history)
    decreases |events|
  {
    if events != [] && s.poisoned.None? { AppendGrows(setup, AppendOne(setup, s, events[0]), events[1..]); }
  }

  /** In every run with a flow, the tick that traces an ActionVerified puts its outcome on the way to the flow. */
  lemma VerificationIsReported(setup: Setup, calls: seq<Call>, source: EventSource, id: ActionId, k: nat)
    requires Run(setup, calls).flow.Some? && Run(setup, calls + [TickCall(source)]).poisoned.None?
    requires NewlyVerified(Run(setup, calls), Run(setup, calls + [TickCall(source)]), id, k)
    ensures Outcome(id, Verified) in Run(setup, calls + [TickCall(source)]).outcomes
  {
    var s, t := Run(setup, calls), Run(setup, calls + [TickCall(source)]);
    RunSnoc(setup, calls, TickCall(source));
    TickGrowsTrace(setup, s, source);
    RunKeepsLaw(setup, calls);
    RunKeepsLaw(setup, calls + [TickCall(source)]);
    NewlyConfirmed(setup, s, t, id, k);
    assert s.poisoned.None? && setup.env.connected(s.history);
    var answer := setup.env.poll(s.history);
    var polled := s.(history := After(s.history, Polled(answer)));
    assert answer.Ok?;
    NeutralLaw(setup, s, polled, Polled(answer));
    TickPutsOnItsWay(setup, polled, answer.value, source, id);
  }

  // ---------- until the next successful poll ----------

  /** How many polls have succeeded. */
  function Polls(h: History): nat {
    match h
    case Empty => 0
    case After(past, last) => Polls(past) + if last.Polled? && last.answer.Ok? then 1 else 0
  }

  lemma {:induction false} PollsGrow(p: History, h: History)
    requires Past(p, h)
    ensures Polls(p) <= Polls(h)
  {
    if p != h { PollsGrow(p, h.past); }
  }

  lemma {:induction false} AppendsPast(setup: Setup, s: Sys, events: seq<TraceEvent>)
    ensures Past(s.history, AppendAll(setup, s, events).history)
    decreases |events|
  {
    if events != [] && s.poisoned.None? {
      var t := AppendOne(setup, s, events[0]);
      AppendsPast(setup, t, events[1..]);
      PastTransitive(s.history, t.history, AppendAll(setup, s, events).history);
    }
  }

  lemma TickPast(setup: Setup, s: Sys, snaps: seq<Snapshot>, source: EventSource)
    requires Ready(s) && s.poisoned.None?
    ensures Past(s.history, TickBody(setup, s, snaps, source).history)
  {
    var m := SnapshotsSpec(setup, Mid(s, []), snaps, source);
    RuntimeFrame.SnapshotsFramed(setup, Mid(s, []), snaps, source);
    AppendsPast(setup, m.sys, m.buffer);
    PastTransitive(s.history, m.sys.history, AppendAll(setup, m.sys, m.buffer).history);
  }

  /** A call without a successful poll leaves the flow and its outcomes as they are, and one with it is counted. */
  lemma IdleCall(setup: Setup, s: Sys, call: Call)
    requires Ready(s) && s.flow.Some?
    ensures var t := Do(setup, s, call);
            && Polls(s.history) <= Polls(t.history) && t.flow.Some? && (s.poisoned.Some? ==> t.poisoned.Some?)
            && (Polls(s.history) == Polls(t.history) ==> t.flow == s.flow && t.outcomes == s.outcomes)
            && Trace(s.history) <= Trace(t.history)
  {
    if call.TickCall? {
      TickGrowsTrace(setup, s, call.source);
      if s.poisoned.None? && setup.env.connected(s.history) && setup.env.poll(s.history).Ok? {
        var answer := setup.env.poll(s.history);
        var polled := s.(history := After(s.history, Polled(answer)));
        TickPast(setup, polled, answer.value, call.source);
        PollsGrow(polled.history, TickBody(setup, polled, answer.value, call.source).history);
        TickKeepsFlow(setup, polled, answer.value, call.source);
      }
    } else {
      OtherCallIdles(setup, s, call);
    }
  }

  lemma TickKeepsFlow(setup: Setup, s: Sys, snaps: seq<Snapshot>, source: EventSource)
    requires Ready(s) && s.poisoned.None? && s.flow.Some?
    ensures TickBody(setup, s, snaps, source).flow.Some?
  {
    var m := SnapshotsSpec(setup, Mid(s, []), snaps, source);
    RuntimeFrame.SnapshotsFramed(setup, Mid(s, []), snaps, source);
    AppendedLife(setup, m.sys, m.buffer, 0);
  }

  lemma OtherCallIdles(setup: Setup, s: Sys, call: Call)
    requires Ready(s) && s.flow.Some? && !call.TickCall?
    ensures var t := Do(setup, s, call);
            && Polls(s.history) == Polls(t.history) && t.flow == s.flow && t.outcomes == s.outcomes
            && (s.poisoned.Some? ==> t.poisoned.Some?) && Trace(s.history) <= Trace(t.history)
  {
  }

  lemma {:induction false} IdleCalls(setup: Setup, calls: seq<Call>, idle: seq<Call>)
    requires Run(setup, calls).flow.Some?
    ensures var s, t := Run(setup, calls), Run(setup, calls + idle);
            && Polls(s.history) <= Polls(t.history) && t.flow.Some? && (s.poisoned.Some? ==> t.poisoned.Some?)
            && (Polls(s.history) == Polls(t.history) ==> t.flow == s.flow && t.outcomes == s.outcomes)
            && Trace(s.history) <= Trace(t.history)
    decreases |idle|
  {
    if idle == [] {
      assert calls + idle == calls;
    } else {
      var n := |idle| - 1;
      assert calls + idle == calls + idle[..n] + [idle[n]];
      RunSnoc(setup, calls + idle[..n], idle[n]);
      IdleCalls(setup, calls, idle[..n]);
      IdleCall(setup, Run(setup, calls + idle[..n]), idle[n]);
    }
  }

  /** The first successful poll behind the tick that traced the verification decides, whatever is called until then and
      whatever polls fail: it verifies the waiting step exactly if it brings a snapshot, and if it brings none the step
      waits for ever. */
  lemma FirstPollDecides(setup: Setup, calls: seq<Call>, idle: seq<Call>, more: seq<Call>, source: EventSource,
                         next: EventSource, def: FlowDef, i: nat, id: ActionId, k: nat)
    requires UniqueFlows(calls + [TickCall(source)] + idle + [TickCall(next)] + more)
    requires Run(setup, calls).flow.Some?
    requires NewlyVerified(Run(setup, calls), Run(setup, calls + [TickCall(source)]), id, k)
    requires WaitsFor(Run(setup, calls + [TickCall(source)]), def, i, id)
    requires var t, u := Run(setup, calls + [TickCall(source)]), Run(setup, calls + [TickCall(source)] + idle);
             && Polls(u.history) == Polls(t.history) && u.poisoned.None?
             && setup.env.connected(u.history) && setup.env.poll(u.history).Ok?
    ensures var before := calls + [TickCall(source)] + idle;
            var polled := setup.env.poll(Run(setup, before).history).value;
            var t := Run(setup, before + [TickCall(next)]);
            && t.flow.Some? && (IsVerified(t.flow.value, i) <==> polled != [])
            && (polled == [] ==> WaitsFor(Run(setup, before + [TickCall(next)] + more), def, i, id))
  {
    var ticked := calls + [TickCall(source)];
    var before := ticked + idle;
    IdleCalls(setup, ticked, idle);
    VerificationIsReported(setup, calls, source, id, k);
    UniqueBefore(before + [TickCall(next)], more);
    UniqueBefore(before, [TickCall(next)]);
    VerifiedIsReportedOrLost(setup, before, def, i, id, k);
    VerifiedActionDelivery(setup, before, more, next, def, i, id, k);
  }
}
