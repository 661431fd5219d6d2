/** What the work of a tick, before its appends, leaves alone. */
module RuntimeFrame {
  import opened Actions
  import opened History
  import opened Flow
  import opened RuntimeModel
  import ExecutorLaws
  import FlowLaws

  /** Only adapter calls are added to the history, numbers are only handed out, a flow is neither started nor dropped,
      and the outcomes to be reported wait until the tick settles. */
  ghost predicate Framed(s: Sys, t: Sys) {
    && Trace(t.history) == Trace(s.history) && Seen(t.history) == Seen(s.history) && Past(s.history, t.history)
    && t.nextSeq >= s.nextSeq && t.poisoned == s.poisoned && t.outcomes == s.outcomes
    && t.flow.Some? == s.flow.Some? && (t.flow.Some? ==> t.flow.value.def == s.flow.value.def)
  }

  lemma {:induction false} StageFramed(m: Mid, requests: seq<StepRequest>, ts: nat)
    requires Ready(m.sys) && m.sys.flow.Some?
    ensures var n := StageRequests(m, requests, ts).sys;
            && Framed(m.sys, n) && n.phase == m.sys.phase && n.history == m.sys.history
            && n.exec.pending == m.sys.exec.pending && n.exec.completed == m.sys.exec.completed
    decreases |requests|
  {
    if requests != [] { StageFramed(m, requests[..|requests| - 1], ts); }
  }

  lemma ProcessedFramed(m: Mid, snap: Snapshot)
    requires Ready(m.sys) && m.sys.flow.Some?
    ensures var n := Processed(m, snap).0.sys;
            Framed(m.sys, n) && n.phase == m.sys.phase && n.history == m.sys.history
  {
    var f := m.sys.flow.value;
    FlowLaws.ApplyShaped(f, FlowLaws.ReportOp(m.sys.outcomes));
    FlowLaws.ApplyShaped(ReportSpec(f, m.sys.outcomes).0, FlowLaws.ProcessOp(snap));
  }

  lemma FlowFramed(m: Mid, snap: Snapshot)
    requires Ready(m.sys)
    ensures var n := FlowSpec(m, snap).sys;
            && Framed(m.sys, n) && n.phase == m.sys.phase && n.history == m.sys.history
            && n.exec.pending == m.sys.exec.pending && n.exec.completed == m.sys.exec.completed
  {
    if m.sys.flow.Some? {
      ProcessedFramed(m, snap);
      var (n, requests) := Processed(m, snap);
      StageFramed(n, requests, snap.ms);
    }
  }

  lemma SnapshotFramed(setup: Setup, m: Mid, snap: Snapshot, source: EventSource)
    requires Ready(m.sys)
    ensures Framed(m.sys, SnapshotSpec(setup, m, snap, source).sys)
  {
    var a := ObserveSpec(setup, m, snap, source);
    var b := ActionSpec(setup, a, snap);
    ExecutorLaws.PassesFrame(setup.Rules(), a.sys.exec.pending, snap, a.sys.history);
    FlowFramed(b, snap);
  }

  lemma {:induction false} SnapshotsFramed(setup: Setup, m: Mid, snaps: seq<Snapshot>, source: EventSource)
    requires Ready(m.sys)
    ensures Framed(m.sys, SnapshotsSpec(setup, m, snaps, source).sys)
    decreases |snaps|
  {
    if snaps != [] {
      var k := |snaps| - 1;
      SnapshotsFramed(setup, m, snaps[..k], source);
      var n := SnapshotsSpec(setup, m, snaps[..k], source);
      SnapshotFramed(setup, n, snaps[k], source);
      PastTransitive(m.sys.history, n.sys.history, SnapshotsSpec(setup, m, snaps, source).sys.history);
    }
  }

  // ---------- a sink that takes every event ----------

  ghost predicate NeverFailing(setup: Setup) {
    forall h, e :: setup.env.append(h, e).None?
  }

  lemma {:induction false} NeverFails(setup: Setup, s: Sys, events: seq<TraceEvent>)
    requires NeverFailing(setup) && s.poisoned.None?
    ensures var t := AppendAll(setup, s, events);
            && t.poisoned.None? && t.exec == s.exec && t.flow == s.flow && t.outcomes == s.outcomes
            && Trace(s.history) <= Trace(t.history) && Seen(t.history) == Seen(s.history)
    decreases |events|
  {
    if events != [] { NeverFails(setup, AppendOne(setup, s, events[0]), events[1..]); }
  }

  /** Every buffered event ends up in the trace. */
  lemma {:induction false} Recorded(setup: Setup, s: Sys, events: seq<TraceEvent>, k: nat) returns (n: nat)
    requires NeverFailing(setup) && s.poisoned.None? && k < |events|
    ensures events[k].WithSeq(n) in Trace(AppendAll(setup, s, events).history)
    decreases |events|
  {
    var t := AppendOne(setup, s, events[0]);
    if k > 0 {
      n := Recorded(setup, t, events[1..], k - 1);
    } else {
      NeverFails(setup, t, events[1..]);
      assert Trace(t.history)[|Trace(s.history)|] == events[0].WithSeq(s.nextSeq);
      n := s.nextSeq;
      assert events[0].WithSeq(n) in Trace(AppendAll(setup, s, events).history);
    }
  }
}
