/** The assembled runtime gets its flow done: under good conditions every run with enough ticks completes the flow. */
module RunLiveness {
  import opened Actions
  import opened History
  import opened Executor
  import opened ExecutorLaws
  import opened ExecutorLiveness
  import opened Flow
  import opened FlowLaws
  import opened Lifecycle
  import opened FlowProgress
  import opened RuntimeModel
  import opened RunFlow
  import RuntimeFrame
  import RuntimeLaws
  import RunStall

  // ---------- one report and one pass, seen from one step ----------

  ghost predicate ConditionsHold(def: FlowDef, snap: Snapshot) {
    forall i :: 0 <= i < |def.steps| && def.steps[i].kind.Observe? ==> def.steps[i].kind.condition(snap).Yes?
  }

  predicate Named(def: FlowDef, requests: seq<StepRequest>, i: nat)
    requires i < |def.steps|
  {
    exists r :: r in requests && r.stepId == def.steps[i].id
  }

  /** The step waits, and one of the outcomes is its own. */
  predicate Heard(f: Flow, i: nat, outcomes: seq<Outcome>)
    requires Shaped(f) && i < |f.steps|
  {
    f.steps[i].status.WaitingStep? && f.steps[i].actionId.Some?
    && Outcome(f.steps[i].actionId.value, Verified) in outcomes
  }

  /** Not begun, or observing, with all it depends on verified. */
  predicate Open(f: Flow, i: nat)
    requires Shaped(f) && i < |f.steps|
  {
    (f.steps[i].status.PendingStep? || f.steps[i].status.ReadyStep?) && DepsOk(f, i)
  }

  /** A reported step is verified; a waiting one keeps waiting otherwise; an open step is verified or waits, if the
      conditions hold, and stays open otherwise; and the steps that begin to wait are those asked for. */
  ghost predicate Moved(
      f: Flow, g: Flow, requests: seq<StepRequest>, outcomes: seq<Outcome>, snap: Snapshot, i: nat)
    requires Shaped(f) && Shaped(g) && f.def == g.def && i < |f.steps|
  {
    var s, t := f.steps[i], g.steps[i];
    && (s.status.VerifiedStep? ==> t.status.VerifiedStep?)
    && (Heard(f, i, outcomes) ==> t.status.VerifiedStep?)
    && (s.status.WaitingStep? ==> t.status.VerifiedStep? || (t == s && !Named(f.def, requests, i)))
    && (t.status.WaitingStep? && !s.status.WaitingStep? ==> Named(f.def, requests, i))
    && (Open(f, i) ==> t.status.VerifiedStep? || t.status.WaitingStep? || (Open(g, i) && !ConditionsHold(f.def, snap)))
  }

  ghost predicate Sound(f: Flow) {
    Sane(f) && UniqueIds(f.def) && NoFailure(f)
  }

  lemma ReportMoves(f: Flow, outcomes: seq<Outcome>, i: nat)
    requires Sound(f) && i < |f.steps| && forall o :: o in outcomes ==> o.status == Verified
    ensures var g := ReportSpec(f, outcomes).0;
            && Sound(g) && VerifiedStays(f, g)
            && (g.steps[i] == f.steps[i] || (f.steps[i].status.WaitingStep? && g.steps[i].status.VerifiedStep?))
            && (Heard(f, i, outcomes) ==> g.steps[i].status.VerifiedStep?)
  {
    ReportEffect(f, outcomes);
    var g := ReportSpec(f, outcomes).0;
    assert StepReported(f, g, i, outcomes);
    if Heard(f, i, outcomes) {
      VerifiedOutcomesResolve(f, outcomes, i);
      RunStall.RecheckKeepsVerified(ReportAll(f, outcomes).0, i);
    }
  }

  lemma PassMoves(f: Flow, snap: Snapshot, i: nat)
    requires Sound(f) && i < |f.steps|
    ensures var (g, _, requests) := ProcessSpec(f, snap);
            Sound(g) && VerifiedStays(f, g) && Moved(f, g, requests, [], snap, i)
  {
    ProcessEffect(f, snap);
    var (g, _, requests) := ProcessSpec(f, snap);
    assert StepPassed(f, g, i);
    if !FlowLaws.Closed(f) {
      var b := Begin(f);
      var m := PassSteps(b, snap);
      PassStepsKeep(b, snap);
      RecheckQuiet(m);
      assert g.steps[i] == PassAt(b, snap, i).st && DepsOk(b, i) == DepsOk(f, i);
      assert StepSane(f, i);
      if PassAt(b, snap, i).requests != [] {
        var at := RequestListed(b, snap, |b.steps|, i);
        assert requests[at] in requests;
      }
    }
    if f.steps[i].status.WaitingStep? { WaitingIsNotNamed(f, g, requests, i); }
    if DepsOk(f, i) { DepsOkStays(f, g, i); }
  }

  lemma WaitingIsNotNamed(f: Flow, g: Flow, requests: seq<StepRequest>, i: nat)
    requires Shaped(f) && Shaped(g) && f.def == g.def && UniqueIds(f.def) && AllRequestsFrom(f, g, requests)
    requires i < |f.steps| && f.steps[i].status.WaitingStep?
    ensures !Named(f.def, requests, i)
  {
    forall r | r in requests ensures r.stepId != f.def.steps[i].id {
      assert RequestFrom(f, g, r);
      var j :| 0 <= j < |f.steps| && f.def.steps[j].id == r.stepId && f.def.steps[j].kind == Act(r.action)
               && (f.steps[j].status.PendingStep? || f.steps[j].status.ReadyStep?) && g.steps[j].status.WaitingStep?;
      assert j != i;
    }
  }

  lemma FlowMoves(f: Flow, outcomes: seq<Outcome>, snap: Snapshot, i: nat)
    requires Sound(f) && i < |f.steps|
    requires forall o :: o in outcomes ==> o.status == Verified
    ensures var f1 := ReportSpec(f, outcomes).0;
            && Sound(f1) && f1.def == f.def
            && var (g, _, requests) := ProcessSpec(f1, snap);
            && Sound(g) && VerifiedStays(f, g) && Moved(f, g, requests, outcomes, snap, i)
  {
    ReportMoves(f, outcomes, i);
    var f1 := ReportSpec(f, outcomes).0;
    PassMoves(f1, snap, i);
    if DepsOk(f, i) { DepsOkStays(f, f1, i); }
  }

  // ---------- staging ----------

  /** Every step asked for has been given an id whose fresh record is staged; the others are as they were. */
  lemma {:induction false} StagingReaches(m: Mid, requests: seq<StepRequest>, ts: nat, i: nat)
    requires Ready(m.sys) && m.sys.flow.Some? && UniqueIds(m.sys.flow.value.def) && i < |m.sys.flow.value.steps|
    ensures var n := StageRequests(m, requests, ts).sys;
            && n.flow.Some? && n.flow.value.def == m.sys.flow.value.def
            && n.flow.value.steps[i].status == m.sys.flow.value.steps[i].status
            && (if Named(m.sys.flow.value.def, requests, i)
                then n.flow.value.steps[i].actionId.Some?
                     && HoldsFresh(n.exec.staged, n.flow.value.steps[i].actionId.value)
                else n.flow.value.steps[i] == m.sys.flow.value.steps[i])
    decreases |requests|
  {
    if requests != [] {
      var k := |requests| - 1;
      var r := requests[k];
      StagingReaches(m, requests[..k], ts, i);
      assert requests == requests[..k] + [r];
      var b := StageRequests(m, requests[..k], ts).sys;
      var rec := NewRecord(b.exec.nextId, r.action, RuntimeActor, ts);
      HoldsConcat(b.exec.staged, [rec]);
      assert rec in [rec];
      PositionIsUnique(b.flow.value.def, i);
      assert Named(m.sys.flow.value.def, requests, i) <==>
             Named(m.sys.flow.value.def, requests[..k], i) || r.stepId == b.flow.value.def.steps[i].id;
    }
  }

  /** Staging only adds to what is staged, and unverifies nothing. */
  lemma {:induction false} StagingAdds(m: Mid, requests: seq<StepRequest>, ts: nat)
    requires Ready(m.sys) && m.sys.flow.Some?
    ensures var n := StageRequests(m, requests, ts).sys;
            && m.sys.exec.staged <= n.exec.staged && n.flow.Some? && VerifiedStays(m.sys.flow.value, n.flow.value)
    decreases |requests|
  {
    if requests != [] { StagingAdds(m, requests[..|requests| - 1], ts); }
  }

  lemma FreshStays(a: Queue, b: Queue)
    requires a <= b
    ensures forall id :: HoldsFresh(a, id) ==> HoldsFresh(b, id)
  {
    assert b == a + b[|a|..];
    HoldsConcat(a, b[|a|..]);
  }

  // ---------- completion ----------

  lemma CompletedWhenVerified(f: Flow, outcomes: seq<Outcome>, snap: Snapshot)
    requires Sound(f) && forall o :: o in outcomes ==> o.status == Verified
    ensures var (f1, reported) := ReportSpec(f, outcomes);
            && Sound(f1)
            && var (g, processed, _) := ProcessSpec(f1, snap);
            && (AllVerified(g) ==> g.status.CompletedFlow?)
            && (g.status.CompletedFlow? && !f.status.CompletedFlow? ==>
                  exists e :: e in reported + processed && e.SopFlowCompleted?)
            && (f.status.CompletedFlow? ==> g.status.CompletedFlow?)
  {
    ReportEffect(f, outcomes);
    var (f1, reported) := ReportSpec(f, outcomes);
    ProcessEffect(f1, snap);
    var (g, processed, _) := ProcessSpec(f1, snap);
    if !f.status.CompletedFlow? && f1.status.CompletedFlow? {
      assert SopFlowCompleted(f.def.id) in reported;
    }
    if !FlowLaws.Closed(f1) {
      var m := PassSteps(Begin(f1), snap);
      PassStepsKeep(Begin(f1), snap);
      RecheckQuiet(m);
      if g.status.CompletedFlow? { assert SopFlowCompleted(f.def.id) in processed; }
    }
  }

  // ---------- how far a step has come ----------

  /** Verified, or at most `k` ticks from it: 1 with its outcome about to be reported, 2 with its action written, 3 with
      its action still to be written. */
  ghost predicate OnTheWay(f: Flow, i: nat, outcomes: seq<Outcome>, sent: Queue, asked: Queue, k: nat)
    requires Shaped(f) && i < |f.steps|
  {
    var st := f.steps[i];
    || st.status.VerifiedStep?
    || (st.status.WaitingStep? && st.actionId.Some?
        && (|| (k >= 1 && Outcome(st.actionId.value, Verified) in outcomes)
            || (k >= 2 && HoldsSent(sent, st.actionId.value))
            || (k >= 3 && HoldsFresh(asked, st.actionId.value))))
  }

  /** The same between ticks, where 4 means: not begun, with all it depends on verified. */
  ghost predicate Within(s: Sys, i: nat, k: nat)
    requires Ready(s) && s.flow.Some? && i < |s.flow.value.steps|
  {
    var f := s.flow.value;
    || OnTheWay(f, i, s.outcomes, s.exec.pending, s.exec.pending, k)
    || (k >= 4 && Open(f, i))
  }

  /** The same within a tick, what has been recorded and staged in it counted. */
  ghost predicate Near(m: Mid, i: nat, k: nat)
    requires Ready(m.sys) && m.sys.flow.Some? && i < |m.sys.flow.value.steps|
  {
    OnTheWay(m.sys.flow.value, i, m.sys.exec.completed, m.sys.exec.pending, m.sys.exec.staged, k)
  }

  /** What a snapshot under good conditions finds. */
  ghost predicate Prepared(setup: Setup, m: Mid, snap: Snapshot) {
    && Ready(m.sys) && Linked(m) && Obliging(setup.Rules())
    && AllDue(setup.catalog, m.sys.exec.pending, snap.ms) && AllServed(setup.catalog, m.sys.exec.pending, snap)
  }

  /** The actions move on, and the flow has not yet been told. */
  lemma ActionsMove(setup: Setup, m: Mid, snap: Snapshot, source: EventSource)
    requires Prepared(setup, m, snap)
    ensures var x, b := m.sys.exec, ActionSpec(setup, ObserveSpec(setup, m, snap, source), snap);
            && Linked(b) && b.sys.flow == m.sys.flow && b.sys.outcomes == m.sys.outcomes
            && b.sys.exec.staged == x.staged && x.completed <= b.sys.exec.completed
            && AllSentAt(setup.catalog, b.sys.exec.pending, snap.ms, 1)
            && (forall id :: HoldsFresh(x.pending, id) ==> HoldsSent(b.sys.exec.pending, id))
            && (forall id :: HoldsSent(x.pending, id) ==> Outcome(id, Verified) in b.sys.exec.completed)
  {
    var a := ObserveSpec(setup, m, snap, source);
    ObserveLinked(setup, m, snap, source);
    ActionLinked(setup, a, snap);
    GoodAdvance(setup.Rules(), a.sys.exec.pending, snap, a.sys.history);
  }

  /** The flow is told, moves, and has its requests staged. */
  lemma FlowMovesOn(b: Mid, snap: Snapshot, i: nat)
    requires Ready(b.sys) && Linked(b) && b.sys.flow.Some? && i < |b.sys.flow.value.steps|
    ensures var f, n := b.sys.flow.value, FlowSpec(b, snap).sys;
            && n.flow.Some? && n.flow.value.def == f.def
            && (forall id :: HoldsFresh(b.sys.exec.staged, id) ==> HoldsFresh(n.exec.staged, id))
            && var st := n.flow.value.steps[i];
            && (f.steps[i].status.VerifiedStep? || Heard(f, i, b.sys.outcomes) ==> st.status.VerifiedStep?)
            && (f.steps[i].status.WaitingStep? ==> st.status.VerifiedStep? || st == f.steps[i])
            && (!f.steps[i].status.WaitingStep? && st.status.WaitingStep? ==>
                  st.actionId.Some? && HoldsFresh(n.exec.staged, st.actionId.value))
            && (Open(f, i) ==> st.status.VerifiedStep? || st.status.WaitingStep?
                               || (Open(n.flow.value, i) && !ConditionsHold(f.def, snap)))
  {
    FlowMoves(b.sys.flow.value, b.sys.outcomes, snap, i);
    var (p, requests) := Processed(b, snap);
    StagingReaches(p, requests, snap.ms, i);
    StagingAdds(p, requests, snap.ms);
    FreshStays(b.sys.exec.staged, StageRequests(p, requests, snap.ms).sys.exec.staged);
    var n := StageRequests(p, requests, snap.ms).sys;
    if Open(p.sys.flow.value, i) { DepsOkStays(p.sys.flow.value, n.flow.value, i); }
  }

  /** The queues behind a snapshot. */
  lemma QueuesAfter(setup: Setup, m: Mid, snap: Snapshot, source: EventSource)
    requires Prepared(setup, m, snap)
    ensures var b := ActionSpec(setup, ObserveSpec(setup, m, snap, source), snap).sys;
            var n := SnapshotSpec(setup, m, snap, source).sys;
            && n.exec.pending == b.exec.pending && n.exec.completed == b.exec.completed
            && AllSentAt(setup.catalog, n.exec.pending, snap.ms, 1)
  {
    ActionsMove(setup, m, snap, source);
    RuntimeFrame.FlowFramed(ActionSpec(setup, ObserveSpec(setup, m, snap, source), snap), snap);
  }

  /** No snapshot takes a step further away, and open steps move if the conditions hold on it. */
  lemma SnapshotKeeps(setup: Setup, m: Mid, snap: Snapshot, source: EventSource, i: nat, k: nat)
    requires Prepared(setup, m, snap) && m.sys.flow.Some? && i < |m.sys.flow.value.steps|
    ensures var f, n := m.sys.flow.value, SnapshotSpec(setup, m, snap, source);
            && n.sys.flow.Some? && n.sys.flow.value.def == f.def
            && (f.steps[i].status.VerifiedStep? ==> n.sys.flow.value.steps[i].status.VerifiedStep?)
            && (Near(m, i, k) ==> Near(n, i, k))
            && (Open(f, i) ==> Near(n, i, 3) || (Open(n.sys.flow.value, i) && !ConditionsHold(f.def, snap)))
            && (n.sys.flow.value.steps[i].status.WaitingStep? && !f.steps[i].status.WaitingStep? ==> Near(n, i, 3))
  {
    var b := ActionSpec(setup, ObserveSpec(setup, m, snap, source), snap);
    ActionsMove(setup, m, snap, source);
    FlowMovesOn(b, snap, i);
    QueuesAfter(setup, m, snap, source);
  }

  /** The first snapshot of a tick brings every step that is on its way one tick nearer. */
  lemma FirstSnapshotMoves(setup: Setup, m: Mid, snap: Snapshot, source: EventSource, i: nat, k: nat)
    requires Prepared(setup, m, snap) && m.sys.flow.Some? && i < |m.sys.flow.value.steps|
    requires OnTheWay(m.sys.flow.value, i, m.sys.outcomes, m.sys.exec.pending, m.sys.exec.pending, k + 1)
    ensures var n := SnapshotSpec(setup, m, snap, source);
            n.sys.flow.Some? && i < |n.sys.flow.value.steps| && Near(n, i, k)
  {
    var b := ActionSpec(setup, ObserveSpec(setup, m, snap, source), snap);
    ActionsMove(setup, m, snap, source);
    FlowMovesOn(b, snap, i);
    QueuesAfter(setup, m, snap, source);
  }

  // ---------- the snapshots of one poll ----------

  /** Good conditions all along a poll. */
  ghost predicate Course(setup: Setup, m: Mid, snaps: seq<Snapshot>, source: EventSource)
    requires Ready(m.sys)
  {
    forall j :: 0 <= j < |snaps| ==> Prepared(setup, SnapshotsSpec(setup, m, snaps[..j], source), snaps[j])
  }

  lemma PrefixOfFront<T>(s: seq<T>, j: nat)
    requires j < |s|
    ensures s[..|s| - 1][..j] == s[..j]
  {
  }

  lemma CoursePrefix(setup: Setup, m: Mid, snaps: seq<Snapshot>, source: EventSource)
    requires Ready(m.sys) && snaps != [] && Course(setup, m, snaps, source)
    ensures var k := |snaps| - 1;
            && Course(setup, m, snaps[..k], source)
            && Prepared(setup, SnapshotsSpec(setup, m, snaps[..k], source), snaps[k])
  {
    var front := snaps[..|snaps| - 1];
    forall j | 0 <= j < |front| ensures Prepared(setup, SnapshotsSpec(setup, m, front[..j], source), front[j]) {
      assert Prepared(setup, SnapshotsSpec(setup, m, snaps[..j], source), snaps[j]);
      PrefixOfFront(snaps, j);
    }
  }

  /** What a poll does to one step: `k` says how near it was. */
  ghost predicate PollMoved(m: Mid, n: Mid, last: Snapshot, i: nat)
    requires Ready(m.sys) && Ready(n.sys) && m.sys.flow.Some? && i < |m.sys.flow.value.steps|
  {
    var f := m.sys.flow.value;
    && n.sys.flow.Some? && n.sys.flow.value.def == f.def
    && (f.steps[i].status.VerifiedStep? ==> n.sys.flow.value.steps[i].status.VerifiedStep?)
    && (forall k: nat ::
          OnTheWay(f, i, m.sys.outcomes, m.sys.exec.pending, m.sys.exec.pending, k + 1) ==> Near(n, i, k))
    && (Open(f, i) ==> Near(n, i, 3) || (Open(n.sys.flow.value, i) && !ConditionsHold(f.def, last)))
    && (n.sys.flow.value.steps[i].status.WaitingStep? && !f.steps[i].status.WaitingStep? ==> Near(n, i, 3))
  }

  lemma FirstMoves(setup: Setup, m: Mid, snap: Snapshot, source: EventSource, i: nat)
    requires Prepared(setup, m, snap) && m.sys.flow.Some? && i < |m.sys.flow.value.steps|
    ensures PollMoved(m, SnapshotSpec(setup, m, snap, source), snap, i)
  {
    var f, x := m.sys.flow.value, m.sys.exec;
    SnapshotKeeps(setup, m, snap, source, i, 0);
    forall k: nat | OnTheWay(f, i, m.sys.outcomes, x.pending, x.pending, k + 1)
      ensures Near(SnapshotSpec(setup, m, snap, source), i, k)
    {
      FirstSnapshotMoves(setup, m, snap, source, i, k);
    }
  }

  lemma NextMoves(setup: Setup, m: Mid, b: Mid, was: Snapshot, snap: Snapshot, source: EventSource, i: nat)
    requires Ready(m.sys) && m.sys.flow.Some? && i < |m.sys.flow.value.steps|
    requires Prepared(setup, b, snap) && PollMoved(m, b, was, i)
    ensures PollMoved(m, SnapshotSpec(setup, b, snap, source), snap, i)
  {
    var f, x, n := m.sys.flow.value, m.sys.exec, SnapshotSpec(setup, b, snap, source);
    SnapshotKeeps(setup, b, snap, source, i, 3);
    forall k: nat | OnTheWay(f, i, m.sys.outcomes, x.pending, x.pending, k + 1) ensures Near(n, i, k) {
      assert Near(b, i, k);
      SnapshotKeeps(setup, b, snap, source, i, k);
    }
    StillWaits(setup, b, snap, source, i);
  }

  /** A step that waits behind a snapshot and waited before it has kept its id. */
  lemma StillWaits(setup: Setup, m: Mid, snap: Snapshot, source: EventSource, i: nat)
    requires Prepared(setup, m, snap) && m.sys.flow.Some? && i < |m.sys.flow.value.steps|
    ensures var n := SnapshotSpec(setup, m, snap, source);
            && n.sys.flow.Some? && i < |n.sys.flow.value.steps|
            && (n.sys.flow.value.steps[i].status.WaitingStep? && m.sys.flow.value.steps[i].status.WaitingStep? ==>
                  n.sys.flow.value.steps[i] == m.sys.flow.value.steps[i])
  {
    ActionsMove(setup, m, snap, source);
    FlowMovesOn(ActionSpec(setup, ObserveSpec(setup, m, snap, source), snap), snap, i);
  }

  lemma {:induction false} PollMoves(setup: Setup, m: Mid, snaps: seq<Snapshot>, source: EventSource, i: nat)
    requires Ready(m.sys) && m.sys.flow.Some? && i < |m.sys.flow.value.steps|
    requires snaps != [] && Course(setup, m, snaps, source)
    ensures PollMoved(m, SnapshotsSpec(setup, m, snaps, source), snaps[|snaps| - 1], i)
    decreases |snaps|
  {
    var k := |snaps| - 1;
    CoursePrefix(setup, m, snaps, source);
    if k == 0 {
      assert snaps[..k] == [];
      FirstMoves(setup, m, snaps[0], source, i);
    } else {
      PollMoves(setup, m, snaps[..k], source, i);
      NextMoves(setup, m, SnapshotsSpec(setup, m, snaps[..k], source), snaps[..k][k - 1], snaps[k], source, i);
    }
  }

  /** A completed flow has been announced. */
  ghost predicate Announced(flow: Option<Flow>, v: seq<TraceEvent>) {
    flow.Some? && flow.value.status.CompletedFlow? ==> exists e :: e in v && e.FlowCompleted?
  }

  /** And the flow is called completed as soon as all its steps are verified. */
  lemma SnapshotAnnounces(setup: Setup, m: Mid, snap: Snapshot, source: EventSource)
    requires Ready(m.sys) && Linked(m) && Announced(m.sys.flow, Told(m))
    ensures var n := SnapshotSpec(setup, m, snap, source);
            && Announced(n.sys.flow, Told(n))
            && (n.sys.flow.Some? && AllVerified(n.sys.flow.value) ==> n.sys.flow.value.status.CompletedFlow?)
  {
    var a := ObserveSpec(setup, m, snap, source);
    var b := ActionSpec(setup, a, snap);
    ObserveLinked(setup, m, snap, source);
    ActionLinked(setup, a, snap);
    RuntimeFrame.SnapshotFramed(setup, m, snap, source);
    PassesFrame(setup.Rules(), m.sys.exec.pending, snap, m.sys.history);
    assert forall e :: e in Told(m) ==> e in Told(b);
    if b.sys.flow.Some? {
      FlowAnnounces(b, snap);
    }
  }

  lemma {:induction false} SnapshotsAnnounce(setup: Setup, m: Mid, snaps: seq<Snapshot>, source: EventSource)
    requires Ready(m.sys) && Linked(m) && Announced(m.sys.flow, Told(m))
    ensures var n := SnapshotsSpec(setup, m, snaps, source);
            && Announced(n.sys.flow, Told(n))
            && (snaps != [] && n.sys.flow.Some? && AllVerified(n.sys.flow.value) ==>
                  n.sys.flow.value.status.CompletedFlow?)
    decreases |snaps|
  {
    if snaps != [] {
      var k := |snaps| - 1;
      SnapshotsAnnounce(setup, m, snaps[..k], source);
      SnapshotsLinked(setup, m, snaps[..k], source);
      SnapshotAnnounces(setup, SnapshotsSpec(setup, m, snaps[..k], source), snaps[k], source);
    }
  }

  lemma ProcessedAnnounces(b: Mid, snap: Snapshot)
    requires Ready(b.sys) && Linked(b) && b.sys.flow.Some? && Announced(b.sys.flow, Told(b))
    ensures var p := Processed(b, snap).0;
            && p.sys.flow.Some? && Announced(p.sys.flow, Told(p))
            && (AllVerified(p.sys.flow.value) ==> p.sys.flow.value.status.CompletedFlow?)
  {
    var f := b.sys.flow.value;
    CompletedWhenVerified(f, b.sys.outcomes, snap);
    var (f1, reported) := ReportSpec(f, b.sys.outcomes);
    var (g, processed, _) := ProcessSpec(f1, snap);
    AnnouncedWith(f, g, Told(b), reported + processed, snap.ms);
    ProcessedTold(b, snap);
  }

  lemma AnnouncedWith(f: Flow, g: Flow, v: seq<TraceEvent>, events: seq<SopEvent>, ts: nat)
    requires Announced(Some(f), v)
    requires g.status.CompletedFlow? && !f.status.CompletedFlow? ==> exists e :: e in events && e.SopFlowCompleted?
    ensures Announced(Some(g), v + SopTrace(events, ts))
  {
    if g.status.CompletedFlow? {
      var e: TraceEvent;
      if f.status.CompletedFlow? {
        e :| e in v && e.FlowCompleted?;
      } else {
        e := CompletionTraced(events, ts);
      }
      assert e in v + SopTrace(events, ts);
    }
  }

  lemma CompletionTraced(events: seq<SopEvent>, ts: nat) returns (e: TraceEvent)
    requires exists x :: x in events && x.SopFlowCompleted?
    ensures e in SopTrace(events, ts) && e.FlowCompleted?
  {
    var x :| x in events && x.SopFlowCompleted?;
    var k :| 0 <= k < |events| && events[k] == x;
    e := SopTrace(events, ts)[k];
  }

  lemma FlowAnnounces(b: Mid, snap: Snapshot)
    requires Ready(b.sys) && Linked(b) && b.sys.flow.Some? && Announced(b.sys.flow, Told(b))
    ensures var n := FlowSpec(b, snap);
            && n.sys.flow.Some? && Announced(n.sys.flow, Told(n))
            && (AllVerified(n.sys.flow.value) ==> n.sys.flow.value.status.CompletedFlow?)
  {
    ProcessedAnnounces(b, snap);
    StagingKeepsStatus(Processed(b, snap).0, Processed(b, snap).1, snap.ms);
  }

  lemma {:induction false} StagingKeepsStatus(m: Mid, requests: seq<StepRequest>, ts: nat)
    requires Ready(m.sys) && m.sys.flow.Some?
    ensures var n := StageRequests(m, requests, ts);
            && n.sys.flow.value.status == m.sys.flow.value.status
            && (AllVerified(n.sys.flow.value) ==> AllVerified(m.sys.flow.value))
            && (forall e :: e in Told(m) ==> e in Told(n))
    decreases |requests|
  {
    if requests != [] {
      var k := |requests| - 1;
      StagingKeepsStatus(m, requests[..k], ts);
      var b := StageRequests(m, requests[..k], ts);
      var n := StageRequest(b, requests[k], ts);
      assert forall i :: 0 <= i < |b.sys.flow.value.steps| ==>
        n.sys.flow.value.steps[i].status == b.sys.flow.value.steps[i].status;
    }
  }

  // ---------- good conditions ----------

  /** The action of a life that is still open. */
  function OpenAction(l: Life): Option<CockpitAction> {
    match l
    case Awaiting(action) => Some(action)
    case Approved(action) => Some(action)
    case Sent(action, _) => Some(action)
    case _ => None
  }

  /** The snapshots serve the actions that the trace shows open: the first admits those awaiting validation and confirms
      those dispatched, and the later ones, if there are any, confirm them all. */
  ghost predicate Serves(setup: Setup, h: History, snaps: seq<Snapshot>) {
    snaps != [] && forall id :: ServesId(setup, LifeIn(Trace(h), id), snaps)
  }

  ghost predicate ServesId(setup: Setup, l: Life, snaps: seq<Snapshot>)
    requires snaps != []
  {
    && (l.Awaiting? ==> Admissible(setup.catalog, l.action, snaps[0]))
    && (l.Sent? ==> Confirms(setup.catalog, l.action, snaps[0]))
    && (OpenAction(l).Some? ==>
          forall j :: 0 < j < |snaps| ==> Confirms(setup.catalog, OpenAction(l).value, snaps[j]))
  }

  predicate Rising(snaps: seq<Snapshot>) {
    forall j, k :: 0 <= j < k < |snaps| ==> snaps[j].ms < snaps[k].ms
  }

  /** A poll brings one snapshot or more, each newer than all before; they serve the actions that are open, and on the
      last of them the conditions of the flow hold. */
  ghost predicate PollsWell(setup: Setup, def: FlowDef, h: History) {
    && setup.env.poll(h).Ok?
    && var snaps := setup.env.poll(h).value;
    && Serves(setup, h, snaps) && Rising(snaps) && ConditionsHold(def, snaps[|snaps| - 1])
    && forall x :: x in Seen(h) ==> x.ms < snaps[0].ms
  }

  /** The sink takes every event, the adapter stays connected and obliges, and it polls well wherever a run may be. */
  ghost predicate Willing(setup: Setup, def: FlowDef) {
    && Obliging(setup.Rules()) && RuntimeFrame.NeverFailing(setup)
    && (forall h :: setup.env.connected(h)) && forall calls :: PollsWell(setup, def, Run(setup, calls).history)
  }

  /** Between calls: nothing has failed, nothing is staged, whatever is pending is fresh or was written on a snapshot
      already seen, every waiting step is on its way, and a completed flow has been announced. */
  ghost predicate Able(setup: Setup, def: FlowDef, s: Sys)
    requires Ready(s)
  {
    && s.poisoned.None? && s.exec.staged == []
    && (forall r :: r in s.exec.pending ==> r.status.Requested? || Written(setup, s, r))
    && Announced(s.flow, Trace(s.history))
    && (s.flow.Some? ==>
          && s.flow.value.def == def
          && forall i :: 0 <= i < |s.flow.value.steps| && s.flow.value.steps[i].status.WaitingStep? ==> Within(s, i, 3))
  }

  ghost predicate Written(setup: Setup, s: Sys, r: ActionRecord) {
    IsSent(setup.catalog, r) && exists x :: x in Seen(s.history) && x.ms == r.dispatchedMs
  }

  /** No step falls back, and none that is on its way stays where it is, `ticks` being 1 or 0. */
  ghost predicate Nearer(s: Sys, t: Sys, ticks: nat)
    requires Ready(s) && Ready(t)
  {
    s.flow.Some? ==>
      && t.flow.Some? && t.flow.value.def == s.flow.value.def
      && forall i :: 0 <= i < |s.flow.value.steps| ==>
           && (s.flow.value.steps[i].status.VerifiedStep? ==> t.flow.value.steps[i].status.VerifiedStep?)
           && forall k: nat :: Within(s, i, k + ticks) ==> Within(t, i, k)
  }

  // ---------- one tick ----------

  /** An action pending before the tick is open in the trace. */
  lemma PendingIsOpen(setup: Setup, m: Mid, r: ActionRecord)
    requires RuntimeLaws.MidLaw(setup, m) && r in m.sys.exec.pending
    ensures var l := LifeIn(Trace(m.sys.history), r.id);
            && OpenAction(l) == Some(r.action)
            && (m.buffer == [] ==> (r.status.Requested? ==> l.Awaiting?) && (r.status.Dispatched? ==> l.Sent?))
  {
    var x := m.sys.exec;
    var i :| 0 <= i < |x.pending| && x.pending[i] == r;
    FindIsUnique(x.pending, 0, RuntimeLaws.Bar(x), i);
    assert RuntimeLaws.IdLaw(setup, m, r.id);
    OpenBefore(LifeIn(Trace(m.sys.history), r.id), m.buffer, r.id);
  }

  /** Without a request among the events, an action open after them was open before. */
  lemma {:induction false} OpenBefore(l: Life, events: seq<TraceEvent>, id: ActionId)
    requires RuntimeLaws.NoRequest(events, id) && OpenAction(LifeFrom(l, events, id)).Some?
    ensures OpenAction(l) == OpenAction(LifeFrom(l, events, id))
    decreases |events|
  {
    if events != [] {
      assert events[0] in events;
      OpenBefore(LifeStep(l, events[0], id), events[1..], id);
    }
  }

  /** What a poll finds and brings under good conditions. */
  ghost predicate Provided(setup: Setup, m: Mid, snaps: seq<Snapshot>) {
    && Ready(m.sys) && Linked(m) && RuntimeLaws.MidLaw(setup, m) && m.buffer == [] && Obliging(setup.Rules())
    && Serves(setup, m.sys.history, snaps) && Rising(snaps) && AllDue(setup.catalog, m.sys.exec.pending, snaps[0].ms)
  }

  /** Its snapshots find good conditions one after the other. */
  lemma {:induction false} PreparedAt(setup: Setup, m: Mid, snaps: seq<Snapshot>, source: EventSource, j: nat)
    requires Provided(setup, m, snaps) && j < |snaps|
    ensures Prepared(setup, SnapshotsSpec(setup, m, snaps[..j], source), snaps[j])
    decreases j
  {
    var n := SnapshotsSpec(setup, m, snaps[..j], source);
    SnapshotsLinked(setup, m, snaps[..j], source);
    RuntimeLaws.SnapshotsLaw(setup, m, snaps[..j], source);
    RuntimeFrame.SnapshotsFramed(setup, m, snaps[..j], source);
    if j > 0 {
      PreparedAt(setup, m, snaps, source, j - 1);
      assert snaps[..j][..j - 1] == snaps[..j - 1];
      QueuesAfter(setup, SnapshotsSpec(setup, m, snaps[..j - 1], source), snaps[j - 1], source);
    }
    AllAreServed(setup, m, n, snaps, j);
  }

  lemma AllAreServed(setup: Setup, m: Mid, n: Mid, snaps: seq<Snapshot>, j: nat)
    requires RuntimeLaws.MidLaw(setup, n) && Trace(n.sys.history) == Trace(m.sys.history) && j < |snaps|
    requires Serves(setup, m.sys.history, snaps)
    requires if j == 0 then n.buffer == [] else forall r :: r in n.sys.exec.pending ==> r.status.Dispatched?
    ensures AllServed(setup.catalog, n.sys.exec.pending, snaps[j])
  {
    forall r | r in n.sys.exec.pending ensures Served(setup.catalog, r, snaps[j]) {
      PendingIsOpen(setup, n, r);
      assert ServesId(setup, LifeIn(Trace(m.sys.history), r.id), snaps);
    }
  }

  /** The state in which the snapshots of a tick are processed. */
  lemma PolledIsProvided(setup: Setup, def: FlowDef, s: Sys) returns (snaps: seq<Snapshot>, m: Mid)
    requires Willing(setup, def) && Ready(s) && Able(setup, def, s) && RunLinked(s) && RuntimeLaws.RunLaw(setup, s)
    requires PollsWell(setup, def, s.history)
    ensures setup.env.poll(s.history) == Ok(snaps) && snaps != [] && ConditionsHold(def, snaps[|snaps| - 1])
    ensures m == Mid(s.(history := After(s.history, Polled(Ok(snaps)))), [])
    ensures Provided(setup, m, snaps) && forall x :: x in snaps ==> x in Seen(m.sys.history)
  {
    snaps := setup.env.poll(s.history).value;
    m := Mid(s.(history := After(s.history, Polled(Ok(snaps)))), []);
    NeutralLinked(s, m.sys);
    RuntimeLaws.NeutralLaw(setup, s, m.sys, Polled(Ok(snaps)));
    forall r | r in s.exec.pending && !r.status.Requested?
      ensures IsSent(setup.catalog, r) && r.dispatchedMs < snaps[0].ms
    {
      assert Written(setup, s, r);
    }
    forall id ensures ServesId(setup, LifeIn(Trace(m.sys.history), id), snaps) {
      assert ServesId(setup, LifeIn(Trace(s.history), id), snaps);
    }
  }

  /** The tick is its snapshots, appended and settled. */
  lemma TickIsPoll(setup: Setup, s: Sys, snaps: seq<Snapshot>, source: EventSource)
    requires RuntimeFrame.NeverFailing(setup) && Ready(s) && s.poisoned.None?
    ensures var n := SnapshotsSpec(setup, Mid(s, []), snaps, source);
            var t := TickBody(setup, s, snaps, source);
            && t.poisoned.None? && t.flow == n.sys.flow && t.exec.staged == []
            && t.exec.pending == n.sys.exec.pending + n.sys.exec.staged
            && (t.flow.Some? ==> t.outcomes == n.sys.exec.completed)
            && Seen(t.history) == Seen(s.history)
            && (Announced(n.sys.flow, Told(n)) ==> Announced(t.flow, Trace(t.history)))
  {
    var n := SnapshotsSpec(setup, Mid(s, []), snaps, source);
    RuntimeFrame.SnapshotsFramed(setup, Mid(s, []), snaps, source);
    RuntimeFrame.NeverFails(setup, n.sys, n.buffer);
    if Announced(n.sys.flow, Told(n)) { AppendAnnounces(setup, n.sys, n.buffer); }
  }

  lemma AppendAnnounces(setup: Setup, s: Sys, events: seq<TraceEvent>)
    requires RuntimeFrame.NeverFailing(setup) && s.poisoned.None?
    requires Announced(s.flow, Told(Mid(s, events)))
    ensures var t := AppendAll(setup, s, events);
            t.flow == s.flow && Announced(t.flow, Trace(t.history))
  {
    var t := AppendAll(setup, s, events);
    RuntimeFrame.NeverFails(setup, s, events);
    if s.flow.Some? && s.flow.value.status.CompletedFlow? {
      var e :| e in Told(Mid(s, events)) && e.FlowCompleted?;
      if e in Trace(s.history) {
        assert e in Trace(t.history);
      } else {
        var k :| 0 <= k < |events| && events[k] == e;
        var n := RuntimeFrame.Recorded(setup, s, events, k);
        assert events[k].WithSeq(n).FlowCompleted?;
      }
    }
  }

  lemma StagedAreFresh(setup: Setup, m: Mid)
    requires RuntimeLaws.MidLaw(setup, m)
    ensures forall r :: r in m.sys.exec.staged ==> r.status.Requested?
  {
    var x := m.sys.exec;
    forall r | r in x.staged ensures r.status.Requested? {
      var i :| 0 <= i < |x.staged| && x.staged[i] == r;
      FindIsUnique(x.staged, RuntimeLaws.Bar(x), x.nextId, i);
      assert RuntimeLaws.IdLaw(setup, m, r.id);
    }
  }

  /** The queues after a tick, as the next one will find them. */
  lemma PendingAfter(setup: Setup, m: Mid, t: Sys, snaps: seq<Snapshot>, source: EventSource)
    requires Provided(setup, m, snaps) && Seen(m.sys.history) <= Seen(t.history)
    requires forall x :: x in snaps ==> x in Seen(m.sys.history)
    requires var n := SnapshotsSpec(setup, m, snaps, source).sys; t.exec.pending == n.exec.pending + n.exec.staged
    ensures forall r :: r in t.exec.pending ==> r.status.Requested? || Written(setup, t, r)
  {
    var k := |snaps| - 1;
    var n := SnapshotsSpec(setup, m, snaps, source);
    PreparedAt(setup, m, snaps, source, k);
    QueuesAfter(setup, SnapshotsSpec(setup, m, snaps[..k], source), snaps[k], source);
    RuntimeLaws.SnapshotsLaw(setup, m, snaps, source);
    StagedAreFresh(setup, n);
    assert snaps[k] in snaps;
    forall r | r in t.exec.pending && !r.status.Requested? ensures Written(setup, t, r) {
      assert r in n.sys.exec.pending;
      assert snaps[k] in Seen(t.history) && snaps[k].ms == r.dispatchedMs;
    }
  }

  /** What a tick does to one step. */
  lemma StepNearer(setup: Setup, m: Mid, n: Mid, t: Sys, last: Snapshot, i: nat)
    requires Ready(m.sys) && Ready(n.sys) && Ready(t) && m.sys.flow.Some? && i < |m.sys.flow.value.steps|
    requires PollMoved(m, n, last, i) && ConditionsHold(m.sys.flow.value.def, last)
    requires t.flow == n.sys.flow && t.outcomes == n.sys.exec.completed
    requires t.exec.pending == n.sys.exec.pending + n.sys.exec.staged
    requires m.sys.flow.value.steps[i].status.WaitingStep? ==> Within(m.sys, i, 3)
    ensures t.flow.Some? && t.flow.value.def == m.sys.flow.value.def
    ensures m.sys.flow.value.steps[i].status.VerifiedStep? ==> t.flow.value.steps[i].status.VerifiedStep?
    ensures forall k: nat :: Within(m.sys, i, k + 1) ==> Within(t, i, k)
    ensures t.flow.value.steps[i].status.WaitingStep? ==> Within(t, i, 3)
  {
    var f, x := m.sys.flow.value, m.sys.exec;
    HoldsConcat(n.sys.exec.pending, n.sys.exec.staged);
    assert forall k: nat :: Near(n, i, k) ==> Within(t, i, k);
    assert OnTheWay(f, i, m.sys.outcomes, x.pending, x.pending, 2 + 1) ==> Near(n, i, 2);
    forall k: nat | Within(m.sys, i, k + 1) ensures Within(t, i, k) {
      if OnTheWay(f, i, m.sys.outcomes, x.pending, x.pending, k + 1) {
        assert Near(n, i, k);
      } else {
        assert Near(n, i, 3) && k >= 3;
      }
    }
  }

  lemma TickNearer(setup: Setup, def: FlowDef, s: Sys, source: EventSource)
    requires Willing(setup, def) && Ready(s) && Able(setup, def, s) && RunLinked(s) && RuntimeLaws.RunLaw(setup, s)
    requires PollsWell(setup, def, s.history)
    ensures var t := TickSpec(setup, s, source);
            && Able(setup, def, t) && Nearer(s, t, 1)
            && (t.flow.Some? && AllVerified(t.flow.value) ==> t.flow.value.status.CompletedFlow?)
            && t.flow.Some? == s.flow.Some?
  {
    var snaps, m := PolledIsProvided(setup, def, s);
    var n := SnapshotsSpec(setup, m, snaps, source);
    var t := TickSpec(setup, s, source);
    TickIsPoll(setup, m.sys, snaps, source);
    RuntimeFrame.SnapshotsFramed(setup, m, snaps, source);
    SnapshotsAnnounce(setup, m, snaps, source);
    PendingAfter(setup, m, t, snaps, source);
    if s.flow.Some? {
      forall i | 0 <= i < |s.flow.value.steps|
        ensures s.flow.value.steps[i].status.VerifiedStep? ==> t.flow.value.steps[i].status.VerifiedStep?
        ensures forall k: nat :: Within(s, i, k + 1) ==> Within(t, i, k)
        ensures t.flow.value.steps[i].status.WaitingStep? ==> Within(t, i, 3)
      {
        TickMovesStep(setup, m, t, snaps, source, i);
        assert forall k: nat :: Within(s, i, k) <==> Within(m.sys, i, k);
      }
    }
  }

  lemma TickMovesStep(setup: Setup, m: Mid, t: Sys, snaps: seq<Snapshot>, source: EventSource, i: nat)
    requires Provided(setup, m, snaps) && Ready(t) && m.sys.flow.Some? && i < |m.sys.flow.value.steps|
    requires ConditionsHold(m.sys.flow.value.def, snaps[|snaps| - 1])
    requires var n := SnapshotsSpec(setup, m, snaps, source).sys;
             && t.flow == n.flow && t.outcomes == n.exec.completed
             && t.exec.pending == n.exec.pending + n.exec.staged
    requires m.sys.flow.value.steps[i].status.WaitingStep? ==> Within(m.sys, i, 3)
    ensures t.flow.Some? && t.flow.value.def == m.sys.flow.value.def
    ensures m.sys.flow.value.steps[i].status.VerifiedStep? ==> t.flow.value.steps[i].status.VerifiedStep?
    ensures forall k: nat :: Within(m.sys, i, k + 1) ==> Within(t, i, k)
    ensures t.flow.value.steps[i].status.WaitingStep? ==> Within(t, i, 3)
  {
    forall j | 0 <= j < |snaps| ensures Prepared(setup, SnapshotsSpec(setup, m, snaps[..j], source), snaps[j]) {
      PreparedAt(setup, m, snaps, source, j);
    }
    PollMoves(setup, m, snaps, source, i);
    StepNearer(setup, m, SnapshotsSpec(setup, m, snaps, source), t, snaps[|snaps| - 1], i);
  }

  // ---------- any call ----------

  /** A longer queue takes no step further away. */
  lemma WithinKept(s: Sys, t: Sys)
    requires Ready(s) && Ready(t) && t.flow == s.flow && t.outcomes == s.outcomes
    requires forall id :: HoldsSent(s.exec.pending, id) ==> HoldsSent(t.exec.pending, id)
    requires forall id :: HoldsFresh(s.exec.pending, id) ==> HoldsFresh(t.exec.pending, id)
    ensures Nearer(s, t, 0)
    ensures s.flow.Some? ==>
              forall i, k: nat :: 0 <= i < |s.flow.value.steps| && Within(s, i, k) ==> Within(t, i, k)
  {
    if s.flow.Some? {
      forall i, k: nat | 0 <= i < |s.flow.value.steps| && Within(s, i, k) ensures Within(t, i, k) {}
    }
  }

  lemma SubmitNearer(setup: Setup, def: FlowDef, s: Sys, action: CockpitAction, actor: Actor, at: nat)
    requires Willing(setup, def) && Ready(s) && Able(setup, def, s)
    ensures var t := SubmitActionSpec(setup, s, action, actor, at);
            Able(setup, def, t) && Nearer(s, t, 0) && t.flow == s.flow
  {
    var rec := NewRecord(s.exec.nextId, action, actor, at);
    var t := SubmitActionSpec(setup, s, action, actor, at);
    assert s.exec.staged + [rec] == [rec];
    assert t.exec.pending == s.exec.pending + [rec];
    HoldsConcat(s.exec.pending, [rec]);
    WithinKept(s, t);
    forall r | r in t.exec.pending && !r.status.Requested? ensures Written(setup, t, r) {
      assert Written(setup, s, r);
    }
  }

  /** Calls that touch neither the queues nor the flow. */
  lemma HistoryNearer(setup: Setup, def: FlowDef, s: Sys, t: Sys)
    requires Ready(s) && Ready(t) && Able(setup, def, s) && t.poisoned.None?
    requires t.flow == s.flow && t.outcomes == s.outcomes
    requires t.exec.pending == s.exec.pending && t.exec.staged == s.exec.staged
    requires Seen(t.history) == Seen(s.history) && Trace(s.history) <= Trace(t.history)
    ensures Able(setup, def, t) && Nearer(s, t, 0)
  {
    forall r | r in t.exec.pending && !r.status.Requested? ensures Written(setup, t, r) {
      assert Written(setup, s, r);
    }
    WithinKept(s, t);
    if t.flow.Some? && t.flow.value.status.CompletedFlow? {
      var e :| e in Trace(s.history) && e.FlowCompleted?;
      assert e in Trace(t.history);
    }
  }

  function TicksOf(call: Call): nat {
    if call.TickCall? then 1 else 0
  }

  function Ticks(calls: seq<Call>): nat {
    if calls == [] then 0 else Ticks(calls[..|calls| - 1]) + TicksOf(calls[|calls| - 1])
  }

  lemma StartFlowNearer(setup: Setup, def: FlowDef, s: Sys)
    requires Ready(s) && Able(setup, def, s)
    ensures Able(setup, def, StartFlowSpec(s, def)) && Nearer(s, StartFlowSpec(s, def), 0)
    ensures s.flow.Some? ==> StartFlowSpec(s, def) == s
  {
    if s.flow.Some? { HistoryNearer(setup, def, s, s); }
  }

  lemma QuietCallNearer(setup: Setup, def: FlowDef, s: Sys, call: Call)
    requires Willing(setup, def) && Ready(s) && Able(setup, def, s)
    requires call.StartCall? || call.TakeCall? || call.FinishCall?
    ensures var t := Do(setup, s, call);
            Able(setup, def, t) && Nearer(s, t, 0) && t.flow == s.flow
  {
    HistoryNearer(setup, def, s, Do(setup, s, call));
  }

  lemma CallNearer(setup: Setup, def: FlowDef, s: Sys, call: Call)
    requires Willing(setup, def) && Ready(s) && Able(setup, def, s) && RunLinked(s) && RuntimeLaws.RunLaw(setup, s)
    requires PollsWell(setup, def, s.history)
    requires call.StartFlowCall? ==> call.def == def
    ensures var t := Do(setup, s, call);
            && Able(setup, def, t) && Nearer(s, t, TicksOf(call)) && (s.flow.Some? ==> t.flow.Some?)
            && (!call.TickCall? && s.flow.Some? ==> t.flow == s.flow)
            && (call.TickCall? && t.flow.Some? && AllVerified(t.flow.value) ==> t.flow.value.status.CompletedFlow?)
  {
    match call
    case StartCall => QuietCallNearer(setup, def, s, call);
    case StartFlowCall(_) => StartFlowNearer(setup, def, s);
    case SubmitCall(action, actor, at) => SubmitNearer(setup, def, s, action, actor, at);
    case TickCall(source) => TickNearer(setup, def, s, source);
    case TakeCall => QuietCallNearer(setup, def, s, call);
    case FinishCall => QuietCallNearer(setup, def, s, call);
  }

  // ---------- every run ----------

  /** The one flow that is ever started. */
  ghost predicate OnlyFlow(calls: seq<Call>, def: FlowDef) {
    forall c :: c in calls && c.StartFlowCall? ==> c.def == def
  }

  lemma {:induction false} RunIsAble(setup: Setup, def: FlowDef, calls: seq<Call>)
    requires Willing(setup, def) && UniqueIds(def) && OnlyFlow(calls, def)
    ensures Able(setup, def, Run(setup, calls)) && RunLinked(Run(setup, calls))
    ensures RuntimeLaws.RunLaw(setup, Run(setup, calls))
    decreases |calls|
  {
    RunKeepsLink(setup, calls);
    RuntimeLaws.RunKeepsLaw(setup, calls);
    if calls != [] {
      var k := |calls| - 1;
      assert calls[k] in calls;
      RunIsAble(setup, def, calls[..k]);
      CallNearer(setup, def, Run(setup, calls[..k]), calls[k]);
    }
  }

  lemma OnlyBefore(calls: seq<Call>, more: seq<Call>, def: FlowDef)
    requires OnlyFlow(calls + more, def)
    ensures OnlyFlow(calls, def)
  {
    assert forall c :: c in calls ==> c in calls + more;
  }

  /** One more call at the end of a run. */
  lemma OneCallNearer(setup: Setup, def: FlowDef, calls: seq<Call>, call: Call)
    requires Willing(setup, def) && UniqueIds(def) && OnlyFlow(calls + [call], def) && Run(setup, calls).flow.Some?
    ensures var s, t := Run(setup, calls), Run(setup, calls + [call]);
            && s.flow.value.def == def && t.flow.Some? && Nearer(s, t, TicksOf(call))
            && (!call.TickCall? ==> t.flow == s.flow)
            && (call.TickCall? && AllVerified(t.flow.value) ==> t.flow.value.status.CompletedFlow?)
  {
    OnlyBefore(calls, [call], def);
    assert call in calls + [call];
    RunStall.RunSnoc(setup, calls, call);
    RunIsAble(setup, def, calls);
    CallNearer(setup, def, Run(setup, calls), call);
  }

  /** Through any calls, every step comes nearer by as many ticks as there are among them. */
  lemma {:induction false} RunNearer(setup: Setup, def: FlowDef, calls: seq<Call>, more: seq<Call>, i: nat, k: nat)
    requires Willing(setup, def) && UniqueIds(def) && OnlyFlow(calls + more, def)
    requires Run(setup, calls).flow.Some? && i < |Run(setup, calls).flow.value.steps|
    requires Within(Run(setup, calls), i, k + Ticks(more))
    ensures var t := Run(setup, calls + more);
            t.flow.Some? && i < |t.flow.value.steps| && Within(t, i, k)
    decreases |more|
  {
    if more == [] {
      assert calls + more == calls;
    } else {
      var n := |more| - 1;
      var before := calls + more[..n];
      assert calls + more == before + [more[n]];
      OnlyBefore(before, [more[n]], def);
      RunNearer(setup, def, calls, more[..n], i, k + TicksOf(more[n]));
      OneCallNearer(setup, def, before, more[n]);
    }
  }

  lemma {:induction false} TicksConcat(a: seq<Call>, b: seq<Call>)
    ensures Ticks(a + b) == Ticks(a) + Ticks(b)
    decreases |b|
  {
    if b == [] {
      assert a + b == a;
    } else {
      var n := |b| - 1;
      assert (a + b)[..|a + b| - 1] == a + b[..n];
      TicksConcat(a, b[..n]);
    }
  }

  lemma {:induction false} SplitTicks(calls: seq<Call>, p: nat) returns (j: nat)
    requires p <= Ticks(calls)
    ensures j <= |calls| && Ticks(calls[..j]) == p && Ticks(calls[j..]) == Ticks(calls) - p
    decreases |calls|
  {
    if p == Ticks(calls) {
      j := |calls|;
      assert calls[..j] == calls && calls[j..] == [];
    } else {
      var n := |calls| - 1;
      j := SplitTicks(calls[..n], p);
      assert calls[..n][..j] == calls[..j] && calls == calls[..j] + calls[j..];
      TicksConcat(calls[..j], calls[j..]);
    }
  }

  /** A step whose dependencies are verified is at most four ticks from its own verification. */
  lemma NextIsNear(setup: Setup, def: FlowDef, s: Sys, i: nat)
    requires Ready(s) && Able(setup, def, s) && RunLinked(s) && s.flow.Some? && i < |s.flow.value.steps|
    requires DepsOk(s.flow.value, i)
    ensures Within(s, i, 4)
  {
    assert FlowLinked(s.flow.value, Told(Mid(s, [])));
    assert Within(s, i, 3) ==> Within(s, i, 4);
  }

  /** Four ticks verify at least one step more. */
  lemma FourTicksVerify(setup: Setup, def: FlowDef, calls: seq<Call>, more: seq<Call>)
    requires Willing(setup, def) && UniqueIds(def) && DepsResolve(def) && Acyclic(def) && OnlyFlow(calls + more, def)
    requires Run(setup, calls).flow.Some? && Ticks(more) >= 4
    ensures var s, t := Run(setup, calls), Run(setup, calls + more);
            && t.flow.Some? && t.flow.value.def == def
            && VerifiedSet(s.flow.value) <= VerifiedSet(t.flow.value)
            && (!AllVerified(s.flow.value) ==> |VerifiedSet(s.flow.value)| < |VerifiedSet(t.flow.value)|)
  {
    var s, t := Run(setup, calls), Run(setup, calls + more);
    FlowStays(setup, def, calls, more);
    if !AllVerified(s.flow.value) {
      OnlyBefore(calls, more, def);
      RunIsAble(setup, def, calls);
      var i := NextStep(s.flow.value);
      NextIsNear(setup, def, s, i);
      assert Within(s, i, 0 + Ticks(more));
      RunNearer(setup, def, calls, more, i, 0);
      assert i in VerifiedSet(t.flow.value) && i !in VerifiedSet(s.flow.value);
      SmallerSet(VerifiedSet(s.flow.value), VerifiedSet(t.flow.value));
    }
  }

  lemma OneCallStays(setup: Setup, def: FlowDef, calls: seq<Call>, call: Call)
    requires Willing(setup, def) && UniqueIds(def) && OnlyFlow(calls + [call], def) && Run(setup, calls).flow.Some?
    ensures var s, t := Run(setup, calls), Run(setup, calls + [call]);
            && t.flow.Some? && t.flow.value.def == def
            && VerifiedSet(s.flow.value) <= VerifiedSet(t.flow.value)
            && (!call.TickCall? ==> t.flow == s.flow)
            && (call.TickCall? && AllVerified(t.flow.value) ==> t.flow.value.status.CompletedFlow?)
  {
    OneCallNearer(setup, def, calls, call);
  }

  /** The flow is never dropped, nor a verified step unverified; and after a tick it is completed if all are. */
  lemma {:induction false} FlowStays(setup: Setup, def: FlowDef, calls: seq<Call>, more: seq<Call>)
    requires Willing(setup, def) && UniqueIds(def) && OnlyFlow(calls + more, def) && Run(setup, calls).flow.Some?
    ensures var s, t := Run(setup, calls), Run(setup, calls + more);
            && t.flow.Some? && t.flow.value.def == def == s.flow.value.def
            && VerifiedSet(s.flow.value) <= VerifiedSet(t.flow.value)
            && (Ticks(more) > 0 && AllVerified(t.flow.value) ==> t.flow.value.status.CompletedFlow?)
    decreases |more|
  {
    if more == [] {
      assert calls + more == calls;
      RunIsAble(setup, def, calls);
    } else {
      var n := |more| - 1;
      var before := calls + more[..n];
      assert calls + more == before + [more[n]];
      OnlyBefore(before, [more[n]], def);
      FlowStays(setup, def, calls, more[..n]);
      OneCallStays(setup, def, before, more[n]);
    }
  }

  /** Every four ticks another step, until all are verified. */
  lemma {:induction false} VerifiedCount(setup: Setup, def: FlowDef, calls: seq<Call>, more: seq<Call>, m: nat)
    requires Willing(setup, def) && UniqueIds(def) && DepsResolve(def) && Acyclic(def) && OnlyFlow(calls + more, def)
    requires Run(setup, calls).flow.Some? && Ticks(more) >= 4 * m && m <= |def.steps|
    ensures Run(setup, calls + more).flow.Some?
    ensures |VerifiedSet(Run(setup, calls + more).flow.value)| >= m
    decreases m
  {
    if m == 0 {
      FlowStays(setup, def, calls, more);
    } else {
      var j := SplitTicks(more, 4 * (m - 1));
      assert (calls + more[..j]) + more[j..] == calls + more;
      OnlyBefore(calls + more[..j], more[j..], def);
      VerifiedCount(setup, def, calls, more[..j], m - 1);
      FlowStays(setup, def, calls, more[..j]);
      OneMore(setup, def, calls + more[..j], more[j..], m);
    }
  }

  lemma OneMore(setup: Setup, def: FlowDef, calls: seq<Call>, more: seq<Call>, m: nat)
    requires Willing(setup, def) && UniqueIds(def) && DepsResolve(def) && Acyclic(def) && OnlyFlow(calls + more, def)
    requires Run(setup, calls).flow.Some? && Run(setup, calls).flow.value.def == def && Ticks(more) >= 4
    requires 0 < m <= |def.steps| && |VerifiedSet(Run(setup, calls).flow.value)| >= m - 1
    ensures Run(setup, calls + more).flow.Some?
    ensures |VerifiedSet(Run(setup, calls + more).flow.value)| >= m
  {
    FourTicksVerify(setup, def, calls, more);
    var f := Run(setup, calls).flow.value;
    if AllVerified(f) {
      assert VerifiedSet(f) == Indices(|f.steps|);
      SubsetSize(VerifiedSet(f), VerifiedSet(Run(setup, calls + more).flow.value));
    }
  }

  /** Liveness of the assembled runtime: with a sink that takes every event, an adapter that obliges and stays
      connected, and polls of one or more strictly newer snapshots that serve the actions then open and end with one on
      which the conditions hold, an acyclic flow once started is completed, and said to be in the trace, by any list of
      calls that holds four ticks for each of its steps and at least one; whatever other actions are submitted and
      whatever else is called. */
  lemma FlowCompletesInEveryRun(setup: Setup, def: FlowDef, calls: seq<Call>, more: seq<Call>)
    requires Willing(setup, def) && UniqueIds(def) && DepsResolve(def) && Acyclic(def) && OnlyFlow(calls + more, def)
    requires Run(setup, calls).flow.Some? && Ticks(more) >= 1 && Ticks(more) >= 4 * |def.steps|
    ensures var t := Run(setup, calls + more);
            && t.flow.Some? && t.flow.value.status.CompletedFlow?
            && exists e :: e in Trace(t.history) && e.FlowCompleted?
  {
    FlowStays(setup, def, calls, more);
    VerifiedCount(setup, def, calls, more, |def.steps|);
    RunIsAble(setup, def, calls + more);
    var f := Run(setup, calls + more).flow.value;
    if !AllVerified(f) { NotAllVerified(f); }
  }

  // ---------- the conditions can be met ----------

  function NewestOf(snaps: seq<Snapshot>): nat {
    if snaps == [] then 0
    else
      var rest := NewestOf(snaps[1..]);
      if snaps[0].ms > rest then snaps[0].ms else rest
  }

  function Newest(h: History): nat {
    match h
    case Empty => 0
    case After(past, last) =>
      var before := Newest(past);
      var now := if last.Polled? && last.answer.Ok? then NewestOf(last.answer.value) else 0;
      if now > before then now else before
  }

  lemma {:induction false} NewestOfAll(snaps: seq<Snapshot>)
    ensures forall x :: x in snaps ==> x.ms <= NewestOf(snaps)
  {
    if snaps != [] {
      NewestOfAll(snaps[1..]);
      assert snaps == [snaps[0]] + snaps[1..];
    }
  }

  lemma {:induction false} NewestSeen(h: History)
    ensures forall x :: x in Seen(h) ==> x.ms <= Newest(h)
  {
    if h.After? {
      NewestSeen(h.past);
      if h.last.Polled? && h.last.answer.Ok? { NewestOfAll(h.last.answer.value); }
    }
  }

  const OBEYS: Verifier := (a, s) => Some(true)

  /** A simulator that obeys at once, polled once a tick. */
  const OBEDIENT: Setup := Setup(
    Env(h => None, h => true, h => Ok([Snapshot(Newest(h) + 1, Running, map[], map[])]), (h, a) => Supported,
        (h, a) => None, (h, e) => None, h => None),
    [CatalogEntry(BeaconKind, [], OBEYS, []), CatalogEntry(NavLogoKind, [], OBEYS, [])],
    2, 0, (a, b) => [], seen => Assessment(PREFLIGHT, "", ""))

  /** Two actions, the second after the first. */
  const PROCEDURE: FlowDef := FlowDef(
    "lights", [StepDef("beacon", [], Act(SetBeacon(On))), StepDef("logo", ["beacon"], Act(SetNavLogo(Sys1)))])

  lemma ObedientIsWilling()
    ensures Willing(OBEDIENT, PROCEDURE)
  {
    var beacon, logo := OBEDIENT.catalog[0], OBEDIENT.catalog[1];
    assert OBEDIENT.catalog[1..] == [logo];
    assert Lookup(OBEDIENT.catalog, BeaconKind) == Some(beacon);
    assert Lookup(OBEDIENT.catalog, NavLogoKind) == Lookup([logo], NavLogoKind) == Some(logo);
    forall h ensures PollsWell(OBEDIENT, PROCEDURE, h) {
      NewestSeen(h);
      var snap := Snapshot(Newest(h) + 1, Running, map[], map[]);
      forall a: CockpitAction
        ensures Admissible(OBEDIENT.catalog, a, snap) && Confirms(OBEDIENT.catalog, a, snap)
      {
        var e := if a.Kind() == BeaconKind then beacon else logo;
        assert Lookup(OBEDIENT.catalog, a.Kind()) == Some(e);
        assert e.verify(a, snap) == Some(true) && ChannelsFresh(e, snap);
      }
    }
  }

  lemma {:induction false} PathDescends(p: seq<nat>)
    requires |p| >= 2 && IsPath(PROCEDURE, p)
    ensures p[0] == 1 && p[|p| - 1] == 0
  {
    assert forall i: nat, j: nat :: DependsOn(PROCEDURE, i, j) ==> i == 1 && j == 0 by {
      assert Position(PROCEDURE.steps, "beacon") == Some(0);
    }
    assert DependsOn(PROCEDURE, p[0], p[1]) && DependsOn(PROCEDURE, p[|p| - 2], p[|p| - 1]);
  }

  /** So the procedure is carried out within eight ticks. */
  lemma ProcedureCompletes(more: seq<Call>)
    requires OnlyFlow(more, PROCEDURE) && Ticks(more) >= 8
    ensures exists e :: e in Trace(Run(OBEDIENT, [StartFlowCall(PROCEDURE)] + more).history) && e.FlowCompleted?
  {
    var start := [StartFlowCall(PROCEDURE)];
    ObedientIsWilling();
    assert Position(PROCEDURE.steps, "beacon") == Some(0);
    forall p: seq<nat> | |p| >= 2 && IsPath(PROCEDURE, p) ensures p[0] != p[|p| - 1] { PathDescends(p); }
    RunStall.RunSnoc(OBEDIENT, [], StartFlowCall(PROCEDURE));
    assert [] + start == start;
    assert Run(OBEDIENT, start) == StartFlowSpec(NewSys(), PROCEDURE);
    FlowCompletesInEveryRun(OBEDIENT, PROCEDURE, start, more);
  }
}
