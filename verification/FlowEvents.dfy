/** What the flow engine's events say: the opening one, the names and actions they carry, and the requests beside them.
    */
module FlowEvents {
  import opened Actions
  import opened Flow
  import opened FlowLaws

  // ---------- the opening event ----------

  /** The opening event comes first, once, and exactly if the flow has been started. */
  predicate OpensOnce(f: Flow, events: seq<SopEvent>) {
    && (f.started <==> events != [])
    && (events != [] ==> events[0] == SopStarted(f.def.id))
    && forall k :: 0 < k < |events| ==> !events[k].SopStarted?
  }

  lemma NoneStartedInReport(f: Flow, outcomes: seq<Outcome>)
    requires Shaped(f)
    ensures forall e :: e in ReportSpec(f, outcomes).1 ==> !e.SopStarted?
    ensures ReportSpec(f, outcomes).0.started == f.started
  {
    ReportAllOpen(f, outcomes);
  }

  lemma OpensWith(f: Flow, snap: Snapshot)
    requires Sane(f) && !f.started
    ensures var (g, events, _) := ProcessSpec(f, snap); OpensOnce(g, events) && g.started
  {
    var b := Begin(f);
    PassEventsOpen(b, snap, |b.steps|);
    var body, closing := PassEvents(b, snap, |b.steps|), Recheck(PassSteps(b, snap)).1;
    assert forall e: SopEvent :: e in body + closing ==> !e.SopStarted?;
    assert ProcessSpec(f, snap).1 == [SopStarted(f.def.id)] + (body + closing);
  }

  lemma StaysOpen(f: Flow, snap: Snapshot)
    requires Shaped(f) && f.started
    ensures var (g, events, _) := ProcessSpec(f, snap);
            g.started && forall e :: e in events ==> !e.SopStarted?
  {
    if !Closed(f) { PassEventsOpen(Begin(f), snap, |f.steps|); }
  }

  /** Not yet started, a flow has nothing to report on. */
  lemma SilentReport(f: Flow, outcomes: seq<Outcome>)
    requires Sane(f) && !f.started
    ensures ReportSpec(f, outcomes) == (f, [])
  {
    NothingWaiting(f, outcomes);
    var none: seq<SopEvent> := [];
    assert none + none == none;
  }

  lemma OpensExtends(f: Flow, g: Flow, events: seq<SopEvent>, more: seq<SopEvent>)
    requires OpensOnce(f, events) && g.def.id == f.def.id && f.started && g.started
    requires forall e :: e in more ==> !e.SopStarted?
    ensures OpensOnce(g, events + more)
  {
  }

  lemma OpeningStep(f: Flow, events: seq<SopEvent>, op: FlowOp)
    requires Sane(f) && OpensOnce(f, events)
    ensures OpensOnce(Apply(f, op).0, events + Apply(f, op).1)
    ensures Apply(f, op).0.started <==> f.started || op.ProcessOp?
  {
    var (g, more) := Apply(f, op);
    ApplyShaped(f, op);
    if op.ProcessOp? {
      if f.started {
        StaysOpen(f, op.snap);
        OpensExtends(f, g, events, more);
      } else {
        OpensWith(f, op.snap);
        assert events + more == more;
      }
    } else if op.ReportOp? {
      if f.started {
        NoneStartedInReport(f, op.outcomes);
        OpensExtends(f, g, events, more);
      } else {
        SilentReport(f, op.outcomes);
        assert events + more == events;
      }
    } else {
      assert events + more == events;
    }
  }

  predicate HasPass(ops: seq<FlowOp>) {
    exists k :: 0 <= k < |ops| && ops[k].ProcessOp?
  }

  lemma PassSeen(ops: seq<FlowOp>)
    requires ops != []
    ensures HasPass(ops) <==> HasPass(ops[..|ops| - 1]) || ops[|ops| - 1].ProcessOp?
  {
    var n := |ops| - 1;
    if HasPass(ops[..n]) {
      var k :| 0 <= k < n && ops[..n][k].ProcessOp?;
      assert ops[k].ProcessOp?;
    }
    if HasPass(ops) {
      var k :| 0 <= k < |ops| && ops[k].ProcessOp?;
      if k < n { assert ops[..n][k].ProcessOp?; }
    }
  }

  /** Over any calls on a fresh engine: the flow is started, and says so first of all and once, exactly if there was a
      pass. */
  lemma {:induction false} StartedOnce(def: FlowDef, ops: seq<FlowOp>)
    requires UniqueIds(def)
    ensures var (f, events) := Play(def, ops);
            && (f.started <==> HasPass(ops))
            && OpensOnce(f, events)
    decreases |ops|
  {
    if ops != [] {
      var n := |ops| - 1;
      StartedOnce(def, ops[..n]);
      FlowSafety(def, ops[..n]);
      var (f, events) := Play(def, ops[..n]);
      OpeningStep(f, events, ops[n]);
      PassSeen(ops);
    }
  }

  // ---------- names, actions and causes ----------

  predicate NamesStep(def: FlowDef, e: SopEvent)
    requires IsStepEvent(e)
  {
    exists i :: 0 <= i < |def.steps| && def.steps[i].id == e.step
                && (e.SopRequested? ==> def.steps[i].kind == Act(e.action))
                && (e.SopWaiting? ==> def.steps[i].kind.Observe?)
  }

  predicate Failing(status: ActionStatus) {
    status.Failed? || status.Rejected? || status.TimedOut?
  }

  predicate IsCause(outcomes: seq<Outcome>, cause: ActionStatus) {
    Failing(cause) && exists o :: o in outcomes && o.status == cause
  }

  /** The event names the flow, and a step of it with the step's own action; a failure names the status reported. */
  ghost predicate Truthful(def: FlowDef, outcomes: seq<Outcome>, e: SopEvent) {
    && e.flow == def.id && (IsStepEvent(e) ==> NamesStep(def, e))
    && (e.SopFailed? ==> IsCause(outcomes, e.cause))
  }

  ghost predicate AllTruthful(def: FlowDef, outcomes: seq<Outcome>, events: seq<SopEvent>) {
    forall e :: e in events ==> Truthful(def, outcomes, e)
  }

  lemma {:induction false} ReportEventsTruthful(f: Flow, o: Outcome, outcomes: seq<Outcome>, k: nat)
    requires Shaped(f) && k <= |f.steps| && o in outcomes
    ensures AllTruthful(f.def, outcomes, ReportEvents(f, o, k))
    decreases k
  {
    if k > 0 {
      ReportEventsTruthful(f, o, outcomes, k - 1);
      var d := f.def.steps[k - 1];
      forall e | e in ReportStep(f.def.id, d, f.steps[k - 1], o).1 ensures Truthful(f.def, outcomes, e) {
        assert e.step == d.id;
      }
    }
  }

  lemma {:induction false} ReportAllTruthful(f: Flow, outcomes: seq<Outcome>, all: seq<Outcome>)
    requires Shaped(f) && forall o :: o in outcomes ==> o in all
    ensures AllTruthful(f.def, all, ReportAll(f, outcomes).1)
    decreases |outcomes|
  {
    if outcomes != [] {
      var n := |outcomes| - 1;
      ReportAllTruthful(f, outcomes[..n], all);
      var g := ReportAll(f, outcomes[..n]).0;
      ReportEventsTruthful(g, outcomes[n], all, |g.steps|);
    }
  }

  lemma {:induction false} PassEventsTruthful(f: Flow, snap: Snapshot, k: nat)
    requires Shaped(f) && k <= |f.steps|
    ensures AllTruthful(f.def, [], PassEvents(f, snap, k))
    decreases k
  {
    if k > 0 {
      PassEventsTruthful(f, snap, k - 1);
      var d := f.def.steps[k - 1];
      forall e | e in PassAt(f, snap, k - 1).events ensures Truthful(f.def, [], e) {
        assert IsStepEvent(e) && e.step == d.id;
      }
    }
  }

  /** The outcomes reported over some calls. */
  function Reported(ops: seq<FlowOp>): seq<Outcome> {
    if ops == [] then []
    else
      var n := |ops| - 1;
      Reported(ops[..n]) + if ops[n].ReportOp? then ops[n].outcomes else []
  }

  lemma CauseKept(def: FlowDef, a: seq<Outcome>, b: seq<Outcome>, events: seq<SopEvent>)
    requires AllTruthful(def, a, events) && forall o :: o in a ==> o in b
    ensures AllTruthful(def, b, events)
  {
    forall e | e in events ensures Truthful(def, b, e) {
      if e.SopFailed? {
        var o :| o in a && o.status == e.cause;
        assert o in b;
      }
    }
  }

  /** Every event of every run of the engine names its flow, a step of it and that step's action, and a failure carries
      a failing status that was reported. */
  lemma {:induction false} EventsAreTruthful(def: FlowDef, ops: seq<FlowOp>)
    ensures AllTruthful(def, Reported(ops), Play(def, ops).1)
    decreases |ops|
  {
    if ops != [] {
      var n := |ops| - 1;
      EventsAreTruthful(def, ops[..n]);
      var (f, events) := Play(def, ops[..n]);
      CauseKept(def, Reported(ops[..n]), Reported(ops), events);
      CallIsTruthful(f, ops[n], Reported(ops));
    }
  }

  lemma CallIsTruthful(f: Flow, op: FlowOp, all: seq<Outcome>)
    requires Shaped(f) && (op.ReportOp? ==> forall o :: o in op.outcomes ==> o in all)
    ensures AllTruthful(f.def, all, Apply(f, op).1)
  {
    match op
    case ProcessOp(snap) =>
      PassEventsTruthful(Begin(f), snap, |f.steps|);
      CauseKept(f.def, [], all, PassEvents(Begin(f), snap, |f.steps|));
    case ReportOp(outcomes) => ReportAllTruthful(f, outcomes, all);
    case AssignOp(_, _) =>
  }

  // ---------- requests ----------

  /** The requests that these events speak of. */
  function RequestsIn(events: seq<SopEvent>): seq<StepRequest> {
    if events == [] then []
    else
      var e := events[|events| - 1];
      RequestsIn(events[..|events| - 1]) + if e.SopRequested? then [StepRequest(e.step, e.action)] else []
  }

  lemma {:induction false} AskedConcat(a: seq<SopEvent>, b: seq<SopEvent>)
    ensures RequestsIn(a + b) == RequestsIn(a) + RequestsIn(b)
    decreases |b|
  {
    if b == [] {
      assert a + b == a;
    } else {
      var n := |b| - 1;
      assert (a + b)[..|a + b| - 1] == a + b[..n];
      AskedConcat(a, b[..n]);
    }
  }

  lemma {:induction false} NothingAsked(events: seq<SopEvent>)
    requires forall e :: e in events ==> !e.SopRequested?
    ensures RequestsIn(events) == []
  {
    if events != [] { NothingAsked(events[..|events| - 1]); }
  }

  lemma StepAsks(f: Flow, snap: Snapshot, i: nat)
    requires Shaped(f) && i < |f.steps|
    ensures RequestsIn(PassAt(f, snap, i).events) == PassAt(f, snap, i).requests
  {
    var events := PassAt(f, snap, i).events;
    if |events| == 1 {
      assert events == [events[0]] && events[..0] == [];
    } else if |events| == 2 {
      assert events[..1] == [events[0]] && events[..1][..0] == [];
      assert RequestsIn(events[..1]) == [];
    }
  }

  lemma JoinedAsk(a: seq<SopEvent>, b: seq<SopEvent>, asked: seq<StepRequest>, more: seq<StepRequest>)
    requires RequestsIn(a) == asked && RequestsIn(b) == more
    ensures RequestsIn(a + b) == asked + more
  {
    AskedConcat(a, b);
  }

  lemma {:induction false} PassAsks(f: Flow, snap: Snapshot, k: nat)
    requires Shaped(f) && k <= |f.steps|
    ensures RequestsIn(PassEvents(f, snap, k)) == PassRequests(f, snap, k)
    decreases k
  {
    if k > 0 {
      var own := PassAt(f, snap, k - 1);
      PassAsks(f, snap, k - 1);
      StepAsks(f, snap, k - 1);
      JoinedAsk(PassEvents(f, snap, k - 1), own.events, PassRequests(f, snap, k - 1), own.requests);
    }
  }

  /** A pass asks for an action exactly as often, and in the same order, as its events say; a report asks for none. */
  lemma RequestsMatchEvents(f: Flow, snap: Snapshot, outcomes: seq<Outcome>)
    requires Shaped(f)
    ensures var (_, events, requests) := ProcessSpec(f, snap); RequestsIn(events) == requests
    ensures RequestsIn(ReportSpec(f, outcomes).1) == []
  {
    ReportAsksNothing(f, outcomes);
    if !Closed(f) {
      var b := Begin(f);
      var opening: seq<SopEvent> := if f.started then [] else [SopStarted(f.def.id)];
      PassAsks(b, snap, |b.steps|);
      FramedAsk(opening, PassEvents(b, snap, |b.steps|), Recheck(PassSteps(b, snap)).1);
    }
  }

  lemma FramedAsk(opening: seq<SopEvent>, body: seq<SopEvent>, closing: seq<SopEvent>)
    requires forall e :: e in opening ==> !e.SopRequested?
    requires forall e :: e in closing ==> !e.SopRequested?
    ensures RequestsIn(opening + body + closing) == RequestsIn(body)
  {
    NothingAsked(opening);
    NothingAsked(closing);
    AskedConcat(opening, body);
    AskedConcat(opening + body, closing);
  }

  lemma ReportAsksNothing(f: Flow, outcomes: seq<Outcome>)
    requires Shaped(f)
    ensures RequestsIn(ReportSpec(f, outcomes).1) == []
  {
    forall e | e in ReportAll(f, outcomes).1 ensures !e.SopRequested? { NoRequestReported(f, outcomes); }
    NothingAsked(ReportSpec(f, outcomes).1);
  }

  lemma {:induction false} NoRequestReported(f: Flow, outcomes: seq<Outcome>)
    requires Shaped(f)
    ensures forall e :: e in ReportAll(f, outcomes).1 ==> !e.SopRequested?
    decreases |outcomes|
  {
    if outcomes != [] {
      var n := |outcomes| - 1;
      NoRequestReported(f, outcomes[..n]);
      var g := ReportAll(f, outcomes[..n]).0;
      NoRequestInReport(g, outcomes[n], |g.steps|);
    }
  }

  lemma {:induction false} NoRequestInReport(f: Flow, o: Outcome, k: nat)
    requires Shaped(f) && k <= |f.steps|
    ensures forall e :: e in ReportEvents(f, o, k) ==> !e.SopRequested?
    decreases k
  {
    if k > 0 { NoRequestInReport(f, o, k - 1); }
  }
}
