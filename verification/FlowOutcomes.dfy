/** What reports and passes do to the steps of a flow: the verdict each waiting step gets, how a flow ends, and in which
    order its events come. */
module FlowOutcomes {
  import opened Actions
  import opened Flow
  import opened FlowLaws

  // ---------- the verdict on a waiting step ----------

  predicate Decides(o: Outcome, id: ActionId) {
    o.id == id && (o.status.Verified? || o.status.Failed? || o.status.Rejected? || o.status.TimedOut?)
  }

  /** The k-th outcome is the first that decides about the action. */
  predicate DecidesFirst(outcomes: seq<Outcome>, id: ActionId, k: nat) {
    k < |outcomes| && Decides(outcomes[k], id) && forall j :: 0 <= j < k ==> !Decides(outcomes[j], id)
  }

  predicate Undecided(outcomes: seq<Outcome>, id: ActionId) {
    forall j :: 0 <= j < |outcomes| ==> !Decides(outcomes[j], id)
  }

  /** A step that waits for a decided action is verified, or has failed, by the first decision; any other stays. */
  ghost predicate VerdictGiven(st: StepState, outcomes: seq<Outcome>, after: StepState) {
    if st.status.WaitingStep? && st.actionId.Some? && !Undecided(outcomes, st.actionId.value) then
      exists k: nat :: DecidesFirst(outcomes, st.actionId.value, k)
                  && after == st.(status := if outcomes[k].status.Verified? then VerifiedStep else FailedStep)
    else after == st
  }

  lemma {:induction false} ReportGivesVerdict(f: Flow, outcomes: seq<Outcome>, i: nat)
    requires Shaped(f) && i < |f.steps|
    ensures VerdictGiven(f.steps[i], outcomes, ReportAll(f, outcomes).0.steps[i])
    decreases |outcomes|
  {
    if outcomes != [] {
      var n := |outcomes| - 1;
      ReportGivesVerdict(f, outcomes[..n], i);
      var g := ReportAll(f, outcomes[..n]).0;
      OneMoreOutcome(f.def.id, f.def.steps[i], f.steps[i], outcomes, g.steps[i]);
    }
  }

  lemma OneMoreOutcome(flow: string, d: StepDef, st: StepState, outcomes: seq<Outcome>, after: StepState)
    requires outcomes != [] && VerdictGiven(st, outcomes[..|outcomes| - 1], after)
    ensures VerdictGiven(st, outcomes, ReportStep(flow, d, after, outcomes[|outcomes| - 1]).0)
  {
    var n := |outcomes| - 1;
    if st.status.WaitingStep? && st.actionId.Some? {
      var id := st.actionId.value;
      if !Undecided(outcomes[..n], id) {
        var k: nat :| DecidesFirst(outcomes[..n], id, k)
                 && after == st.(status := if outcomes[..n][k].status.Verified? then VerifiedStep else FailedStep);
        assert DecidesFirst(outcomes, id, k) && Decides(outcomes[k], id);
      } else if Decides(outcomes[n], id) {
        assert DecidesFirst(outcomes, id, n);
      }
    }
  }

  predicate AnyFailed(f: Flow) {
    exists i :: 0 <= i < |f.steps| && f.steps[i].status.FailedStep?
  }

  /** A failed step ends the flow: whatever was neither verified nor failed is given up. */
  predicate GivenUp(st: StepState, after: StepState) {
    after == if st.status.VerifiedStep? || st.status.FailedStep? then st else st.(status := AbortedStep)
  }

  /** A report gives every step of a running flow the verdict on its action; if a step has failed by then the others are
      given up, and otherwise they are left alone. */
  lemma ReportMeans(f: Flow, outcomes: seq<Outcome>, i: nat)
    requires Sane(f) && UniqueIds(f.def) && f.status.RunningFlow? && i < |f.steps|
    ensures var g := ReportSpec(f, outcomes).0;
            && |g.steps| == |f.steps| && (g.status.FailedFlow? <==> AnyFailed(g))
            && exists st :: VerdictGiven(f.steps[i], outcomes, st)
                            && if g.status.FailedFlow? then GivenUp(st, g.steps[i]) else g.steps[i] == st
  {
    var m := ReportAll(f, outcomes).0;
    ReportGivesVerdict(f, outcomes, i);
    forall j | 0 <= j < |f.steps| ensures !m.steps[j].status.AbortedStep? {
      ReportGivesVerdict(f, outcomes, j);
      VerdictIsNoAbort(f.steps[j], outcomes, m.steps[j]);
    }
    RecheckGivesUp(m, i);
  }

  lemma VerdictIsNoAbort(st: StepState, outcomes: seq<Outcome>, after: StepState)
    requires VerdictGiven(st, outcomes, after) && !st.status.AbortedStep?
    ensures !after.status.AbortedStep?
  {
  }

  lemma RecheckGivesUp(f: Flow, i: nat)
    requires f.status.RunningFlow? && i < |f.steps|
    requires forall j :: 0 <= j < |f.steps| ==> !f.steps[j].status.AbortedStep?
    ensures var g := Recheck(f).0;
            && |g.steps| == |f.steps| && (g.status.FailedFlow? <==> AnyFailed(g))
            && if g.status.FailedFlow? then GivenUp(f.steps[i], g.steps[i]) else g.steps[i] == f.steps[i]
  {
    var g := Recheck(f).0;
    if AnyFailed(f) {
      var k :| 0 <= k < |f.steps| && f.steps[k].status.FailedStep?;
      assert g.steps[k].status.FailedStep?;
    }
  }

  // ---------- how a flow ends ----------

  predicate AllVerified(f: Flow) {
    forall i :: 0 <= i < |f.steps| ==> f.steps[i].status.VerifiedStep?
  }

  /** Failed exactly if a step has failed, completed exactly if it has started and every step is verified. */
  predicate EndsRightly(f: Flow) {
    && (f.status.FailedFlow? <==> AnyFailed(f))
    && (f.status.CompletedFlow? <==> f.started && AllVerified(f))
  }

  /** The closing event says which of the two it was. */
  predicate EndIsTold(f: Flow, events: seq<SopEvent>) {
    && (f.status.FailedFlow? <==> events != [] && events[|events| - 1] == SopFlowFailed(f.def.id))
    && (f.status.CompletedFlow? <==> events != [] && events[|events| - 1] == SopFlowCompleted(f.def.id))
  }

  lemma RecheckEndsRightly(f: Flow)
    requires f.status.RunningFlow? && f.started
    requires forall j :: 0 <= j < |f.steps| ==> !f.steps[j].status.AbortedStep?
    ensures var (g, closing) := Recheck(f);
            && EndsRightly(g) && g.def == f.def && g.started
            && closing == if g.status.FailedFlow? then [SopFlowFailed(f.def.id)]
                          else if g.status.CompletedFlow? then [SopFlowCompleted(f.def.id)] else []
  {
    var g := Recheck(f).0;
    if AnyFailed(f) {
      var k :| 0 <= k < |f.steps| && f.steps[k].status.FailedStep?;
      assert g.steps[k].status.FailedStep?;
    }
  }

  lemma ReportEndsRightly(f: Flow, outcomes: seq<Outcome>, events: seq<SopEvent>)
    requires Sane(f) && UniqueIds(f.def) && EndsRightly(f) && EndIsTold(f, events)
    ensures var (g, more) := ReportSpec(f, outcomes);
            EndsRightly(g) && EndIsTold(g, events + more)
  {
    var (m, body) := ReportAll(f, outcomes);
    if f.status.RunningFlow? {
      forall j | 0 <= j < |f.steps| ensures !m.steps[j].status.AbortedStep? {
        ReportGivesVerdict(f, outcomes, j);
        VerdictIsNoAbort(f.steps[j], outcomes, m.steps[j]);
      }
      RecheckEndsRightly(m);
      ReportAllOpen(f, outcomes);
      EndTold(f, events, Recheck(m).0, body, Recheck(m).1);
    } else {
      NothingWaiting(f, outcomes);
      assert events + (body + Recheck(m).1) == events;
    }
  }

  /** Neither closing event stands among these. */
  lemma EndTold(f: Flow, events: seq<SopEvent>, g: Flow, body: seq<SopEvent>, closing: seq<SopEvent>)
    requires EndIsTold(f, events) && !Closed(f) && g.def == f.def && !g.status.NotStarted?
    requires forall e :: e in body ==> !IsClosing(e)
    requires closing == if g.status.FailedFlow? then [SopFlowFailed(f.def.id)]
                        else if g.status.CompletedFlow? then [SopFlowCompleted(f.def.id)] else []
    ensures EndIsTold(g, events + (body + closing))
  {
    var all := events + (body + closing);
    if closing == [] && all != [] {
      assert all[|all| - 1] == if body != [] then body[|body| - 1] else events[|events| - 1];
      if body != [] { assert body[|body| - 1] in body; }
    }
  }

  lemma PassEndsRightly(f: Flow, snap: Snapshot, events: seq<SopEvent>)
    requires Sane(f) && EndsRightly(f) && EndIsTold(f, events)
    ensures var (g, more, _) := ProcessSpec(f, snap);
            EndsRightly(g) && EndIsTold(g, events + more)
  {
    if Closed(f) {
      assert events + [] == events;
    } else {
      var b := Begin(f);
      var m := PassSteps(b, snap);
      forall i | 0 <= i < |m.steps| ensures !m.steps[i].status.AbortedStep? {
        assert m.steps[i] == PassAt(b, snap, i).st;
      }
      RecheckEndsRightly(m);
      var opening := if f.started then [] else [SopStarted(f.def.id)];
      var body := PassEvents(b, snap, |b.steps|);
      PassEventsOpen(b, snap, |b.steps|);
      EndTold(f, events, Recheck(m).0, opening + body, Recheck(m).1);
      assert opening + body + Recheck(m).1 == (opening + body) + Recheck(m).1;
    }
  }

  lemma AssignEndsRightly(f: Flow, stepId: string, id: ActionId)
    requires Sane(f) && EndsRightly(f)
    ensures EndsRightly(AssignSpec(f, stepId, id)) && AssignSpec(f, stepId, id).status == f.status
  {
    var g := AssignSpec(f, stepId, id);
    AssignLaw(f, stepId, id);
    if AnyFailed(f) {
      var i :| 0 <= i < |f.steps| && f.steps[i].status.FailedStep?;
      assert g.steps[i].status.FailedStep?;
    }
  }

  /** Over any calls on a fresh engine: the flow has failed exactly if one of its steps has, and is completed exactly if
      it was started and all of them are verified; and the last event says which. */
  lemma {:induction false} EndInEveryPlay(def: FlowDef, ops: seq<FlowOp>)
    requires UniqueIds(def)
    ensures var (f, events) := Play(def, ops); EndsRightly(f) && EndIsTold(f, events)
    decreases |ops|
  {
    if ops != [] {
      var n := |ops| - 1;
      EndInEveryPlay(def, ops[..n]);
      FlowSafety(def, ops[..n]);
      var (f, events) := Play(def, ops[..n]);
      match ops[n]
      case ProcessOp(snap) => PassEndsRightly(f, snap, events);
      case ReportOp(outcomes) => ReportEndsRightly(f, outcomes, events);
      case AssignOp(stepId, id) =>
        AssignEndsRightly(f, stepId, id);
        assert events + [] == events;
    }
  }

  // ---------- the order of the events ----------

  predicate AboutStepAt(def: FlowDef, e: SopEvent, i: nat) {
    i < |def.steps| && IsStepEvent(e) && e.step == def.steps[i].id
  }

  /** The events of a pass go through the steps in the order of the definition. */
  predicate InStepOrder(def: FlowDef, events: seq<SopEvent>, owners: seq<nat>) {
    && |owners| == |events| && (forall k :: 0 <= k < |owners| ==> AboutStepAt(def, events[k], owners[k]))
    && forall j, k :: 0 <= j < k < |owners| ==> owners[j] <= owners[k]
  }

  lemma {:induction false} PassInStepOrder(f: Flow, snap: Snapshot, k: nat) returns (owners: seq<nat>)
    requires Shaped(f) && k <= |f.steps|
    ensures InStepOrder(f.def, PassEvents(f, snap, k), owners) && forall j :: 0 <= j < |owners| ==> owners[j] < k
    decreases k
  {
    owners := [];
    if k > 0 {
      var before := PassInStepOrder(f, snap, k - 1);
      var own := PassAt(f, snap, k - 1).events;
      owners := before + seq(|own|, _ => k - 1);
    }
  }

  lemma {:induction false} OutcomeInStepOrder(f: Flow, o: Outcome, k: nat) returns (owners: seq<nat>)
    requires Shaped(f) && k <= |f.steps|
    ensures InStepOrder(f.def, ReportEvents(f, o, k), owners) && forall j :: 0 <= j < |owners| ==> owners[j] < k
    decreases k
  {
    owners := [];
    if k > 0 {
      var before := OutcomeInStepOrder(f, o, k - 1);
      var own := ReportStep(f.def.id, f.def.steps[k - 1], f.steps[k - 1], o).1;
      owners := before + seq(|own|, _ => k - 1);
    }
  }

  /** The verdicts that a report tells come in the order of the outcomes they are due to: each step's action is the one
      that outcome is about. */
  predicate InOutcomeOrder(f: Flow, events: seq<SopEvent>, outcomes: seq<Outcome>, causes: seq<nat>) {
    && |causes| == |events| && Shaped(f)
    && (forall k :: 0 <= k < |causes| ==> causes[k] < |outcomes| && IsDueTo(f, events[k], outcomes[causes[k]]))
    && forall j, k :: 0 <= j < k < |causes| ==> causes[j] <= causes[k]
  }

  predicate IsDueTo(f: Flow, e: SopEvent, o: Outcome)
    requires Shaped(f)
  {
    (e.SopVerified? || e.SopFailed?) && (e.SopVerified? <==> o.status.Verified?)
    && (e.SopFailed? ==> e.cause == o.status)
    && exists i :: 0 <= i < |f.steps| && f.def.steps[i].id == e.step && f.steps[i].actionId == Some(o.id)
  }

  lemma {:induction false} ReportDueTo(f: Flow, o: Outcome, k: nat)
    requires Shaped(f) && k <= |f.steps|
    ensures forall e :: e in ReportEvents(f, o, k) ==> IsDueTo(f, e, o)
    decreases k
  {
    if k > 0 { ReportDueTo(f, o, k - 1); }
  }

  lemma {:induction false} ReportInOutcomeOrder(f: Flow, outcomes: seq<Outcome>) returns (causes: seq<nat>)
    requires Shaped(f)
    ensures InOutcomeOrder(f, ReportAll(f, outcomes).1, outcomes, causes)
    ensures forall i :: 0 <= i < |f.steps| ==> ReportAll(f, outcomes).0.steps[i].actionId == f.steps[i].actionId
    decreases |outcomes|
  {
    causes := [];
    if outcomes != [] {
      var n := |outcomes| - 1;
      var before := ReportInOutcomeOrder(f, outcomes[..n]);
      var (g, events) := ReportAll(f, outcomes[..n]);
      var own := ReportEvents(g, outcomes[n], |g.steps|);
      ReportDueTo(g, outcomes[n], |g.steps|);
      causes := before + seq(|own|, _ => n);
      forall k | 0 <= k < |own| ensures IsDueTo(f, own[k], outcomes[n]) {
        assert own[k] in own && IsDueTo(g, own[k], outcomes[n]);
      }
    }
  }

  // ---------- nothing is looked at too late ----------

  /** A step that is still pending after a pass has a dependency that is not verified by then, or one that the pass
      itself may just have verified by observation: the verdicts on actions that the pass was given all count. */
  lemma NoneLeftBehind(f: Flow, snap: Snapshot, i: nat)
    requires Shaped(f) && !Closed(f) && i < |f.steps|
    requires var g := ProcessSpec(f, snap).0; g.status.RunningFlow? && g.steps[i].status.PendingStep?
    ensures LeftWaiting(ProcessSpec(f, snap).0, i)
  {
    var g := ProcessSpec(f, snap).0;
    assert g == PassSteps(Begin(f), snap);
    assert !DepsOk(Begin(f), i);
    var d :| d in f.def.steps[i].dependsOn &&
             var p := Position(f.def.steps, d); !(p.Some? && IsVerified(Begin(f), p.value));
    var p := Position(f.def.steps, d);
    if p.Some? { assert g.steps[p.value] == PassAt(Begin(f), snap, p.value).st; }
    assert HoldsUp(g, d);
  }

  /** This dependency is no verified action step. */
  predicate HoldsUp(f: Flow, d: string)
    requires Shaped(f)
  {
    match Position(f.def.steps, d)
    case None => true
    case Some(p) => !IsVerified(f, p) || f.def.steps[p].kind.Observe?
  }

  predicate LeftWaiting(f: Flow, i: nat)
    requires Shaped(f) && i < |f.steps|
  {
    exists d :: d in f.def.steps[i].dependsOn && HoldsUp(f, d)
  }
}
