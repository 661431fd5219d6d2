/** The flow inside the assembled runtime: a step or a flow is only ever called verified on earned evidence. */
module RunFlow {
  import opened Actions
  import opened History
  import opened Executor
  import opened Lifecycle
  import opened ExecutorLaws
  import opened Flow
  import opened RuntimeModel
  import opened RuntimeFrame
  import opened FlowLaws

  // ---------- what counts as earned ----------

  predicate ProvenBefore(v: seq<TraceEvent>, k: nat, id: ActionId) {
    exists j :: 0 <= j < k && j < |v| && v[j].ActionVerified? && v[j].id == id
  }

  predicate AskedBefore(v: seq<TraceEvent>, k: nat, id: ActionId, action: CockpitAction) {
    exists j :: 0 <= j < k && j < |v| && v[j].ActionRequested? && v[j].id == id
                && v[j].action == action && v[j].actor == RuntimeActor
  }

  /** An action step has an id, and before position k its own action was requested and verified under that id. */
  predicate EarnedBefore(f: Flow, i: nat, v: seq<TraceEvent>, k: nat)
    requires Shaped(f) && i < |f.steps|
  {
    f.def.steps[i].kind.Act? ==>
      && f.steps[i].actionId.Some?
      && AskedBefore(v, k, f.steps[i].actionId.value, f.def.steps[i].kind.action)
      && ProvenBefore(v, k, f.steps[i].actionId.value)
  }

  predicate StepEarned(f: Flow, v: seq<TraceEvent>, k: nat, step: string)
    requires Shaped(f)
  {
    exists i :: 0 <= i < |f.steps| && f.def.steps[i].id == step
                && f.steps[i].status.VerifiedStep? && EarnedBefore(f, i, v, k)
  }

  predicate FlowEarned(f: Flow, v: seq<TraceEvent>, k: nat)
    requires Shaped(f)
  {
    f.status.CompletedFlow?
    && forall i :: 0 <= i < |f.steps| ==> f.steps[i].status.VerifiedStep? && EarnedBefore(f, i, v, k)
  }

  predicate EventEarned(flow: Option<Flow>, v: seq<TraceEvent>, k: nat)
    requires k < |v| && (flow.Some? ==> Shaped(flow.value))
  {
    && !v[k].StepFailed? && !v[k].FlowFailed?
    && (v[k].StepVerified? ==> flow.Some? && v[k].flow == flow.value.def.id && StepEarned(flow.value, v, k, v[k].step))
    && (v[k].FlowCompleted? ==> flow.Some? && v[k].flow == flow.value.def.id && FlowEarned(flow.value, v, k))
  }

  /** Every verdict about the flow in the list is earned by what stands before it. */
  predicate Earned(flow: Option<Flow>, v: seq<TraceEvent>)
    requires flow.Some? ==> Shaped(flow.value)
  {
    forall k :: 0 <= k < |v| ==> EventEarned(flow, v, k)
  }

  // ---------- the invariant ----------

  function Told(m: Mid): seq<TraceEvent> {
    Trace(m.sys.history) + m.buffer
  }

  predicate NoFailure(f: Flow) {
    !f.status.FailedFlow? && forall i :: 0 <= i < |f.steps| ==> !f.steps[i].status.FailedStep?
  }

  predicate StepLinked(f: Flow, i: nat, v: seq<TraceEvent>)
    requires Shaped(f) && i < |f.steps|
  {
    && (f.steps[i].actionId.Some? ==>
          && f.def.steps[i].kind.Act? && !f.steps[i].status.PendingStep? && !f.steps[i].status.ReadyStep?
          && AskedBefore(v, |v|, f.steps[i].actionId.value, f.def.steps[i].kind.action))
    && (f.steps[i].status.VerifiedStep? ==> EarnedBefore(f, i, v, |v|))
  }

  ghost predicate FlowLinked(f: Flow, v: seq<TraceEvent>) {
    Sane(f) && UniqueIds(f.def) && NoFailure(f) && forall i :: 0 <= i < |f.steps| ==> StepLinked(f, i, v)
  }

  predicate OutcomesProven(outcomes: seq<Outcome>, v: seq<TraceEvent>) {
    forall o :: o in outcomes ==> o.status == Verified && ProvenBefore(v, |v|, o.id)
  }

  ghost predicate Linked(m: Mid)
    requires Ready(m.sys)
  {
    var v := Told(m);
    && Earned(m.sys.flow, v) && (m.sys.flow.Some? ==> FlowLinked(m.sys.flow.value, v))
    && OutcomesProven(m.sys.outcomes, v) && OutcomesProven(m.sys.exec.completed, v)
  }

  // ---------- longer lists ----------

  /** The same events, up to their sequence numbers, at the beginning of a longer list. */
  predicate Covers(v: seq<TraceEvent>, w: seq<TraceEvent>) {
    |v| <= |w| && forall k :: 0 <= k < |v| ==> w[k].WithSeq(0) == v[k].WithSeq(0)
  }

  lemma EarnedKept(f: Flow, i: nat, v: seq<TraceEvent>, w: seq<TraceEvent>, k: nat)
    requires Shaped(f) && i < |f.steps| && k <= |v| && Covers(v[..k], w) && EarnedBefore(f, i, v, k)
    ensures EarnedBefore(f, i, w, k)
  {
    if f.def.steps[i].kind.Act? {
      var j :| 0 <= j < k && v[j].ActionVerified? && v[j].id == f.steps[i].actionId.value;
      assert w[j].WithSeq(0) == v[..k][j].WithSeq(0);
      AskedKept(v, w, k, f.steps[i].actionId.value, f.def.steps[i].kind.action);
    }
  }

  lemma AskedKept(v: seq<TraceEvent>, w: seq<TraceEvent>, k: nat, id: ActionId, action: CockpitAction)
    requires k <= |v| && Covers(v[..k], w) && AskedBefore(v, k, id, action)
    ensures AskedBefore(w, k, id, action)
  {
    var j :| 0 <= j < k && v[j].ActionRequested? && v[j].id == id
             && v[j].action == action && v[j].actor == RuntimeActor;
    assert w[j].WithSeq(0) == v[..k][j].WithSeq(0);
  }

  lemma EarnedLater(f: Flow, i: nat, v: seq<TraceEvent>, k: nat, n: nat)
    requires Shaped(f) && i < |f.steps| && k <= n && EarnedBefore(f, i, v, k)
    ensures EarnedBefore(f, i, v, n)
  {
    if f.def.steps[i].kind.Act? {
      assert ProvenBefore(v, n, f.steps[i].actionId.value);
      var id, action := f.steps[i].actionId.value, f.def.steps[i].kind.action;
      var j :| 0 <= j < k && j < |v| && v[j].ActionRequested? && v[j].id == id
               && v[j].action == action && v[j].actor == RuntimeActor;
      assert AskedBefore(v, n, id, action);
    }
  }

  lemma EventKept(flow: Option<Flow>, v: seq<TraceEvent>, w: seq<TraceEvent>, k: nat)
    requires flow.Some? ==> Shaped(flow.value)
    requires k < |v| && k < |w| && Covers(v[..k], w) && w[k].WithSeq(0) == v[k].WithSeq(0) && EventEarned(flow, v, k)
    ensures EventEarned(flow, w, k)
  {
    if v[k].StepVerified? {
      var f := flow.value;
      var i :| 0 <= i < |f.steps| && f.def.steps[i].id == v[k].step
               && f.steps[i].status.VerifiedStep? && EarnedBefore(f, i, v, k);
      EarnedKept(f, i, v, w, k);
    }
    if v[k].FlowCompleted? {
      var f := flow.value;
      forall i | 0 <= i < |f.steps| ensures EarnedBefore(f, i, w, k) {
        EarnedKept(f, i, v, w, k);
      }
    }
  }

  /** Verdicts earned in a list are earned in any beginning of it, restamped or not. */
  lemma PrefixEarned(flow: Option<Flow>, v: seq<TraceEvent>, w: seq<TraceEvent>)
    requires (flow.Some? ==> Shaped(flow.value)) && Earned(flow, v) && Covers(w, v)
    ensures Earned(flow, w)
  {
    forall k | 0 <= k < |w| ensures EventEarned(flow, w, k) {
      EventKept(flow, v, w, k);
    }
  }

  lemma OutcomesKept(outcomes: seq<Outcome>, v: seq<TraceEvent>, w: seq<TraceEvent>)
    requires OutcomesProven(outcomes, v) && Covers(v, w)
    ensures OutcomesProven(outcomes, w)
  {
    forall o | o in outcomes ensures o.status == Verified && ProvenBefore(w, |w|, o.id) {
      var j :| 0 <= j < |v| && v[j].ActionVerified? && v[j].id == o.id;
      assert w[j].WithSeq(0) == v[j].WithSeq(0);
    }
  }

  lemma FlowKept(f: Flow, v: seq<TraceEvent>, w: seq<TraceEvent>)
    requires FlowLinked(f, v) && Covers(v, w)
    ensures FlowLinked(f, w)
  {
    assert v[..|v|] == v;
    forall i | 0 <= i < |f.steps| ensures StepLinked(f, i, w) {
      assert StepLinked(f, i, v);
      if f.def.steps[i].kind.Act? && f.steps[i].actionId.Some? {
        AskedKept(v, w, |v|, f.steps[i].actionId.value, f.def.steps[i].kind.action);
      }
      if f.steps[i].status.VerifiedStep? {
        EarnedKept(f, i, v, w, |v|);
        EarnedLater(f, i, w, |v|, |w|);
      }
    }
  }

  predicate NoVerdict(events: seq<TraceEvent>) {
    forall e :: e in events ==> !e.StepVerified? && !e.StepFailed? && !e.FlowCompleted? && !e.FlowFailed?
  }

  /** Events without a verdict on the flow, some of them perhaps proving new outcomes. */
  lemma QuietLinked(m: Mid, n: Mid, events: seq<TraceEvent>)
    requires Ready(m.sys) && Ready(n.sys) && Linked(m) && NoVerdict(events)
    requires Covers(Told(m) + events, Told(n)) && |Told(n)| == |Told(m)| + |events|
    requires n.sys.flow == m.sys.flow && n.sys.outcomes == m.sys.outcomes
    requires OutcomesProven(n.sys.exec.completed, Told(n))
    ensures Linked(n)
  {
    var v, w := Told(m), Told(n);
    assert Covers(v, w) by {
      forall k | 0 <= k < |v| ensures w[k].WithSeq(0) == v[k].WithSeq(0) {
        assert w[k].WithSeq(0) == (v + events)[k].WithSeq(0);
      }
    }
    OutcomesKept(m.sys.outcomes, v, w);
    if m.sys.flow.Some? { FlowKept(m.sys.flow.value, v, w); }
    forall k | 0 <= k < |w| ensures EventEarned(n.sys.flow, w, k) {
      assert w[k].WithSeq(0) == (v + events)[k].WithSeq(0);
      if k < |v| {
        EventKept(m.sys.flow, v, w, k);
      } else {
        assert events[k - |v|] in events;
        assert w[k].WithSeq(0) == events[k - |v|].WithSeq(0);
      }
    }
  }

  // ---------- observing and advancing ----------

  lemma ObserveLinked(setup: Setup, m: Mid, snap: Snapshot, source: EventSource)
    requires Ready(m.sys) && Linked(m)
    ensures Linked(ObserveSpec(setup, m, snap, source))
  {
    var n := ObserveSpec(setup, m, snap, source);
    var events := Ingest(setup, m.sys.last, snap, source) + EvaluateSpec(setup, m.sys.phase, m.sys.last, snap).1;
    assert Told(n) == Told(m) + events;
    OutcomesKept(m.sys.exec.completed, Told(m), Told(n));
    QuietLinked(m, n, events);
  }

  predicate DoneShown(t: Turn) {
    forall o :: o in t.done ==> exists e :: e in t.events && e.ActionVerified? && e.id == o.id
  }

  lemma JoinedShown(a: Turn, b: Turn, t: Turn)
    requires DoneShown(a) && DoneShown(b) && t.done == a.done + b.done && t.events == a.events + b.events
    ensures DoneShown(t)
  {
    forall o | o in t.done ensures exists e :: e in t.events && e.ActionVerified? && e.id == o.id {
      if o in a.done {
        var e :| e in a.events && e.ActionVerified? && e.id == o.id;
        assert e in t.events;
      } else {
        var e :| e in b.events && e.ActionVerified? && e.id == o.id;
        assert e in t.events;
      }
    }
  }

  lemma {:induction false} PassShown(rules: Rules, q: Queue, snap: Snapshot, h: History)
    requires AllInFlight(q)
    ensures DoneShown(Pass(rules, q, snap, h))
  {
    if q != [] {
      var t := Stage(rules, q[0], snap, h);
      assert DoneShown(t) by {
        if t.done != [] { assert ActionVerified(PLACEHOLDER, snap.ms, q[0].id) in t.events; }
      }
      PassShown(rules, q[1..], snap, t.history);
      JoinedShown(t, Pass(rules, q[1..], snap, t.history), Pass(rules, q, snap, h));
    }
  }

  /** Every outcome an advance completes has its verification among the advance's events. */
  lemma {:induction false} PassesShown(rules: Rules, q: Queue, snap: Snapshot, h: History)
    requires AllInFlight(q)
    ensures DoneShown(Passes(rules, q, snap, h))
    decreases Rank(q)
  {
    var t := Pass(rules, q, snap, h);
    PassShown(rules, q, snap, h);
    if t.progressed && t.kept != [] {
      PassLowersRank(rules, q, snap, h);
      PassesShown(rules, t.kept, snap, t.history);
      JoinedShown(t, Passes(rules, t.kept, snap, t.history), Passes(rules, q, snap, h));
    }
  }

  lemma ActionLinked(setup: Setup, m: Mid, snap: Snapshot)
    requires Ready(m.sys) && Linked(m)
    ensures Linked(ActionSpec(setup, m, snap))
  {
    var n := ActionSpec(setup, m, snap);
    var t := Passes(setup.Rules(), m.sys.exec.pending, snap, m.sys.history);
    PassesFrame(setup.Rules(), m.sys.exec.pending, snap, m.sys.history);
    PassesShown(setup.Rules(), m.sys.exec.pending, snap, m.sys.history);
    var w := Told(n);
    assert w == Told(m) + t.events;
    OutcomesKept(m.sys.exec.completed, Told(m), w);
    forall o | o in t.done ensures o.status == Verified && ProvenBefore(w, |w|, o.id) {
      var e :| e in t.events && e.ActionVerified? && e.id == o.id;
      var j :| 0 <= j < |t.events| && t.events[j] == e;
      assert w[|Told(m)| + j] == e;
    }
    QuietLinked(m, n, t.events);
  }

  // ---------- one flow pass ----------

  /** What a report of verified outcomes may do to a step. */
  predicate StepReported(f: Flow, g: Flow, i: nat, outcomes: seq<Outcome>)
    requires Shaped(f) && Shaped(g) && f.def == g.def && i < |f.steps|
  {
    || g.steps[i] == f.steps[i]
    || (f.steps[i].status.WaitingStep? && g.steps[i] == f.steps[i].(status := VerifiedStep)
        && f.steps[i].actionId.Some? && Outcome(f.steps[i].actionId.value, Verified) in outcomes)
  }

  predicate NamesVerified(f: Flow, e: SopEvent)
    requires Shaped(f)
  {
    && !e.SopFailed? && !e.SopFlowFailed?
    && (e.SopVerified? ==> e.flow == f.def.id
                           && exists i :: 0 <= i < |f.steps| && f.def.steps[i].id == e.step
                                          && f.steps[i].status.VerifiedStep?)
    && (e.SopFlowCompleted? ==> e.flow == f.def.id && f.status.CompletedFlow?)
  }

  predicate AllNameVerified(f: Flow, events: seq<SopEvent>)
    requires Shaped(f)
  {
    forall e :: e in events ==> NamesVerified(f, e)
  }

  lemma NamesStay(f: Flow, g: Flow, events: seq<SopEvent>)
    requires VerifiedStays(f, g) && AllNameVerified(f, events)
    requires f.status.CompletedFlow? ==> g.status.CompletedFlow?
    ensures AllNameVerified(g, events)
  {
    forall e | e in events ensures NamesVerified(g, e) {
      assert NamesVerified(f, e);
      if e.SopVerified? {
        var i :| 0 <= i < |f.steps| && f.def.steps[i].id == e.step && f.steps[i].status.VerifiedStep?;
        assert g.steps[i].status.VerifiedStep?;
      }
    }
  }

  lemma {:induction false} ReportEventsName(f: Flow, o: Outcome, k: nat)
    requires Shaped(f) && o.status == Verified && k <= |f.steps|
    ensures AllNameVerified(ReportSteps(f, o), ReportEvents(f, o, k))
    decreases k
  {
    if k > 0 {
      ReportEventsName(f, o, k - 1);
      var (st, events) := ReportStep(f.def.id, f.def.steps[k - 1], f.steps[k - 1], o);
      var g := ReportSteps(f, o);
      forall e | e in events ensures NamesVerified(g, e) {
        assert g.steps[k - 1] == st && g.def.steps[k - 1].id == e.step;
      }
    }
  }

  lemma ReportStepsKeep(f: Flow, o: Outcome)
    requires Shaped(f) && o.status == Verified
    ensures VerifiedStays(f, ReportSteps(f, o))
    ensures forall i :: 0 <= i < |f.steps| ==> StepReported(f, ReportSteps(f, o), i, [o])
  {
  }

  lemma {:induction false} ReportAllEffect(f: Flow, outcomes: seq<Outcome>)
    requires Shaped(f) && forall o :: o in outcomes ==> o.status == Verified
    ensures var (g, events) := ReportAll(f, outcomes);
            && VerifiedStays(f, g) && AllNameVerified(g, events)
            && forall i :: 0 <= i < |f.steps| ==> StepReported(f, g, i, outcomes)
    decreases |outcomes|
  {
    if outcomes != [] {
      var n := |outcomes| - 1;
      var (g, events) := ReportAll(f, outcomes[..n]);
      var o := outcomes[n];
      assert outcomes == outcomes[..n] + [o] && o in outcomes;
      ReportAllEffect(f, outcomes[..n]);
      ReportStepsKeep(g, o);
      NamesStay(g, ReportSteps(g, o), events);
      ReportEventsName(g, o, |g.steps|);
      forall i | 0 <= i < |f.steps| ensures StepReported(f, ReportSteps(g, o), i, outcomes) {
        assert StepReported(f, g, i, outcomes[..n]);
        assert StepReported(g, ReportSteps(g, o), i, [o]);
      }
    }
  }

  /** With nothing failed a recheck can only complete the flow. */
  lemma RecheckQuiet(f: Flow)
    requires Shaped(f) && NoFailure(f)
    ensures var (g, events) := Recheck(f);
            && Shaped(g) && g.def == f.def && g.steps == f.steps && NoFailure(g) && AllNameVerified(g, events)
            && (f.status.CompletedFlow? ==> g.status.CompletedFlow?)
            && (!f.status.CompletedFlow? && g.status.CompletedFlow? ==>
                  forall i :: 0 <= i < |f.steps| ==> f.steps[i].status.VerifiedStep?)
  {
  }

  lemma ReportEffect(f: Flow, outcomes: seq<Outcome>)
    requires Sane(f) && UniqueIds(f.def) && NoFailure(f) && forall o :: o in outcomes ==> o.status == Verified
    ensures var (g, events) := ReportSpec(f, outcomes);
            && Sane(g) && VerifiedStays(f, g) && NoFailure(g) && AllNameVerified(g, events)
            && (f.status.CompletedFlow? ==> g.status.CompletedFlow?)
            && forall i :: 0 <= i < |f.steps| ==> StepReported(f, g, i, outcomes)
  {
    ReportLaw(f, outcomes);
    ReportAllEffect(f, outcomes);
    var (m, body) := ReportAll(f, outcomes);
    forall i | 0 <= i < |m.steps| ensures !m.steps[i].status.FailedStep? {
      assert StepReported(f, m, i, outcomes);
    }
    RecheckQuiet(m);
    NamesStay(m, Recheck(m).0, body);
    forall i | 0 <= i < |f.steps| ensures StepReported(f, Recheck(m).0, i, outcomes) {
      assert StepReported(f, m, i, outcomes);
    }
  }

  /** What a pass may do to a step: an action step is not verified by it, and ids stay. */
  predicate StepPassed(f: Flow, g: Flow, i: nat)
    requires Shaped(f) && Shaped(g) && f.def == g.def && i < |f.steps|
  {
    && g.steps[i].actionId == f.steps[i].actionId
    && (f.steps[i].status.PendingStep? || f.steps[i].status.ReadyStep? || g.steps[i] == f.steps[i])
    && (g.steps[i].status.VerifiedStep? && !f.steps[i].status.VerifiedStep? ==> f.def.steps[i].kind.Observe?)
  }

  /** A request comes from an action step that this very pass moved from pending to waiting. */
  predicate RequestFrom(f: Flow, g: Flow, r: StepRequest)
    requires Shaped(f) && Shaped(g) && f.def == g.def
  {
    exists i :: 0 <= i < |f.steps| && f.def.steps[i].id == r.stepId && f.def.steps[i].kind == Act(r.action)
                && (f.steps[i].status.PendingStep? || f.steps[i].status.ReadyStep?) && g.steps[i].status.WaitingStep?
  }

  predicate AllRequestsFrom(f: Flow, g: Flow, requests: seq<StepRequest>)
    requires Shaped(f) && Shaped(g) && f.def == g.def
  {
    forall r :: r in requests ==> RequestFrom(f, g, r)
  }

  lemma {:induction false} PassEventsName(f: Flow, snap: Snapshot, k: nat)
    requires Shaped(f) && k <= |f.steps|
    ensures AllNameVerified(PassSteps(f, snap), PassEvents(f, snap, k))
    decreases k
  {
    if k > 0 {
      PassEventsName(f, snap, k - 1);
      var p, g := PassAt(f, snap, k - 1), PassSteps(f, snap);
      assert g.steps[k - 1] == p.st;
      forall e | e in p.events ensures NamesVerified(g, e) {
        assert IsStepEvent(e) && g.def.steps[k - 1].id == e.step;
      }
    }
  }

  lemma {:induction false} PassRequestsFrom(f: Flow, snap: Snapshot, k: nat)
    requires Shaped(f) && k <= |f.steps|
    ensures AllRequestsFrom(f, PassSteps(f, snap), PassRequests(f, snap, k))
    decreases k
  {
    if k > 0 {
      PassRequestsFrom(f, snap, k - 1);
      var p, g := PassAt(f, snap, k - 1), PassSteps(f, snap);
      assert g.steps[k - 1] == p.st;
      forall r | r in p.requests ensures RequestFrom(f, g, r) {
        assert f.def.steps[k - 1].id == r.stepId;
      }
    }
  }

  lemma PassStepsKeep(f: Flow, snap: Snapshot)
    requires Shaped(f)
    ensures VerifiedStays(f, PassSteps(f, snap))
    ensures forall i :: 0 <= i < |f.steps| ==> StepPassed(f, PassSteps(f, snap), i)
    ensures NoFailure(f) ==> NoFailure(PassSteps(f, snap))
  {
  }

  lemma ProcessEffect(f: Flow, snap: Snapshot)
    requires Sane(f) && UniqueIds(f.def) && NoFailure(f)
    ensures var (g, events, requests) := ProcessSpec(f, snap);
            && Sane(g) && VerifiedStays(f, g) && NoFailure(g) && AllNameVerified(g, events)
            && (f.status.CompletedFlow? ==> g.status.CompletedFlow?)
            && (forall i :: 0 <= i < |f.steps| ==> StepPassed(f, g, i)) && AllRequestsFrom(f, g, requests)
  {
    ProcessLaw(f, snap);
    if !FlowLaws.Closed(f) {
      var b := Begin(f);
      var m := PassSteps(b, snap);
      PassEventsName(b, snap, |b.steps|);
      PassRequestsFrom(b, snap, |b.steps|);
      PassStepsKeep(b, snap);
      RecheckQuiet(m);
      NamesStay(m, Recheck(m).0, PassEvents(b, snap, |b.steps|));
      var g, requests := ProcessSpec(f, snap).0, ProcessSpec(f, snap).2;
      assert b.steps == f.steps && g.steps == m.steps;
      forall i | 0 <= i < |f.steps| ensures StepPassed(f, g, i) {
        assert StepPassed(b, m, i);
      }
      forall r | r in requests ensures RequestFrom(f, g, r) {
        assert RequestFrom(b, m, r);
      }
    }
  }

  // ---------- the flow pass keeps the link ----------

  /** After the report and the pass, every verified step is earned by what had been told before. */
  lemma PassLinked(f: Flow, f1: Flow, f2: Flow, v: seq<TraceEvent>, outcomes: seq<Outcome>, i: nat)
    requires FlowLinked(f, v) && OutcomesProven(outcomes, v) && i < |f.steps|
    requires Shaped(f1) && Shaped(f2) && f1.def == f.def && f2.def == f.def
    requires StepReported(f, f1, i, outcomes) && StepPassed(f1, f2, i)
    ensures StepLinked(f2, i, v)
  {
    assert StepLinked(f, i, v);
  }

  lemma SopTraceEarned(f: Flow, v: seq<TraceEvent>, events: seq<SopEvent>, ts: nat)
    requires Shaped(f) && StatusesAgree(f) && AllNameVerified(f, events)
    requires forall i :: 0 <= i < |f.steps| ==> StepLinked(f, i, v)
    requires forall k :: 0 <= k < |v| ==> EventEarned(Some(f), v, k)
    ensures Earned(Some(f), v + SopTrace(events, ts))
  {
    var more := SopTrace(events, ts);
    var w := v + more;
    forall k | 0 <= k < |w| ensures EventEarned(Some(f), w, k) {
      if k < |v| {
        EventKept(Some(f), v, w, k);
      } else {
        var e := events[k - |v|];
        assert e in events && NamesVerified(f, e);
        assert w[k] == SopToTrace(e, ts);
        assert v[..|v|] == v;
        forall i | 0 <= i < |f.steps| && f.steps[i].status.VerifiedStep? ensures EarnedBefore(f, i, w, k) {
          assert StepLinked(f, i, v);
          EarnedKept(f, i, v, w, |v|);
          EarnedLater(f, i, w, |v|, k);
        }
      }
    }
  }

  /** Earned verdicts stay earned when verified steps keep their state. */
  lemma EventStays(f: Flow, g: Flow, v: seq<TraceEvent>, k: nat)
    requires Shaped(f) && Shaped(g) && f.def == g.def && k < |v| && EventEarned(Some(f), v, k)
    requires forall i :: 0 <= i < |f.steps| && f.steps[i].status.VerifiedStep? ==>
               g.steps[i].status.VerifiedStep? && g.steps[i].actionId == f.steps[i].actionId
    requires f.status.CompletedFlow? ==> g.status.CompletedFlow?
    ensures EventEarned(Some(g), v, k)
  {
    if v[k].StepVerified? {
      var i :| 0 <= i < |f.steps| && f.def.steps[i].id == v[k].step
               && f.steps[i].status.VerifiedStep? && EarnedBefore(f, i, v, k);
      assert EarnedBefore(g, i, v, k);
    }
    if v[k].FlowCompleted? {
      forall i | 0 <= i < |g.steps| ensures g.steps[i].status.VerifiedStep? && EarnedBefore(g, i, v, k) {
        assert EarnedBefore(f, i, v, k);
      }
    }
  }

  /** The report and the pass together: verified steps keep their ids, and the flow stays linked to what was told. */
  lemma PassedLinked(f: Flow, v: seq<TraceEvent>, outcomes: seq<Outcome>, snap: Snapshot)
    requires FlowLinked(f, v) && OutcomesProven(outcomes, v)
    ensures var (f1, reported) := ReportSpec(f, outcomes);
            Sane(f1) && f1.def == f.def && var (f2, processed, _) := ProcessSpec(f1, snap);
            && FlowLinked(f2, v) && f2.def == f.def && AllNameVerified(f2, reported + processed)
            && (f.status.CompletedFlow? ==> f2.status.CompletedFlow?)
            && forall i :: 0 <= i < |f.steps| && f.steps[i].status.VerifiedStep? ==>
                 f2.steps[i].status.VerifiedStep? && f2.steps[i].actionId == f.steps[i].actionId
  {
    var (f1, reported) := ReportSpec(f, outcomes);
    ReportEffect(f, outcomes);
    var (f2, processed, requests) := ProcessSpec(f1, snap);
    ProcessEffect(f1, snap);
    NamesStay(f1, f2, reported);
    forall i | 0 <= i < |f.steps| ensures StepLinked(f2, i, v) {
      assert StepReported(f, f1, i, outcomes) && StepPassed(f1, f2, i);
      PassLinked(f, f1, f2, v, outcomes, i);
    }
    forall i | 0 <= i < |f.steps| && f.steps[i].status.VerifiedStep?
      ensures f2.steps[i].status.VerifiedStep? && f2.steps[i].actionId == f.steps[i].actionId
    {
      assert StepReported(f, f1, i, outcomes) && StepPassed(f1, f2, i);
    }
  }

  /** What a report and a pass add to what has been told. */
  lemma ProcessedTold(b: Mid, snap: Snapshot)
    requires Ready(b.sys) && b.sys.flow.Some?
    ensures var (f1, reported) := ReportSpec(b.sys.flow.value, b.sys.outcomes);
            && Shaped(f1)
            && var (g, processed, _) := ProcessSpec(f1, snap);
            var p := Processed(b, snap).0;
            && p.sys.flow == Some(g) && Told(p) == Told(b) + SopTrace(reported + processed, snap.ms)
  {
    ApplyShaped(b.sys.flow.value, FlowLaws.ReportOp(b.sys.outcomes));
  }

  lemma ProcessedLinked(m: Mid, snap: Snapshot)
    requires Ready(m.sys) && m.sys.flow.Some? && Linked(m)
    ensures Linked(Processed(m, snap).0)
  {
    var f, v := m.sys.flow.value, Told(m);
    PassedLinked(f, v, m.sys.outcomes, snap);
    var (f1, reported) := ReportSpec(f, m.sys.outcomes);
    var (f2, processed, requests) := ProcessSpec(f1, snap);
    var events := reported + processed;
    forall k | 0 <= k < |v| ensures EventEarned(Some(f2), v, k) {
      assert EventEarned(Some(f), v, k);
      EventStays(f, f2, v, k);
    }
    SopTraceEarned(f2, v, events, snap.ms);
    var n := Processed(m, snap).0;
    assert Told(n) == v + SopTrace(events, snap.ms);
    FlowKept(f2, v, Told(n));
    OutcomesKept(m.sys.outcomes, v, Told(n));
    OutcomesKept(m.sys.exec.completed, v, Told(n));
  }

  /** The step a request is for waits, and wants just this action. */
  predicate Requestable(f: Flow, r: StepRequest) {
    exists i :: 0 <= i < |f.def.steps| && i < |f.steps| && f.def.steps[i].id == r.stepId
                && f.def.steps[i].kind == Act(r.action) && f.steps[i].status.WaitingStep?
  }

  predicate AllRequestable(f: Flow, requests: seq<StepRequest>) {
    forall r :: r in requests ==> Requestable(f, r)
  }

  /** Giving a waiting step its id touches no other step. */
  lemma AssignEffect(f: Flow, r: StepRequest, id: ActionId)
    requires Shaped(f) && UniqueIds(f.def) && Requestable(f, r)
    ensures var p := Position(f.def.steps, r.stepId);
            && p.Some? && f.def.steps[p.value].kind == Act(r.action) && f.steps[p.value].status.WaitingStep?
            && AssignSpec(f, r.stepId, id) == f.(steps := f.steps[p.value := f.steps[p.value].(actionId := Some(id))])
  {
    var i :| 0 <= i < |f.steps| && f.def.steps[i].id == r.stepId
             && f.def.steps[i].kind == Act(r.action) && f.steps[i].status.WaitingStep?;
    PositionIsUnique(f.def, i);
  }

  lemma StagedLinked(m: Mid, r: StepRequest, ts: nat)
    requires Ready(m.sys) && m.sys.flow.Some? && Linked(m) && Requestable(m.sys.flow.value, r)
    ensures Linked(StageRequest(m, r, ts))
    ensures forall q :: Requestable(m.sys.flow.value, q) ==> Requestable(StageRequest(m, r, ts).sys.flow.value, q)
  {
    var f, v, id := m.sys.flow.value, Told(m), m.sys.exec.nextId;
    var n := StageRequest(m, r, ts);
    var g, w := n.sys.flow.value, Told(n);
    AssignEffect(f, r, id);
    AssignLaw(f, r.stepId, id);
    var p := Position(f.def.steps, r.stepId).value;
    var e := ActionRequested(m.sys.nextSeq, ts, r.action, RuntimeActor, id);
    assert w == v + [e];
    FlowKept(f, v, w);
    assert AskedBefore(w, |w|, id, r.action) by { assert w[|v|] == e; }
    forall i | 0 <= i < |g.steps| ensures StepLinked(g, i, w) {
      assert StepLinked(f, i, w);
    }
    OutcomesKept(m.sys.outcomes, v, w);
    OutcomesKept(m.sys.exec.completed, v, w);
    forall k | 0 <= k < |w| ensures EventEarned(Some(g), w, k) {
      if k < |v| {
        assert EventEarned(Some(f), v, k);
        EventStays(f, g, v, k);
        EventKept(Some(g), v, w, k);
      }
    }
    forall q | Requestable(f, q) ensures Requestable(g, q) {
      var i :| 0 <= i < |f.steps| && f.def.steps[i].id == q.stepId
               && f.def.steps[i].kind == Act(q.action) && f.steps[i].status.WaitingStep?;
      assert g.steps[i].status.WaitingStep?;
    }
  }

  lemma {:induction false} StageRequestsLinked(m: Mid, requests: seq<StepRequest>, ts: nat)
    requires Ready(m.sys) && m.sys.flow.Some? && Linked(m) && AllRequestable(m.sys.flow.value, requests)
    ensures Linked(StageRequests(m, requests, ts))
    ensures forall q :: Requestable(m.sys.flow.value, q) ==>
              Requestable(StageRequests(m, requests, ts).sys.flow.value, q)
    decreases |requests|
  {
    if requests != [] {
      var k := |requests| - 1;
      assert requests[k] in requests && Requestable(m.sys.flow.value, requests[k]);
      StageRequestsLinked(m, requests[..k], ts);
      StagedLinked(StageRequests(m, requests[..k], ts), requests[k], ts);
    }
  }

  lemma RequestsAreRequestable(m: Mid, snap: Snapshot)
    requires Ready(m.sys) && m.sys.flow.Some? && Linked(m)
    ensures AllRequestable(Processed(m, snap).0.sys.flow.value, Processed(m, snap).1)
  {
    var f1 := ReportSpec(m.sys.flow.value, m.sys.outcomes).0;
    ReportEffect(m.sys.flow.value, m.sys.outcomes);
    ProcessEffect(f1, snap);
    var (f2, processed, requests) := ProcessSpec(f1, snap);
    forall r | r in requests ensures Requestable(f2, r) {
      assert RequestFrom(f1, f2, r);
    }
  }

  lemma FlowSpecLinked(m: Mid, snap: Snapshot)
    requires Ready(m.sys) && Linked(m)
    ensures Linked(FlowSpec(m, snap))
  {
    if m.sys.flow.Some? {
      ProcessedLinked(m, snap);
      RequestsAreRequestable(m, snap);
      var (n, requests) := Processed(m, snap);
      StageRequestsLinked(n, requests, snap.ms);
    }
  }

  // ---------- snapshots, appends, calls ----------

  lemma SnapshotLinked(setup: Setup, m: Mid, snap: Snapshot, source: EventSource)
    requires Ready(m.sys) && Linked(m)
    ensures Linked(SnapshotSpec(setup, m, snap, source))
  {
    var a := ObserveSpec(setup, m, snap, source);
    ObserveLinked(setup, m, snap, source);
    ActionLinked(setup, a, snap);
    FlowSpecLinked(ActionSpec(setup, a, snap), snap);
    var n := FlowSpec(ActionSpec(setup, a, snap), snap);
    assert Told(n.(sys := n.sys.(last := Some(snap)))) == Told(n);
  }

  lemma {:induction false} SnapshotsLinked(setup: Setup, m: Mid, snaps: seq<Snapshot>, source: EventSource)
    requires Ready(m.sys) && Linked(m)
    ensures Linked(SnapshotsSpec(setup, m, snaps, source))
    decreases |snaps|
  {
    if snaps != [] {
      var k := |snaps| - 1;
      SnapshotsLinked(setup, m, snaps[..k], source);
      SnapshotLinked(setup, SnapshotsSpec(setup, m, snaps[..k], source), snaps[k], source);
    }
  }

  /** The invariant between calls; what the trace says stays earned even after a failed append. */
  ghost predicate RunLinked(s: Sys)
    requires Ready(s)
  {
    && Earned(s.flow, Trace(s.history))
    && (s.poisoned.None? ==>
          Linked(Mid(s, [])) && (s.outcomes == [] || s.exec.completed == []) && (s.flow.None? ==> s.outcomes == []))
  }

  /** Moving the head of the buffer to the trace changes nothing but its number. */
  lemma AppendTold(setup: Setup, s: Sys, events: seq<TraceEvent>)
    requires events != []
    ensures var t := AppendOne(setup, s, events[0]);
            && Covers(Trace(t.history), Told(Mid(s, events)))
            && (t.poisoned.None? ==> Covers(Told(Mid(s, events)), Told(Mid(t, events[1..])))
                                     && |Told(Mid(t, events[1..]))| == |Told(Mid(s, events))|)
  {
    var t := AppendOne(setup, s, events[0]);
    if t.poisoned.None? {
      assert Trace(t.history) == Trace(s.history) + [events[0].WithSeq(s.nextSeq)];
    }
  }

  /** Moving the head of the buffer to the trace, or failing to. */
  lemma AppendLinked(setup: Setup, s: Sys, events: seq<TraceEvent>)
    requires Ready(s) && events != [] && Linked(Mid(s, events))
    ensures var t := AppendOne(setup, s, events[0]);
            && Earned(t.flow, Trace(t.history))
            && (t.poisoned.None? ==> Linked(Mid(t, events[1..])))
  {
    var t := AppendOne(setup, s, events[0]);
    AppendTold(setup, s, events);
    if t.poisoned.None? {
      var v, w := Told(Mid(s, events)), Told(Mid(t, events[1..]));
      assert v + [] == v;
      OutcomesKept(s.exec.completed, v, w);
      QuietLinked(Mid(s, events), Mid(t, events[1..]), []);
    }
    PrefixEarned(s.flow, Told(Mid(s, events)), Trace(t.history));
  }

  lemma {:induction false} AppendAllLinked(setup: Setup, s: Sys, events: seq<TraceEvent>)
    requires Ready(s) && s.poisoned.None? && Linked(Mid(s, events))
    ensures var t := AppendAll(setup, s, events);
            && Earned(t.flow, Trace(t.history))
            && t.flow == s.flow && t.outcomes == s.outcomes && t.exec == s.exec
            && (t.poisoned.None? ==> Linked(Mid(t, [])))
    decreases |events|
  {
    if events == [] {
      assert Told(Mid(s, [])) == Trace(s.history);
    } else {
      AppendLinked(setup, s, events);
      var t := AppendOne(setup, s, events[0]);
      if t.poisoned.None? { AppendAllLinked(setup, t, events[1..]); }
    }
  }

  lemma TickLinked(setup: Setup, s: Sys, snaps: seq<Snapshot>, source: EventSource)
    requires Ready(s) && RunLinked(s) && s.poisoned.None?
    ensures RunLinked(TickBody(setup, s, snaps, source))
  {
    var m := SnapshotsSpec(setup, Mid(s, []), snaps, source);
    SnapshotsLinked(setup, Mid(s, []), snaps, source);
    SnapshotsFramed(setup, Mid(s, []), snaps, source);
    AppendAllLinked(setup, m.sys, m.buffer);
    var a := AppendAll(setup, m.sys, m.buffer);
    if a.poisoned.None? {
      var t := SettleSpec(a);
      assert Told(Mid(t, [])) == Told(Mid(a, [])) == Trace(t.history);
    }
  }

  lemma NeutralLinked(s: Sys, t: Sys)
    requires Ready(s) && Ready(t) && RunLinked(s) && s.poisoned.None? && t.poisoned.None?
    requires Trace(t.history) == Trace(s.history) && t.flow == s.flow && t.outcomes == s.outcomes
    requires t.exec.completed == s.exec.completed || t.exec.completed == []
    ensures RunLinked(t)
  {
    assert Told(Mid(s, [])) == Trace(s.history) == Told(Mid(t, []));
  }

  lemma AppendOneLinked(setup: Setup, s: Sys, e: TraceEvent)
    requires Ready(s) && RunLinked(s) && s.poisoned.None? && NoVerdict([e])
    ensures RunLinked(AppendOne(setup, s, e))
  {
    var t := AppendOne(setup, s, e);
    assert Told(Mid(s, [])) == Trace(s.history);
    if t.poisoned.None? {
      var w := Told(Mid(t, []));
      assert w == Trace(s.history) + [e.WithSeq(s.nextSeq)];
      OutcomesKept(s.exec.completed, Trace(s.history), w);
      QuietLinked(Mid(s, []), Mid(t, []), [e]);
      assert w == Trace(t.history);
    }
  }

  lemma StartFlowLinked(s: Sys, def: FlowDef)
    requires Ready(s) && RunLinked(s) && s.poisoned.None? && UniqueIds(def)
    ensures RunLinked(StartFlowSpec(s, def))
  {
    if s.flow.None? {
      var t := StartFlowSpec(s, def);
      var f := t.flow.value;
      forall i | 0 <= i < |f.steps| ensures StepSane(f, i) {}
      var v := Trace(s.history);
      assert Told(Mid(s, [])) == v == Told(Mid(t, []));
      forall k | 0 <= k < |v| ensures EventEarned(t.flow, v, k) {
        assert EventEarned(s.flow, v, k);
      }
    }
  }

  lemma CallLinked(setup: Setup, s: Sys, call: Call)
    requires Ready(s) && RunLinked(s) && (call.StartFlowCall? ==> UniqueIds(call.def))
    ensures RunLinked(Do(setup, s, call))
  {
    if s.poisoned.None? {
      match call
      case StartCall =>
        var c := s.(history := After(s.history, Connected(setup.env.connect(s.history))));
        NeutralLinked(s, c);
        AppendOneLinked(setup, c, SessionStart(PLACEHOLDER, setup.sessionId));
      case StartFlowCall(def) => StartFlowLinked(s, def);
      case SubmitCall(action, actor, at) =>
        var c := s.(exec := SubmitSpec(s.exec, action, actor, at));
        NeutralLinked(s, c);
        AppendOneLinked(setup, c, ActionRequested(PLACEHOLDER, at, action, actor, s.exec.nextId));
        var a := AppendOne(setup, c, ActionRequested(PLACEHOLDER, at, action, actor, s.exec.nextId));
        if a.poisoned.None? { NeutralLinked(a, Do(setup, s, call)); }
      case TickCall(source) =>
        if setup.env.connected(s.history) {
          var answer := setup.env.poll(s.history);
          var polled := s.(history := After(s.history, Polled(answer)));
          NeutralLinked(s, polled);
          if answer.Ok? { TickLinked(setup, polled, answer.value, source); }
        }
      case TakeCall => NeutralLinked(s, TakeSpec(s));
      case FinishCall =>
        AppendOneLinked(setup, s, SessionEnd(PLACEHOLDER));
        var a := AppendOne(setup, s, SessionEnd(PLACEHOLDER));
        if a.poisoned.None? { NeutralLinked(a, Do(setup, s, call)); }
    }
  }

  /** Flow definitions come with unique step ids. */
  ghost predicate UniqueFlows(calls: seq<Call>) {
    forall c :: c in calls && c.StartFlowCall? ==> UniqueIds(c.def)
  }

  lemma {:induction false} RunKeepsLink(setup: Setup, calls: seq<Call>)
    requires UniqueFlows(calls)
    ensures RunLinked(Run(setup, calls))
    decreases |calls|
  {
    if calls != [] {
      var k := |calls| - 1;
      assert calls[k] in calls;
      RunKeepsLink(setup, calls[..k]);
      CallLinked(setup, Run(setup, calls[..k]), calls[k]);
    }
  }

  // ---------- main results ----------

  /** In every run, each StepVerified of the trace is about a step of the running flow, and if that step is an action
      step, then its own action was requested by the runtime and verified, under the id the step was given, earlier in
      the trace. */
  lemma StepVerifiedIsEarned(setup: Setup, calls: seq<Call>, k: nat)
    requires UniqueFlows(calls)
    requires var trace := Trace(Run(setup, calls).history); k < |trace| && trace[k].StepVerified?
    ensures var s := Run(setup, calls);
            var trace := Trace(s.history);
            && s.flow.Some? && trace[k].flow == s.flow.value.def.id
            && exists i :: 0 <= i < |s.flow.value.steps| && s.flow.value.def.steps[i].id == trace[k].step
                           && EarnedBefore(s.flow.value, i, trace, k)
  {
    RunKeepsLink(setup, calls);
    var s := Run(setup, calls);
    assert EventEarned(s.flow, Trace(s.history), k);
    var f := s.flow.value;
    var i :| 0 <= i < |f.steps| && f.def.steps[i].id == Trace(s.history)[k].step
             && f.steps[i].status.VerifiedStep? && EarnedBefore(f, i, Trace(s.history), k);
  }

  /** In every run, before FlowCompleted every action step's own action was requested and verified under its id. */
  lemma FlowCompletedIsEarned(setup: Setup, calls: seq<Call>, k: nat, i: nat)
    requires UniqueFlows(calls)
    requires var trace := Trace(Run(setup, calls).history); k < |trace| && trace[k].FlowCompleted?
    requires Run(setup, calls).flow.Some? && i < |Run(setup, calls).flow.value.steps|
    ensures var s := Run(setup, calls);
            s.flow.value.steps[i].status.VerifiedStep? && EarnedBefore(s.flow.value, i, Trace(s.history), k)
  {
    RunKeepsLink(setup, calls);
    assert EventEarned(Run(setup, calls).flow, Trace(Run(setup, calls).history), k);
  }

  /** The runtime never tells its flow of a failure: no run has a StepFailed or a FlowFailed in its trace, whatever
      becomes of the flow's actions. The engine's failure branches are out of reach from here. */
  lemma NoFlowFailureInEveryRun(setup: Setup, calls: seq<Call>, e: TraceEvent)
    requires UniqueFlows(calls) && e in Trace(Run(setup, calls).history)
    ensures !e.StepFailed? && !e.FlowFailed?
  {
    RunKeepsLink(setup, calls);
    var trace := Trace(Run(setup, calls).history);
    var k :| 0 <= k < |trace| && trace[k] == e;
    assert EventEarned(Run(setup, calls).flow, trace, k);
  }
}
