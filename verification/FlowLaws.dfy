/** Safety of the flow engine over every interleaving of passes, outcome reports and id assignments. */
module FlowLaws {
  import opened Actions
  import opened Flow

  // ---------- what each step's events may spell ----------

  datatype Tale = Untold | Readied | Held | AskedFor | Proven | Spoiled | Garbled

  predicate IsStepEvent(e: SopEvent) {
    e.SopReady? || e.SopWaiting? || e.SopRequested? || e.SopVerified? || e.SopFailed?
  }

  predicate IsClosing(e: SopEvent) {
    e.SopFlowCompleted? || e.SopFlowFailed?
  }

  function TaleStep(t: Tale, e: SopEvent, step: string): Tale {
    if !IsStepEvent(e) || e.step != step then t
    else match e
      case SopReady(_, _) => if t.Untold? then Readied else Garbled
      case SopWaiting(_, _) => if t.Readied? then Held else Garbled
      case SopRequested(_, _, _) => if t.Readied? then AskedFor else Garbled
      case SopVerified(_, _) => if t.Readied? || t.Held? || t.AskedFor? then Proven else Garbled
      case SopFailed(_, _, _) => if t.AskedFor? then Spoiled else Garbled
      case _ => t
  }

  function TaleFrom(t: Tale, events: seq<SopEvent>, step: string): Tale {
    if events == [] then t
    else TaleStep(TaleFrom(t, events[..|events| - 1], step), events[|events| - 1], step)
  }

  lemma {:induction false} TaleConcat(t: Tale, a: seq<SopEvent>, b: seq<SopEvent>, step: string)
    ensures TaleFrom(t, a + b, step) == TaleFrom(TaleFrom(t, a, step), b, step)
  {
    if b == [] {
      assert a + b == a;
    } else {
      var n := |b| - 1;
      assert (a + b)[..|a + b| - 1] == a + b[..n];
      TaleConcat(t, a, b[..n], step);
    }
  }

  lemma {:induction false} TaleElsewhere(t: Tale, events: seq<SopEvent>, step: string)
    requires forall e :: e in events ==> !IsStepEvent(e) || e.step != step
    ensures TaleFrom(t, events, step) == t
  {
    if events != [] {
      assert events[|events| - 1] in events;
      TaleElsewhere(t, events[..|events| - 1], step);
    }
  }

  datatype StepLetter = Rdy | Wait | Ask | Ver | Fail

  function StepLetterOf(e: SopEvent): StepLetter
    requires IsStepEvent(e)
  {
    match e
    case SopReady(_, _) => Rdy
    case SopWaiting(_, _) => Wait
    case SopRequested(_, _, _) => Ask
    case SopVerified(_, _) => Ver
    case SopFailed(_, _, _) => Fail
  }

  /** The kinds of one step's events, in order. */
  function StepWord(events: seq<SopEvent>, step: string): seq<StepLetter> {
    if events == [] then []
    else
      var e := events[|events| - 1];
      StepWord(events[..|events| - 1], step) + (if IsStepEvent(e) && e.step == step then [StepLetterOf(e)] else [])
  }

  /** The four stories a step can have; an observe step may be held before it is verified, an action step is asked once.
      */
  predicate IsStepPrefix(w: seq<StepLetter>) {
    w <= [Rdy, Ver] || w <= [Rdy, Wait, Ver] || w <= [Rdy, Ask, Ver] || w <= [Rdy, Ask, Fail]
  }

  lemma {:induction false} TaleSpellsWord(events: seq<SopEvent>, step: string)
    requires TaleFrom(Untold, events, step) != Garbled
    ensures IsStepPrefix(StepWord(events, step))
    ensures match TaleFrom(Untold, events, step)
            case Untold => StepWord(events, step) == []
            case Readied => StepWord(events, step) == [Rdy]
            case Held => StepWord(events, step) == [Rdy, Wait]
            case AskedFor => StepWord(events, step) == [Rdy, Ask]
            case Proven => StepWord(events, step) == [Rdy, Ver] || StepWord(events, step) == [Rdy, Wait, Ver]
                           || StepWord(events, step) == [Rdy, Ask, Ver]
            case Spoiled => StepWord(events, step) == [Rdy, Ask, Fail]
            case Garbled => false
  {
    if events != [] {
      TaleSpellsWord(events[..|events| - 1], step);
    }
  }

  // ---------- the invariant ----------

  predicate UniqueIds(def: FlowDef) {
    forall i, j :: 0 <= i < j < |def.steps| ==> def.steps[i].id != def.steps[j].id
  }

  lemma PositionIsUnique(def: FlowDef, i: nat)
    requires UniqueIds(def) && i < |def.steps|
    ensures Position(def.steps, def.steps[i].id) == Some(i)
  {
    var p := Position(def.steps, def.steps[i].id);
    if p.Some? && p.value < i {
    } else if p.Some? && i < p.value {
    }
  }

  predicate HasStarted(st: StepStatus) {
    st.ReadyStep? || st.WaitingStep? || st.VerifiedStep? || st.FailedStep?
  }

  predicate StatusesAgree(f: Flow) {
    match f.status
    case NotStarted => !f.started && forall i :: 0 <= i < |f.steps| ==> f.steps[i].status.PendingStep?
    case RunningFlow =>
      f.started && (forall i :: 0 <= i < |f.steps| ==>
        !f.steps[i].status.FailedStep? && !f.steps[i].status.AbortedStep?)
    case CompletedFlow => f.started && forall i :: 0 <= i < |f.steps| ==> f.steps[i].status.VerifiedStep?
    case FailedFlow =>
      f.started && (forall i :: 0 <= i < |f.steps| ==>
        f.steps[i].status.FailedStep? || f.steps[i].status.VerifiedStep? || f.steps[i].status.AbortedStep?)
  }

  predicate StepSane(f: Flow, i: nat)
    requires Shaped(f) && i < |f.steps|
  {
    && (HasStarted(f.steps[i].status) ==> DepsOk(f, i))
    && (f.steps[i].status.ReadyStep? ==> f.def.steps[i].kind.Observe? && f.steps[i].waitingEmitted)
    && (f.steps[i].status.WaitingStep? ==> f.def.steps[i].kind.Act?)
    && (f.steps[i].status.FailedStep? ==> f.def.steps[i].kind.Act?)
    && (f.steps[i].status.PendingStep? ==> !f.steps[i].waitingEmitted)
  }

  /** Holds of a flow between any two calls. */
  predicate Sane(f: Flow) {
    && Shaped(f) && StatusesAgree(f)
    && forall i :: 0 <= i < |f.steps| ==> StepSane(f, i)
  }

  function TaleOf(st: StepState): Tale {
    match st.status
    case PendingStep => Untold
    case ReadyStep => if st.waitingEmitted then Held else Readied
    case WaitingStep => AskedFor
    case VerifiedStep => Proven
    case FailedStep => Spoiled
    case AbortedStep => Garbled
  }

  // ---------- reporting outcomes ----------

  /** Nothing verified is lost and the definition stays. */
  ghost predicate VerifiedStays(f: Flow, g: Flow) {
    && Shaped(f) && Shaped(g) && f.def == g.def
    && forall j :: 0 <= j < |f.steps| && f.steps[j].status.VerifiedStep? ==> g.steps[j].status.VerifiedStep?
  }

  lemma DepsOkStays(f: Flow, g: Flow, i: nat)
    requires VerifiedStays(f, g) && i < |f.steps| && DepsOk(f, i)
    ensures DepsOk(g, i)
  {
  }

  /** What an outcome report may do to one step: resolve it if it waits, and nothing else. */
  predicate Resolved(s: StepState, s': StepState) {
    || s' == s
    || (s.status.WaitingStep? && (s' == s.(status := VerifiedStep) || s' == s.(status := FailedStep)))
  }

  /** Event lists one behind the other, up to the k-th. */
  function Chained(chunks: seq<seq<SopEvent>>, k: nat): seq<SopEvent>
    requires k <= |chunks|
  {
    if k == 0 then [] else Chained(chunks, k - 1) + chunks[k - 1]
  }

  predicate AboutStep(events: seq<SopEvent>, step: string) {
    forall e :: e in events ==> IsStepEvent(e) && e.step == step
  }

  /** Each list is about its own step only. */
  predicate OwnSteps(def: FlowDef, chunks: seq<seq<SopEvent>>) {
    |chunks| == |def.steps| && forall j :: 0 <= j < |chunks| ==> AboutStep(chunks[j], def.steps[j].id)
  }

  /** Of lists that are each about one step, a step's tale takes just its own. */
  lemma {:induction false} ChainedTale(def: FlowDef, chunks: seq<seq<SopEvent>>, k: nat, i: nat, t: Tale)
    requires UniqueIds(def) && OwnSteps(def, chunks) && k <= |chunks| && i < |chunks|
    ensures TaleFrom(t, Chained(chunks, k), def.steps[i].id) ==
            if i < k then TaleFrom(t, chunks[i], def.steps[i].id) else t
    decreases k
  {
    if k > 0 {
      var id, before, last := def.steps[i].id, Chained(chunks, k - 1), chunks[k - 1];
      ChainedTale(def, chunks, k - 1, i, t);
      TaleConcat(t, before, last, id);
      if i != k - 1 {
        TaleElsewhere(TaleFrom(t, before, id), last, id) by {
          assert AboutStep(last, def.steps[k - 1].id) && id != def.steps[k - 1].id;
        }
      }
    }
  }

  function ReportChunks(f: Flow, o: Outcome): seq<seq<SopEvent>>
    requires Shaped(f)
  {
    seq(|f.steps|, j requires 0 <= j < |f.steps| => ReportStep(f.def.id, f.def.steps[j], f.steps[j], o).1)
  }

  lemma {:induction false} ReportIsChained(f: Flow, o: Outcome, k: nat)
    requires Shaped(f) && k <= |f.steps|
    ensures ReportEvents(f, o, k) == Chained(ReportChunks(f, o), k)
    decreases k
  {
    if k > 0 { ReportIsChained(f, o, k - 1); }
  }

  lemma ReportEventsTale(f: Flow, o: Outcome, i: nat, t: Tale)
    requires Shaped(f) && UniqueIds(f.def) && i < |f.steps|
    ensures TaleFrom(t, ReportEvents(f, o, |f.steps|), f.def.steps[i].id) ==
            TaleFrom(t, ReportStep(f.def.id, f.def.steps[i], f.steps[i], o).1, f.def.steps[i].id)
  {
    ReportIsChained(f, o, |f.steps|);
    ChainedTale(f.def, ReportChunks(f, o), |f.steps|, i, t);
  }

  lemma ReportStepTale(flow: string, d: StepDef, st: StepState, o: Outcome, t: Tale)
    requires !st.status.AbortedStep? ==> t == TaleOf(st)
    ensures var (st', events) := ReportStep(flow, d, st, o);
            && Resolved(st, st')
            && TaleFrom(t, events, d.id) == if st.status.AbortedStep? then t else TaleOf(st')
  {
  }

  lemma {:induction false} ReportAllStep(f: Flow, outcomes: seq<Outcome>, i: nat, t: Tale)
    requires Shaped(f) && UniqueIds(f.def) && i < |f.steps|
    requires !f.steps[i].status.AbortedStep? ==> t == TaleOf(f.steps[i])
    ensures var (g, events) := ReportAll(f, outcomes);
            && Resolved(f.steps[i], g.steps[i])
            && TaleFrom(t, events, f.def.steps[i].id) ==
               if f.steps[i].status.AbortedStep? then t else TaleOf(g.steps[i])
    decreases |outcomes|
  {
    if outcomes != [] {
      var n := |outcomes| - 1;
      var (g, events) := ReportAll(f, outcomes[..n]);
      ReportAllStep(f, outcomes[..n], i, t);
      var t' := TaleFrom(t, events, f.def.steps[i].id);
      ReportStepTale(f.def.id, f.def.steps[i], g.steps[i], outcomes[n], t');
      ReportEventsTale(g, outcomes[n], i, t');
      TaleConcat(t, events, ReportEvents(g, outcomes[n], |g.steps|), f.def.steps[i].id);
    }
  }

  lemma {:induction false} ReportEventsOpen(f: Flow, o: Outcome, k: nat)
    requires Shaped(f) && k <= |f.steps|
    ensures forall e :: e in ReportEvents(f, o, k) ==> IsStepEvent(e)
    decreases k
  {
    if k > 0 { ReportEventsOpen(f, o, k - 1); }
  }

  lemma {:induction false} ReportAllOpen(f: Flow, outcomes: seq<Outcome>)
    requires Shaped(f)
    ensures forall e :: e in ReportAll(f, outcomes).1 ==> IsStepEvent(e)
    decreases |outcomes|
  {
    if outcomes != [] {
      var n := |outcomes| - 1;
      ReportAllOpen(f, outcomes[..n]);
      ReportEventsOpen(ReportAll(f, outcomes[..n]).0, outcomes[n], |f.steps|);
    }
  }

  /** With nothing waiting, a report changes nothing and says nothing. */
  lemma {:induction false} NothingWaiting(f: Flow, outcomes: seq<Outcome>)
    requires Shaped(f) && forall i :: 0 <= i < |f.steps| ==> !f.steps[i].status.WaitingStep?
    ensures ReportAll(f, outcomes) == (f, [])
    decreases |outcomes|
  {
    if outcomes != [] {
      var n := |outcomes| - 1;
      NothingWaiting(f, outcomes[..n]);
      NoReportEvents(f, outcomes[n], |f.steps|);
      var (g, events) := ReportAll(f, outcomes[..n]);
      assert g == f && events == [];
      assert ReportSteps(f, outcomes[n]).steps == f.steps;
      assert ReportSteps(g, outcomes[n]) == f;
      assert events + ReportEvents(g, outcomes[n], |g.steps|) == [];
    }
  }

  lemma {:induction false} NoReportEvents(f: Flow, o: Outcome, k: nat)
    requires Shaped(f) && k <= |f.steps| && forall i :: 0 <= i < |f.steps| ==> !f.steps[i].status.WaitingStep?
    ensures ReportEvents(f, o, k) == []
    decreases k
  {
    if k > 0 { NoReportEvents(f, o, k - 1); }
  }

  // ---------- passes ----------

  function PassChunks(f: Flow, snap: Snapshot): seq<seq<SopEvent>>
    requires Shaped(f)
  {
    seq(|f.steps|, j requires 0 <= j < |f.steps| => PassAt(f, snap, j).events)
  }

  lemma {:induction false} PassIsChained(f: Flow, snap: Snapshot, k: nat)
    requires Shaped(f) && k <= |f.steps|
    ensures PassEvents(f, snap, k) == Chained(PassChunks(f, snap), k)
    decreases k
  {
    if k > 0 { PassIsChained(f, snap, k - 1); }
  }

  lemma PassOwnSteps(f: Flow, snap: Snapshot)
    requires Shaped(f)
    ensures OwnSteps(f.def, PassChunks(f, snap))
  {
  }

  lemma PassEventsTale(f: Flow, snap: Snapshot, i: nat, t: Tale)
    requires Shaped(f) && UniqueIds(f.def) && i < |f.steps|
    ensures TaleFrom(t, PassEvents(f, snap, |f.steps|), f.def.steps[i].id) ==
            TaleFrom(t, PassAt(f, snap, i).events, f.def.steps[i].id)
  {
    PassIsChained(f, snap, |f.steps|);
    PassOwnSteps(f, snap);
    ChainedTale(f.def, PassChunks(f, snap), |f.steps|, i, t);
  }

  lemma {:induction false} PassEventsOpen(f: Flow, snap: Snapshot, k: nat)
    requires Shaped(f) && k <= |f.steps|
    ensures forall e :: e in PassEvents(f, snap, k) ==> IsStepEvent(e)
    decreases k
  {
    if k > 0 { PassEventsOpen(f, snap, k - 1); }
  }

  /** One step through one pass of a running flow. */
  lemma PassStepLaw(f: Flow, snap: Snapshot, i: nat)
    requires Sane(f) && i < |f.steps| && !f.steps[i].status.AbortedStep?
    ensures var p := PassAt(f, snap, i);
            && TaleFrom(TaleOf(f.steps[i]), p.events, f.def.steps[i].id) == TaleOf(p.st)
            && (f.steps[i].status.VerifiedStep? ==> p.st == f.steps[i])
            && (HasStarted(p.st.status) ==> DepsOk(f, i))
            && !p.st.status.AbortedStep? && (p.st.status.FailedStep? ==> f.steps[i].status.FailedStep?)
            && (p.st.status.ReadyStep? ==> f.def.steps[i].kind.Observe? && p.st.waitingEmitted)
            && (p.st.status.WaitingStep? ==> f.def.steps[i].kind.Act?)
            && (p.st.status.PendingStep? ==> p.st == f.steps[i])
            && p.st.actionId == f.steps[i].actionId
  {
    assert StepSane(f, i);
    var p := PassAt(f, snap, i);
    var id := f.def.steps[i].id;
    if |p.events| == 2 {
      assert p.events == [p.events[0]] + [p.events[1]];
      TaleConcat(TaleOf(f.steps[i]), [p.events[0]], [p.events[1]], id);
    }
    forall e | e in p.events ensures TaleFrom(Untold, [e], id) == TaleStep(Untold, e, id) {
      assert [e][..0] == [];
    }
    TaleSingle(TaleOf(f.steps[i]), p.events, id);
  }

  lemma {:induction false} TaleSingle(t: Tale, events: seq<SopEvent>, id: string)
    ensures |events| == 1 ==> TaleFrom(t, events, id) == TaleStep(t, events[0], id)
    ensures |events| == 2 ==> TaleFrom(t, events, id) == TaleStep(TaleStep(t, events[0], id), events[1], id)
  {
    if |events| == 1 {
      assert events[..0] == [];
    }
    if |events| == 2 {
      var first := events[..1];
      assert first == [events[0]] && first[..0] == [];
      assert TaleFrom(t, first, id) == TaleStep(TaleFrom(t, first[..0], id), first[0], id);
    }
  }

  // ---------- one call ----------

  predicate Closed(f: Flow) {
    f.status.CompletedFlow? || f.status.FailedFlow?
  }

  /** The events so far tell the step's story up to its present status; an abort is silent. */
  predicate Follows(t: Tale, st: StepState) {
    t != Garbled && (!st.status.AbortedStep? ==> t == TaleOf(st))
  }

  /** At most one closing event, at the very end, and exactly when the call closed the flow. */
  ghost predicate ClosesOnce(f: Flow, g: Flow, events: seq<SopEvent>) {
    && (forall k :: 0 <= k < |events| && IsClosing(events[k]) ==> k == |events| - 1)
    && ((events != [] && IsClosing(events[|events| - 1])) <==> (Closed(g) && !Closed(f)))
    && (Closed(f) ==> events == [] && g == f)
  }

  /** Recheck settles a running flow whose steps are sane. */
  lemma RecheckLaw(f: Flow)
    requires Shaped(f) && f.status.RunningFlow? && f.started
    requires forall i :: 0 <= i < |f.steps| ==> StepSane(f, i) && !f.steps[i].status.AbortedStep?
    ensures var (g, events) := Recheck(f);
            && Sane(g) && VerifiedStays(f, g) && |events| <= 1
            && (forall e :: e in events ==> IsClosing(e)) && (events != [] <==> Closed(g))
            && (forall i :: 0 <= i < |f.steps| ==> g.steps[i] == f.steps[i] || g.steps[i].status.AbortedStep?)
            && (g.status.CompletedFlow? ==> g.steps == f.steps)
  {
  }

  lemma ClosingJoin(body: seq<SopEvent>, closing: seq<SopEvent>)
    requires forall e :: e in body ==> !IsClosing(e)
    requires |closing| <= 1 && forall e :: e in closing ==> IsClosing(e)
    ensures var events := body + closing;
            && (forall k :: 0 <= k < |events| && IsClosing(events[k]) ==> k == |events| - 1)
            && ((events != [] && IsClosing(events[|events| - 1])) <==> closing != [])
  {
  }

  lemma ReportLaw(f: Flow, outcomes: seq<Outcome>)
    requires Sane(f) && UniqueIds(f.def)
    ensures var (g, events) := ReportSpec(f, outcomes);
            Sane(g) && VerifiedStays(f, g) && ClosesOnce(f, g, events)
  {
    var (m, body) := ReportAll(f, outcomes);
    if !f.status.RunningFlow? {
      NothingWaiting(f, outcomes);
    } else {
      ReportAllOpen(f, outcomes);
      forall i | 0 <= i < |f.steps|
        ensures Resolved(f.steps[i], m.steps[i])
      {
        ReportAllStep(f, outcomes, i, TaleOf(f.steps[i]));
      }
      assert VerifiedStays(f, m);
      forall i | 0 <= i < |m.steps|
        ensures StepSane(m, i) && !m.steps[i].status.AbortedStep?
      {
        assert StepSane(f, i);
        if HasStarted(m.steps[i].status) { DepsOkStays(f, m, i); }
      }
      RecheckLaw(m);
      ClosingJoin(body, Recheck(m).1);
    }
  }

  lemma RecheckTale(f: Flow, i: nat, t: Tale)
    requires Shaped(f) && i < |f.steps| && Follows(t, f.steps[i])
    ensures var (g, closing) := Recheck(f);
            Shaped(g) && |g.steps| == |f.steps| && Follows(TaleFrom(t, closing, f.def.steps[i].id), g.steps[i])
  {
  }

  lemma ReportTale(f: Flow, outcomes: seq<Outcome>, i: nat, t: Tale)
    requires Sane(f) && UniqueIds(f.def) && i < |f.steps| && Follows(t, f.steps[i])
    ensures var (g, events) := ReportSpec(f, outcomes);
            Shaped(g) && |g.steps| == |f.steps| && Follows(TaleFrom(t, events, f.def.steps[i].id), g.steps[i])
  {
    var (m, body) := ReportAll(f, outcomes);
    ReportAllStep(f, outcomes, i, t);
    TaleConcat(t, body, Recheck(m).1, f.def.steps[i].id);
    RecheckTale(m, i, TaleFrom(t, body, f.def.steps[i].id));
  }

  lemma PassStepsLaw(f: Flow, snap: Snapshot)
    requires Sane(f) && f.status.RunningFlow?
    ensures var m := PassSteps(f, snap);
            && VerifiedStays(f, m)
            && forall i :: 0 <= i < |m.steps| ==>
                 StepSane(m, i) && !m.steps[i].status.AbortedStep? && !m.steps[i].status.FailedStep?
  {
    var m := PassSteps(f, snap);
    forall i | 0 <= i < |f.steps| ensures f.steps[i].status.VerifiedStep? ==> m.steps[i].status.VerifiedStep? {
      PassStepLaw(f, snap, i);
    }
    forall i | 0 <= i < |m.steps|
      ensures StepSane(m, i) && !m.steps[i].status.AbortedStep? && !m.steps[i].status.FailedStep?
    {
      assert StepSane(f, i);
      PassStepLaw(f, snap, i);
      if HasStarted(m.steps[i].status) { DepsOkStays(f, m, i); }
    }
  }

  lemma ProcessLaw(f: Flow, snap: Snapshot)
    requires Sane(f)
    ensures var (g, events, _) := ProcessSpec(f, snap);
            Sane(g) && VerifiedStays(f, g) && ClosesOnce(f, g, events)
  {
    if !Closed(f) {
      var b := Begin(f);
      forall i | 0 <= i < |b.steps| ensures StepSane(b, i) {
        assert StepSane(f, i);
        if HasStarted(b.steps[i].status) { DepsOkStays(f, b, i); }
      }
      PassStepsLaw(b, snap);
      PassEventsOpen(b, snap, |b.steps|);
      RecheckLaw(PassSteps(b, snap));
      var opening: seq<SopEvent> := if f.started then [] else [SopStarted(f.def.id)];
      ClosingJoin(opening + PassEvents(b, snap, |b.steps|), Recheck(PassSteps(b, snap)).1);
    }
  }

  lemma ProcessTale(f: Flow, snap: Snapshot, i: nat, t: Tale)
    requires Sane(f) && UniqueIds(f.def) && i < |f.steps| && Follows(t, f.steps[i])
    ensures var (g, events, _) := ProcessSpec(f, snap);
            Shaped(g) && |g.steps| == |f.steps| && Follows(TaleFrom(t, events, f.def.steps[i].id), g.steps[i])
  {
    ProcessLaw(f, snap);
    if !Closed(f) {
      var b := Begin(f);
      var id := f.def.steps[i].id;
      var opening: seq<SopEvent> := if f.started then [] else [SopStarted(f.def.id)];
      var m := PassSteps(b, snap);
      var closing := Recheck(m).1;
      var body := PassEvents(b, snap, |b.steps|);
      assert Sane(b) by {
        forall k | 0 <= k < |b.steps| ensures StepSane(b, k) {
          assert StepSane(f, k);
          if HasStarted(b.steps[k].status) { DepsOkStays(f, b, k); }
        }
      }
      TaleElsewhere(t, opening, id);
      TaleConcat(t, opening, body, id);
      TaleConcat(t, opening + body, closing, id);
      PassEventsTale(b, snap, i, t);
      if !b.steps[i].status.AbortedStep? { PassStepLaw(b, snap, i); }
      RecheckTale(m, i, TaleFrom(t, opening + body, id));
    }
  }

  lemma AssignLaw(f: Flow, stepId: string, id: ActionId)
    requires Sane(f)
    ensures var g := AssignSpec(f, stepId, id); Sane(g) && VerifiedStays(f, g)
    ensures forall i :: 0 <= i < |f.steps| ==>
              AssignSpec(f, stepId, id).steps[i].status == f.steps[i].status
              && AssignSpec(f, stepId, id).steps[i].waitingEmitted == f.steps[i].waitingEmitted
  {
    var g := AssignSpec(f, stepId, id);
    forall i | 0 <= i < |g.steps| ensures StepSane(g, i) {
      assert StepSane(f, i);
      if HasStarted(g.steps[i].status) { DepsOkStays(f, g, i); }
    }
  }

  // ---------- every interleaving ----------

  datatype FlowOp = ProcessOp(
    snap: Snapshot) | ReportOp(outcomes: seq<Outcome>) | AssignOp(stepId: string, id: ActionId)

  function Apply(f: Flow, op: FlowOp): (Flow, seq<SopEvent>)
    requires Shaped(f)
  {
    match op
    case ProcessOp(snap) => var (g, events, _) := ProcessSpec(f, snap); (g, events)
    case ReportOp(outcomes) => ReportSpec(f, outcomes)
    case AssignOp(stepId, id) => (AssignSpec(f, stepId, id), [])
  }

  lemma ApplyLaw(f: Flow, op: FlowOp)
    requires Sane(f) && UniqueIds(f.def)
    ensures var (g, events) := Apply(f, op);
            && Sane(g) && VerifiedStays(f, g)
            && (op.AssignOp? || ClosesOnce(f, g, events))
            && (op.AssignOp? ==> events == [] && Closed(g) == Closed(f))
  {
    match op
    case ProcessOp(snap) => ProcessLaw(f, snap);
    case ReportOp(outcomes) => ReportLaw(f, outcomes);
    case AssignOp(stepId, id) => AssignLaw(f, stepId, id);
  }

  /** The flow and all its events after a list of calls on a fresh engine. */
  function Play(def: FlowDef, ops: seq<FlowOp>): (r: (Flow, seq<SopEvent>))
    ensures Shaped(r.0) && r.0.def == def
  {
    if ops == [] then (NewFlow(def), [])
    else
      var n := |ops| - 1;
      var (f, events) := Play(def, ops[..n]);
      var (g, more) := Apply(f, ops[n]);
      ApplyShaped(f, ops[n]);
      (g, events + more)
  }

  lemma ApplyShaped(f: Flow, op: FlowOp)
    requires Shaped(f)
    ensures Shaped(Apply(f, op).0) && Apply(f, op).0.def == f.def
  {
  }

  /** In every reachable state: a step that has started has all dependencies verified, a completed flow has every
      step verified, and each step's events spell a prefix of one of its four stories. */
  lemma {:induction false} FlowSafety(def: FlowDef, ops: seq<FlowOp>)
    requires UniqueIds(def)
    ensures var (f, events) := Play(def, ops);
            && f.def == def && Sane(f)
            && (forall i :: 0 <= i < |def.steps| ==> Follows(TaleFrom(Untold, events, def.steps[i].id), f.steps[i]))
    decreases |ops|
  {
    if ops == [] {
      forall i | 0 <= i < |def.steps| ensures StepSane(NewFlow(def), i) {}
    } else {
      var n := |ops| - 1;
      FlowSafety(def, ops[..n]);
      var (f, events) := Play(def, ops[..n]);
      var (g, more) := Apply(f, ops[n]);
      ApplyLaw(f, ops[n]);
      forall i | 0 <= i < |def.steps|
        ensures Follows(TaleFrom(Untold, events + more, def.steps[i].id), g.steps[i])
      {
        var id := def.steps[i].id;
        var t := TaleFrom(Untold, events, id);
        TaleConcat(Untold, events, more, id);
        match ops[n]
        case ProcessOp(snap) => ProcessTale(f, snap, i, t);
        case ReportOp(outcomes) => ReportTale(f, outcomes, i, t);
        case AssignOp(stepId, a) => AssignLaw(f, stepId, a);
      }
    }
  }

  /** Over a whole run, verified steps stay verified. */
  lemma {:induction false} VerifiedForever(def: FlowDef, ops: seq<FlowOp>, k: nat, i: nat)
    requires UniqueIds(def) && k <= |ops| && i < |def.steps|
    requires IsVerified(Play(def, ops[..k]).0, i)
    ensures IsVerified(Play(def, ops).0, i)
    decreases |ops|
  {
    if k == |ops| {
      assert ops[..k] == ops;
    } else {
      var n := |ops| - 1;
      assert ops[..n][..k] == ops[..k];
      VerifiedForever(def, ops[..n], k, i);
      VerifiedOneCall(def, ops, i);
    }
  }

  lemma VerifiedOneCall(def: FlowDef, ops: seq<FlowOp>, i: nat)
    requires UniqueIds(def) && ops != [] && IsVerified(Play(def, ops[..|ops| - 1]).0, i)
    ensures IsVerified(Play(def, ops).0, i)
  {
    FlowSafety(def, ops[..|ops| - 1]);
    ApplyLaw(Play(def, ops[..|ops| - 1]).0, ops[|ops| - 1]);
  }

  /** The closing event, if any, is the last one, and it is there exactly when the flow is closed. */
  predicate ClosingLast(f: Flow, events: seq<SopEvent>) {
    && (forall k :: 0 <= k < |events| && IsClosing(events[k]) ==> k == |events| - 1)
    && ((events != [] && IsClosing(events[|events| - 1])) <==> Closed(f))
  }

  lemma ClosingStep(f: Flow, events: seq<SopEvent>, op: FlowOp)
    requires Sane(f) && UniqueIds(f.def) && ClosingLast(f, events)
    ensures ClosingLast(Apply(f, op).0, events + Apply(f, op).1)
  {
    ApplyLaw(f, op);
    var (g, more) := Apply(f, op);
    if more != [] {
      ClosingExtends(events, more);
    } else {
      assert events + more == events;
    }
  }

  /** At most one closing event in a run, with nothing after it, and present exactly when the flow is closed. */
  lemma {:induction false} ClosingIsFinal(def: FlowDef, ops: seq<FlowOp>)
    requires UniqueIds(def)
    ensures ClosingLast(Play(def, ops).0, Play(def, ops).1)
    decreases |ops|
  {
    if ops != [] {
      var n := |ops| - 1;
      ClosingIsFinal(def, ops[..n]);
      FlowSafety(def, ops[..n]);
      ClosingStep(Play(def, ops[..n]).0, Play(def, ops[..n]).1, ops[n]);
    }
  }

  lemma ClosingExtends(events: seq<SopEvent>, more: seq<SopEvent>)
    requires more != []
    requires forall k :: 0 <= k < |events| ==> !IsClosing(events[k])
    requires forall k :: 0 <= k < |more| && IsClosing(more[k]) ==> k == |more| - 1
    ensures var all := events + more;
            && (forall k :: 0 <= k < |all| && IsClosing(all[k]) ==> k == |all| - 1)
            && all[|all| - 1] == more[|more| - 1]
  {
  }

  /** A step's word in a run is a prefix of one of its stories; in particular an action step is asked for at most once.
      */
  lemma StepStory(def: FlowDef, ops: seq<FlowOp>, i: nat)
    requires UniqueIds(def) && i < |def.steps|
    ensures IsStepPrefix(StepWord(Play(def, ops).1, def.steps[i].id))
  {
    FlowSafety(def, ops);
    TaleSpellsWord(Play(def, ops).1, def.steps[i].id);
  }

  /** Completed means all steps verified, and a step that has started stands on verified dependencies. */
  lemma CompletedMeansVerified(def: FlowDef, ops: seq<FlowOp>, i: nat)
    requires UniqueIds(def) && i < |def.steps|
    ensures var f := Play(def, ops).0;
            && (f.status.CompletedFlow? ==> f.steps[i].status.VerifiedStep?)
            && (HasStarted(f.steps[i].status) ==>
                  forall d :: d in def.steps[i].dependsOn ==>
                    exists j :: 0 <= j < |def.steps| && def.steps[j].id == d && f.steps[j].status.VerifiedStep?)
  {
    FlowSafety(def, ops);
    var f := Play(def, ops).0;
    if HasStarted(f.steps[i].status) {
      assert StepSane(f, i);
      forall d | d in def.steps[i].dependsOn
        ensures exists j :: 0 <= j < |def.steps| && def.steps[j].id == d && f.steps[j].status.VerifiedStep?
      {
        var j := Position(def.steps, d).value;
        assert def.steps[j].id == d && IsVerified(f, j);
      }
    }
  }
}
