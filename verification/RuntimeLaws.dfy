/** What every run of the runtime keeps: each action's lifecycle in the trace and the custody of its write. */
module RuntimeLaws {
  import opened Actions
  import opened History
  import opened Executor
  import opened Lifecycle
  import opened ExecutorLaws
  import opened Flow
  import opened RuntimeModel
  import FlowLaws
  import RuntimeFrame

  // ---------- the invariant, id by id ----------

  /** The life of an id once the buffered events are counted in. */
  function MidLife(m: Mid, id: ActionId): Life {
    LifeFrom(LifeIn(Trace(m.sys.history), id), m.buffer, id)
  }

  /** The custody of an id once the buffered events have been appended. */
  ghost function CustodyOver(catalog: Catalog, c: Custody, events: seq<TraceEvent>, id: ActionId): Custody
    decreases |events|
  {
    if events == [] then c
    else CustodyOver(catalog, CustodyStep(catalog, c, Appended(events[0]), id), events[1..], id)
  }

  predicate NoRequest(events: seq<TraceEvent>, id: ActionId) {
    forall e :: e in events ==> !(e.ActionRequested? && e.id == id)
  }

  /** Where staged ids begin; everything pending lies below. */
  function Bar(x: Exec): nat {
    if x.staged == [] then x.nextId else x.staged[0].id
  }

  predicate Ordered(x: Exec) {
    Ascending(x.pending, 0, Bar(x)) && Ascending(x.staged, Bar(x), x.nextId)
  }

  /** Between advances a live record is either fresh or dispatched, with life and custody to match. */
  ghost predicate AtRest(catalog: Catalog, r: ActionRecord, l: Life, c: Custody) {
    && InFlight(r) && Bound(catalog, r) && !r.status.Validated? && l == LifeOf(r)
    && (r.status.Requested? ==> c == Traced(r.action))
    && (r.status.Dispatched? ==> c == Written(r.action))
  }

  ghost predicate IdLaw(setup: Setup, m: Mid, id: ActionId) {
    var x, h := m.sys.exec, m.sys.history;
    var l, c := MidLife(m, id), CustodyIn(setup.catalog, h, id);
    var staged, pending := Find(x.staged, id), Find(x.pending, id);
    && (id >= x.nextId ==> l == NotRequested && c == Untraced && NoRequest(m.buffer, id))
    && (staged.Some? ==> staged.value == NewRecord(id, staged.value.action, staged.value.actor, staged.value.at)
                         && l == Awaiting(staged.value.action)
                         && CustodyOver(setup.catalog, c, m.buffer, id) == Traced(staged.value.action))
    && (pending.Some? ==> AtRest(setup.catalog, pending.value, l, c) && NoRequest(m.buffer, id))
    && (id < x.nextId && staged.None? && pending.None? ==> Settled(l) && !c.Breach? && NoRequest(m.buffer, id))
  }

  ghost predicate MidLaw(setup: Setup, m: Mid) {
    Ordered(m.sys.exec) && forall id :: IdLaw(setup, m, id)
  }

  /** What holds of a history even after a failed append. */
  ghost predicate Sound(setup: Setup, h: History, id: ActionId) {
    !LifeIn(Trace(h), id).Corrupt? && !CustodyIn(setup.catalog, h, id).Breach?
  }

  // ---------- folding over buffers ----------

  lemma {:induction false} CustodyUnrequested(catalog: Catalog, c: Custody, events: seq<TraceEvent>, id: ActionId)
    requires NoRequest(events, id)
    ensures CustodyOver(catalog, c, events, id) == c
    decreases |events|
  {
    if events != [] {
      assert events[0] in events;
      CustodyUnrequested(catalog, c, events[1..], id);
    }
  }

  lemma {:induction false} CustodyConcat(
      catalog: Catalog, c: Custody, a: seq<TraceEvent>, b: seq<TraceEvent>, id: ActionId)
    ensures CustodyOver(catalog, c, a + b, id) == CustodyOver(catalog, CustodyOver(catalog, c, a, id), b, id)
    decreases |a|
  {
    if a == [] {
      assert a + b == b;
    } else {
      assert (a + b)[1..] == a[1..] + b;
      CustodyConcat(catalog, CustodyStep(catalog, c, Appended(a[0]), id), a[1..], b, id);
    }
  }

  lemma {:induction false} BreachOver(catalog: Catalog, events: seq<TraceEvent>, id: ActionId)
    ensures CustodyOver(catalog, Breach, events, id) == Breach
    decreases |events|
  {
    if events != [] { BreachOver(catalog, events[1..], id); }
  }

  /** Lawful states are sound ones. */
  lemma LawIsSound(setup: Setup, m: Mid, id: ActionId)
    requires IdLaw(setup, m, id)
    ensures Sound(setup, m.sys.history, id)
  {
    FindMember(m.sys.exec.pending, id);
    if LifeIn(Trace(m.sys.history), id).Corrupt? { CorruptStays(m.buffer, id); }
    if CustodyIn(setup.catalog, m.sys.history, id).Breach? { BreachOver(setup.catalog, m.buffer, id); }
  }

  // ---------- events that are not about actions ----------

  predicate NoAction(events: seq<TraceEvent>) {
    forall e :: e in events ==> !e.IsAction()
  }

  lemma OtherEventsLaw(setup: Setup, m: Mid, n: Mid, events: seq<TraceEvent>)
    requires MidLaw(setup, m) && NoAction(events)
    requires n.sys.exec == m.sys.exec && n.sys.history == m.sys.history && n.buffer == m.buffer + events
    ensures MidLaw(setup, n)
  {
    forall id ensures IdLaw(setup, n, id) {
      assert IdLaw(setup, m, id);
      LifeConcat(LifeIn(Trace(m.sys.history), id), m.buffer, events, id);
      LifeUnconcerned(MidLife(m, id), events, id);
      var c := CustodyIn(setup.catalog, m.sys.history, id);
      CustodyConcat(setup.catalog, c, m.buffer, events, id);
      CustodyUnrequested(setup.catalog, CustodyOver(setup.catalog, c, m.buffer, id), events, id);
    }
  }

  lemma ObserveLaw(setup: Setup, m: Mid, snap: Snapshot, source: EventSource)
    requires Ready(m.sys) && MidLaw(setup, m)
    ensures MidLaw(setup, ObserveSpec(setup, m, snap, source))
  {
    var (phase, changes) := EvaluateSpec(setup, m.sys.phase, m.sys.last, snap);
    var events := Ingest(setup, m.sys.last, snap, source) + changes;
    var n := ObserveSpec(setup, m, snap, source);
    assert n.buffer == m.buffer + events;
    OtherEventsLaw(setup, m, n, events);
  }

  // ---------- the advance ----------

  lemma PendingConsistent(setup: Setup, m: Mid, snap: Snapshot)
    requires Ready(m.sys) && MidLaw(setup, m)
    ensures QueueConsistent(setup.Rules(), m.sys.exec.pending, snap, m.sys.history)
  {
    var q := m.sys.exec.pending;
    forall i | 0 <= i < |q|
      ensures Consistent(setup.Rules(), q[i], snap, m.sys.history, LifeOf(q[i]))
    {
      FindIsUnique(q, 0, Bar(m.sys.exec), i);
      assert IdLaw(setup, m, q[i].id);
    }
  }

  lemma ActionIdLaw(setup: Setup, m: Mid, snap: Snapshot, id: ActionId)
    requires Ready(m.sys) && MidLaw(setup, m)
    ensures IdLaw(setup, ActionSpec(setup, m, snap), id)
  {
    var rules, x, h := setup.Rules(), m.sys.exec, m.sys.history;
    var t := Passes(rules, x.pending, snap, h);
    var l := MidLife(m, id);
    PendingConsistent(setup, m, snap);
    assert IdLaw(setup, m, id);
    PassesLaw(rules, x.pending, snap, h, 0, Bar(x), id, l);
    PassesFrame(rules, x.pending, snap, h);
    SurvivorsAreDispatched(rules, x.pending, snap, h);
    FindMember(t.kept, id);
    LifeConcat(LifeIn(Trace(h), id), m.buffer, t.events, id);
    assert NoRequest(t.events, id);
    CustodyConcat(setup.catalog, CustodyIn(setup.catalog, t.history, id), m.buffer, t.events, id);
    CustodyUnrequested(setup.catalog, CustodyOver(setup.catalog, CustodyIn(setup.catalog, t.history, id), m.buffer, id),
                       t.events, id);
    StagedAboveBar(x, id);
  }

  /** A staged id is not pending, and an id not yet handed out is neither. */
  lemma StagedAboveBar(x: Exec, id: ActionId)
    requires Ordered(x)
    ensures Find(x.staged, id).Some? ==> Find(x.pending, id).None? && Bar(x) <= id < x.nextId
    ensures id >= x.nextId ==> Find(x.staged, id).None? && Find(x.pending, id).None?
  {
    if id < Bar(x) || x.nextId <= id {
      FindAbove(x.staged, Bar(x), x.nextId, id);
    }
    if id >= Bar(x) {
      FindAbove(x.pending, 0, Bar(x), id);
    }
    BarBound(x);
    if id >= x.nextId { FindAbove(x.pending, 0, Bar(x), id); }
  }

  lemma BarBound(x: Exec)
    requires Ordered(x)
    ensures Bar(x) <= x.nextId
  {
  }

  lemma ActionLaw(setup: Setup, m: Mid, snap: Snapshot)
    requires Ready(m.sys) && MidLaw(setup, m)
    ensures MidLaw(setup, ActionSpec(setup, m, snap))
  {
    forall id ensures IdLaw(setup, ActionSpec(setup, m, snap), id) {
      ActionIdLaw(setup, m, snap, id);
    }
    PendingConsistent(setup, m, snap);
    var x := m.sys.exec;
    PassesLaw(setup.Rules(), x.pending, snap, m.sys.history, 0, Bar(x), 0,
              if Find(x.pending, 0).Some? then LifeOf(Find(x.pending, 0).value) else Corrupt);
  }

  // ---------- staging ----------

  /** A record put behind the staged ones. */
  lemma StagedOrder(x: Exec, r: ActionRecord)
    requires Ordered(x) && r.id == x.nextId
    ensures Ordered(x.(staged := x.staged + [r], nextId := x.nextId + 1))
  {
    var y := x.(staged := x.staged + [r], nextId := x.nextId + 1);
    assert [r][1..] == [];
    assert Ascending([r], x.nextId, x.nextId + 1);
    BarBound(x);
    AscendingConcat(x.staged, [r], Bar(x), x.nextId, x.nextId + 1);
    if x.staged == [] {
      assert x.staged + [r] == [r];
    }
  }

  /** A request is staged and its event buffered in one step. */
  lemma StagedIdLaw(
      setup: Setup, m: Mid, n: Mid, action: CockpitAction, actor: Actor, at: nat, seqNo: nat, id: ActionId)
    requires MidLaw(setup, m)
    requires n.sys.exec == SubmitSpec(m.sys.exec, action, actor, at) && n.sys.history == m.sys.history
    requires n.buffer == m.buffer + [ActionRequested(seqNo, at, action, actor, m.sys.exec.nextId)]
    ensures IdLaw(setup, n, id)
  {
    var x, y, h := m.sys.exec, n.sys.exec, m.sys.history;
    var e := ActionRequested(seqNo, at, action, actor, x.nextId);
    var c := CustodyIn(setup.catalog, h, id);
    assert IdLaw(setup, m, id);
    StagedAboveBar(x, id);
    FindConcat(x.staged, [NewRecord(x.nextId, action, actor, at)], id);
    assert [NewRecord(x.nextId, action, actor, at)][1..] == [];
    LifeSnoc(LifeIn(Trace(h), id), m.buffer, e, id);
    CustodyConcat(setup.catalog, c, m.buffer, [e], id);
    assert [e][1..] == [];
    if id == x.nextId {
      CustodyUnrequested(setup.catalog, c, m.buffer, id);
    }
  }

  lemma StagedLaw(setup: Setup, m: Mid, n: Mid, action: CockpitAction, actor: Actor, at: nat, seqNo: nat)
    requires MidLaw(setup, m)
    requires n.sys.exec == SubmitSpec(m.sys.exec, action, actor, at) && n.sys.history == m.sys.history
    requires n.buffer == m.buffer + [ActionRequested(seqNo, at, action, actor, m.sys.exec.nextId)]
    ensures MidLaw(setup, n)
  {
    StagedOrder(m.sys.exec, NewRecord(m.sys.exec.nextId, action, actor, at));
    forall id ensures IdLaw(setup, n, id) {
      StagedIdLaw(setup, m, n, action, actor, at, seqNo, id);
    }
  }

  lemma {:induction false} StageRequestsLaw(setup: Setup, m: Mid, requests: seq<StepRequest>, ts: nat)
    requires Ready(m.sys) && m.sys.flow.Some? && MidLaw(setup, m)
    ensures MidLaw(setup, StageRequests(m, requests, ts))
    decreases |requests|
  {
    if requests != [] {
      var k := |requests| - 1;
      StageRequestsLaw(setup, m, requests[..k], ts);
      var n := StageRequests(m, requests[..k], ts);
      StagedLaw(setup, n, StageRequest(n, requests[k], ts), requests[k].action, RuntimeActor, ts, n.sys.nextSeq);
    }
  }

  lemma FlowPassLaw(setup: Setup, m: Mid, snap: Snapshot)
    requires Ready(m.sys) && MidLaw(setup, m)
    ensures MidLaw(setup, FlowSpec(m, snap))
  {
    if m.sys.flow.Some? {
      var sop := ProcessedEvents(m, snap);
      var (n, requests) := Processed(m, snap);
      OtherEventsLaw(setup, m, n, SopTrace(sop, snap.ms));
      StageRequestsLaw(setup, n, requests, snap.ms);
    }
  }

  /** The flow's report and pass buffer flow events only. */
  lemma ProcessedEvents(m: Mid, snap: Snapshot) returns (sop: seq<SopEvent>)
    requires Ready(m.sys) && m.sys.flow.Some?
    ensures var n := Processed(m, snap).0;
            && n.buffer == m.buffer + SopTrace(sop, snap.ms)
            && n.sys.exec == m.sys.exec && n.sys.history == m.sys.history
  {
    var f := m.sys.flow.value;
    FlowLaws.ApplyShaped(f, FlowLaws.ReportOp(m.sys.outcomes));
    var (f1, reported) := ReportSpec(f, m.sys.outcomes);
    sop := reported + ProcessSpec(f1, snap).1;
  }

  // ---------- snapshots ----------

  lemma SnapshotLaw(setup: Setup, m: Mid, snap: Snapshot, source: EventSource)
    requires Ready(m.sys) && MidLaw(setup, m)
    ensures MidLaw(setup, SnapshotSpec(setup, m, snap, source))
  {
    var a := ObserveSpec(setup, m, snap, source);
    ObserveLaw(setup, m, snap, source);
    var b := ActionSpec(setup, a, snap);
    ActionLaw(setup, a, snap);
    FlowPassLaw(setup, b, snap);
    var n := FlowSpec(b, snap);
    OtherEventsLaw(setup, n, n.(sys := n.sys.(last := Some(snap))), []);
  }

  lemma {:induction false} SnapshotsLaw(setup: Setup, m: Mid, snaps: seq<Snapshot>, source: EventSource)
    requires Ready(m.sys) && MidLaw(setup, m)
    ensures MidLaw(setup, SnapshotsSpec(setup, m, snaps, source))
    decreases |snaps|
  {
    if snaps != [] {
      var k := |snaps| - 1;
      SnapshotsLaw(setup, m, snaps[..k], source);
      SnapshotLaw(setup, SnapshotsSpec(setup, m, snaps[..k], source), snaps[k], source);
    }
  }

  // ---------- appending ----------

  /** An event moves from the buffer to the trace. */
  lemma AppendIdLaw(setup: Setup, s: Sys, events: seq<TraceEvent>, id: ActionId)
    requires events != [] && IdLaw(setup, Mid(s, events), id) && AppendOne(setup, s, events[0]).poisoned.None?
    ensures IdLaw(setup, Mid(AppendOne(setup, s, events[0]), events[1..]), id)
  {
    var t := AppendOne(setup, s, events[0]);
    var e := events[0].WithSeq(s.nextSeq);
    LifeSnoc(NotRequested, Trace(s.history), e, id);
    assert events[0] in events;
    assert LifeStep(LifeIn(Trace(s.history), id), e, id) == LifeStep(LifeIn(Trace(s.history), id), events[0], id);
    assert MidLife(Mid(t, events[1..]), id) == MidLife(Mid(s, events), id);
    var c := CustodyIn(setup.catalog, s.history, id);
    assert CustodyStep(setup.catalog, c, Appended(e), id) == CustodyStep(setup.catalog, c, Appended(events[0]), id);
  }

  lemma {:induction false} AppendAllLaw(setup: Setup, s: Sys, events: seq<TraceEvent>)
    requires MidLaw(setup, Mid(s, events)) && s.poisoned.None?
    ensures var t := AppendAll(setup, s, events);
            && (t.poisoned.None? ==> MidLaw(setup, Mid(t, [])) && t == s.(nextSeq := t.nextSeq, history := t.history))
            && forall id :: Sound(setup, t.history, id)
    decreases |events|
  {
    if events == [] {
      forall id ensures Sound(setup, s.history, id) {
        LawIsSound(setup, Mid(s, events), id);
      }
    } else {
      var t := AppendOne(setup, s, events[0]);
      if t.poisoned.None? {
        forall id ensures IdLaw(setup, Mid(t, events[1..]), id) {
          assert IdLaw(setup, Mid(s, events), id);
          AppendIdLaw(setup, s, events, id);
        }
        AppendAllLaw(setup, t, events[1..]);
      } else {
        forall id ensures Sound(setup, t.history, id) {
          assert IdLaw(setup, Mid(s, events), id);
          LawIsSound(setup, Mid(s, events), id);
        }
      }
    }
  }

  /** Once the buffer is empty the staged requests can go live. */
  lemma CommitLaw(setup: Setup, s: Sys, t: Sys)
    requires MidLaw(setup, Mid(s, []))
    requires t.history == s.history && t.exec.pending == s.exec.pending + s.exec.staged && t.exec.staged == []
    requires t.exec.nextId == s.exec.nextId
    ensures MidLaw(setup, Mid(t, []))
  {
    var x := s.exec;
    BarBound(x);
    AscendingConcat(x.pending, x.staged, 0, Bar(x), x.nextId);
    forall id ensures IdLaw(setup, Mid(t, []), id) {
      assert IdLaw(setup, Mid(s, []), id);
      StagedAboveBar(x, id);
      FindConcat(x.pending, x.staged, id);
    }
  }

  // ---------- every call, every run ----------

  /** The invariant of a runtime between calls. */
  ghost predicate RunLaw(setup: Setup, s: Sys) {
    && (forall id :: Sound(setup, s.history, id))
    && (s.poisoned.None? ==> MidLaw(setup, Mid(s, [])) && s.exec.staged == [])
  }

  /** Effects other than appends and adapter calls about actions change no life and no custody. */
  lemma NeutralLaw(setup: Setup, s: Sys, t: Sys, e: Effect)
    requires RunLaw(setup, s) && s.poisoned.None?
    requires t.history == After(s.history, e) && t.poisoned.None?
    requires e.Connected? || e.Polled? || e.Closed?
    requires t.exec == s.exec
    ensures RunLaw(setup, t)
  {
    forall id ensures IdLaw(setup, Mid(t, []), id) && Sound(setup, t.history, id) {
      assert IdLaw(setup, Mid(s, []), id);
      assert Sound(setup, s.history, id);
    }
  }

  /** Appending a single event that is not about an action. */
  lemma AppendOtherLaw(setup: Setup, s: Sys, e: TraceEvent)
    requires RunLaw(setup, s) && s.poisoned.None? && !e.IsAction()
    ensures RunLaw(setup, AppendOne(setup, s, e))
  {
    OtherEventsLaw(setup, Mid(s, []), Mid(s, [e]), [e]);
    AppendAllLaw(setup, s, [e]);
    assert [e][1..] == [];
    assert AppendAll(setup, AppendOne(setup, s, e), []) == AppendOne(setup, s, e);
    assert AppendAll(setup, s, [e]) == AppendAll(setup, AppendOne(setup, s, [e][0]), [e][1..]);
  }

  lemma SubmitCallLaw(setup: Setup, s: Sys, action: CockpitAction, actor: Actor, at: nat)
    requires Ready(s) && RunLaw(setup, s) && s.poisoned.None?
    ensures RunLaw(setup, SubmitActionSpec(setup, s, action, actor, at))
  {
    var staged := s.(exec := SubmitSpec(s.exec, action, actor, at));
    var e := ActionRequested(PLACEHOLDER, at, action, actor, s.exec.nextId);
    StagedLaw(setup, Mid(s, []), Mid(staged, [e]), action, actor, at, PLACEHOLDER);
    AppendAllLaw(setup, staged, [e]);
    assert [e][1..] == [];
    assert AppendAll(setup, staged, [e]) == AppendAll(setup, AppendOne(setup, staged, [e][0]), [e][1..]);
    var a := AppendOne(setup, staged, e);
    assert AppendAll(setup, staged, [e]) == a;
    if a.poisoned.None? {
      CommitLaw(setup, a, SubmitActionSpec(setup, s, action, actor, at));
    }
  }

  lemma TickLaw(setup: Setup, s: Sys, snaps: seq<Snapshot>, source: EventSource)
    requires Ready(s) && RunLaw(setup, s) && s.poisoned.None?
    ensures RunLaw(setup, TickBody(setup, s, snaps, source))
  {
    var m := SnapshotsSpec(setup, Mid(s, []), snaps, source);
    SnapshotsLaw(setup, Mid(s, []), snaps, source);
    RuntimeFrame.SnapshotsFramed(setup, Mid(s, []), snaps, source);
    AppendAllLaw(setup, m.sys, m.buffer);
    var a := AppendAll(setup, m.sys, m.buffer);
    if a.poisoned.None? {
      CommitLaw(setup, a, SettleSpec(a));
    }
  }

  lemma CallLaw(setup: Setup, s: Sys, call: Call)
    requires Ready(s) && RunLaw(setup, s)
    ensures RunLaw(setup, Do(setup, s, call))
  {
    if s.poisoned.None? {
      match call
      case StartCall =>
        var c := s.(history := After(s.history, Connected(setup.env.connect(s.history))));
        NeutralLaw(setup, s, c, Connected(setup.env.connect(s.history)));
        AppendOtherLaw(setup, c, SessionStart(PLACEHOLDER, setup.sessionId));
      case StartFlowCall(def) => SameLaw(setup, s, StartFlowSpec(s, def));
      case SubmitCall(action, actor, at) => SubmitCallLaw(setup, s, action, actor, at);
      case TickCall(source) =>
        if setup.env.connected(s.history) {
          var answer := setup.env.poll(s.history);
          var polled := s.(history := After(s.history, Polled(answer)));
          NeutralLaw(setup, s, polled, Polled(answer));
          if answer.Ok? { TickLaw(setup, polled, answer.value, source); }
        }
      case TakeCall => SameLaw(setup, s, TakeSpec(s));
      case FinishCall =>
        AppendOtherLaw(setup, s, SessionEnd(PLACEHOLDER));
        var a := AppendOne(setup, s, SessionEnd(PLACEHOLDER));
        if a.poisoned.None? {
          NeutralLaw(setup, a, FinishSpec(setup, s), Closed(setup.env.close(a.history)));
        }
    }
  }

  lemma SameLaw(setup: Setup, s: Sys, t: Sys)
    requires RunLaw(setup, s) && t.poisoned == s.poisoned && t.history == s.history
    requires t.exec.pending == s.exec.pending && t.exec.staged == s.exec.staged && t.exec.nextId == s.exec.nextId
    ensures RunLaw(setup, t)
  {
    if s.poisoned.None? {
      forall id ensures IdLaw(setup, Mid(t, []), id) {
        assert IdLaw(setup, Mid(s, []), id);
      }
    }
  }

  lemma {:induction false} RunKeepsLaw(setup: Setup, calls: seq<Call>)
    ensures RunLaw(setup, Run(setup, calls))
    decreases |calls|
  {
    if calls == [] {
      forall id ensures IdLaw(setup, Mid(NewSys(), []), id) {}
    } else {
      var k := |calls| - 1;
      RunKeepsLaw(setup, calls[..k]);
      CallLaw(setup, Run(setup, calls[..k]), calls[k]);
    }
  }

  // ---------- main results ----------

  /** In every run, with any adapter and any failing sink, the trace events of an id spell a prefix of one of the
      four lifecycles; in an unpoisoned runtime an id is spelled out exactly when it has left the pipeline. */
  lemma LifecycleInEveryRun(setup: Setup, calls: seq<Call>, id: ActionId)
    ensures var s := Run(setup, calls);
            var w := Word(Trace(s.history), id);
            && IsLifecyclePrefix(w)
            && (s.poisoned.None? ==>
                  && (id >= s.exec.nextId ==> w == [])
                  && (Find(s.exec.pending, id).Some? ==> w == [Req] || w == [Req, Val, Dis])
                  && (IsFullWord(w) <==> id < s.exec.nextId && Find(s.exec.pending, id).None?))
  {
    var s := Run(setup, calls);
    RunKeepsLaw(setup, calls);
    assert Sound(setup, s.history, id);
    LifeSpellsWord(Trace(s.history), id);
    if s.poisoned.None? {
      assert IdLaw(setup, Mid(s, []), id);
      StagedAboveBar(s.exec, id);
      FindMember(s.exec.pending, id);
    }
  }

  /** Every adapter write of a run: its request was in the trace before, for the same action; the catalog, the
      capability and the preconditions passed on the snapshot being processed; and the id had not been written. */
  lemma WritesInEveryRun(setup: Setup, calls: seq<Call>, p: History)
    requires Past(p, Run(setup, calls).history) && p.After? && p.last.Wrote?
    ensures RequestTraced(p.past, p.last.id, p.last.action)
    ensures CapabilityGranted(p.past, p.last.id, p.last.action, p.last.at)
    ensures Admissible(setup.catalog, p.last.action, p.last.at)
    ensures !WroteBefore(p.past, p.last.id)
  {
    RunKeepsLaw(setup, calls);
    assert Sound(setup, Run(setup, calls).history, p.last.id);
    WriteIsLawful(setup.catalog, Run(setup, calls).history, p, p.last.id);
  }

  /** Every ActionVerified of a run is preceded by the dispatch of the same id at a strictly smaller simulator time. */
  lemma VerifiedAfterDispatch(setup: Setup, calls: seq<Call>, k: nat)
    requires var trace := Trace(Run(setup, calls).history); k < |trace| && trace[k].ActionVerified?
    ensures var trace := Trace(Run(setup, calls).history);
            exists j :: 0 <= j < k && trace[j].ActionDispatched? && trace[j].id == trace[k].id
                        && trace[j].ts < trace[k].ts
  {
    var trace := Trace(Run(setup, calls).history);
    RunKeepsLaw(setup, calls);
    assert Sound(setup, Run(setup, calls).history, trace[k].id);
    ConfirmedWasDispatched(trace, trace[k].id, k);
  }
}
