/** The events of a tick: one block for every snapshot, in order, and in it the reports, the actions' events, the flow's
    events and the flow's requests. */
module RunBlocks {
  import opened Actions
  import opened History
  import opened Executor
  import opened ExecutorLaws
  import opened Flow
  import opened FlowLaws
  import opened FlowEvents
  import opened FlowOutcomes
  import opened RuntimeModel
  import opened RunFlow
  import opened RunTale
  import RuntimeFrame

  /** What one snapshot adds to the trace. */
  datatype Block = Block(
    reports: seq<TraceEvent>, actions: seq<TraceEvent>, tale: seq<TraceEvent>, requests: seq<TraceEvent>)

  function EventsOf(b: Block): seq<TraceEvent> {
    b.reports + b.actions + b.tale + b.requests
  }

  predicate IsReport(e: TraceEvent) {
    e.SimStateChanged? || e.StateDelta? || e.PhaseChange?
  }

  /** A change of the simulator state, then one of the values, then one of the phase, each at most once. */
  predicate ReportsInOrder(reports: seq<TraceEvent>) {
    && |reports| <= 3 && (forall i :: 0 <= i < |reports| ==> IsReport(reports[i]))
    && forall i, j :: 0 <= i < j < |reports| ==>
         (reports[i].SimStateChanged? && !reports[j].SimStateChanged?)
         || (reports[i].StateDelta? && reports[j].PhaseChange?)
  }

  /** The actions that these events say a step asked for. */
  function AskedFor(tale: seq<TraceEvent>): seq<CockpitAction> {
    if tale == [] then []
    else
      var e := tale[|tale| - 1];
      AskedFor(tale[..|tale| - 1]) + if e.StepActionRequested? then [e.action] else []
  }

  /** The runtime requests just these actions, under the ids from this one on. */
  predicate RequestsFollow(asked: seq<CockpitAction>, requests: seq<TraceEvent>, ts: nat, id: ActionId) {
    && |requests| == |asked|
    && forall i :: 0 <= i < |asked| ==>
         && requests[i].ActionRequested? && requests[i].ts == ts && requests[i].action == asked[i]
         && requests[i].actor == RuntimeActor && requests[i].id == id + i
  }

  predicate LawfulBlock(b: Block, ts: nat, id: ActionId) {
    && ReportsInOrder(b.reports) && (forall i :: 0 <= i < |b.reports| ==> b.reports[i].ts == ts)
    && (forall i :: 0 <= i < |b.actions| ==>
          b.actions[i].IsAction() && !b.actions[i].ActionRequested? && b.actions[i].ts == ts)
    && (forall i :: 0 <= i < |b.tale| ==> IsFlowEvent(b.tale[i]) && b.tale[i].ts == ts)
    && RequestsFollow(AskedFor(b.tale), b.requests, ts, id)
  }

  /** The outcomes that these events tell of: one for every verification, in order. */
  function OutcomesIn(events: seq<TraceEvent>): seq<Outcome> {
    if events == [] then []
    else
      var e := events[|events| - 1];
      OutcomesIn(events[..|events| - 1]) + if e.ActionVerified? then [Outcome(e.id, Verified)] else []
  }

  lemma {:induction false} OutcomesConcat(a: seq<TraceEvent>, b: seq<TraceEvent>)
    ensures OutcomesIn(a + b) == OutcomesIn(a) + OutcomesIn(b)
    decreases |b|
  {
    if b == [] {
      assert a + b == a;
    } else {
      var n := |b| - 1;
      assert (a + b)[..|a + b| - 1] == a + b[..n];
      OutcomesConcat(a, b[..n]);
    }
  }

  predicate NoneVerified(events: seq<TraceEvent>) {
    forall e :: e in events ==> !e.ActionVerified?
  }

  lemma {:induction false} NoOutcomes(events: seq<TraceEvent>)
    requires NoneVerified(events)
    ensures OutcomesIn(events) == []
  {
    if events != [] { NoOutcomes(events[..|events| - 1]); }
  }

  // ---------- the parts of a block ----------

  lemma {:induction false} PassOutcomes(rules: Rules, q: Queue, snap: Snapshot, h: History)
    requires AllInFlight(q)
    ensures var t := Pass(rules, q, snap, h); t.done == OutcomesIn(t.events)
  {
    if q != [] {
      var t := Stage(rules, q[0], snap, h);
      var rest := Pass(rules, q[1..], snap, t.history);
      PassOutcomes(rules, q[1..], snap, t.history);
      StageOutcomes(rules, q[0], snap, h);
      OutcomesConcat(t.events, rest.events);
    }
  }

  lemma StageOutcomes(rules: Rules, r: ActionRecord, snap: Snapshot, h: History)
    requires InFlight(r)
    ensures var t := Stage(rules, r, snap, h); t.done == OutcomesIn(t.events)
  {
    var t := Stage(rules, r, snap, h);
    if t.events != [] { assert t.events[..|t.events| - 1] == []; }
  }

  /** An advance hands over exactly the outcomes that its events tell of, in their order. */
  lemma {:induction false} PassesOutcomes(rules: Rules, q: Queue, snap: Snapshot, h: History)
    requires AllInFlight(q)
    ensures var t := Passes(rules, q, snap, h); t.done == OutcomesIn(t.events)
    decreases Rank(q)
  {
    var t := Pass(rules, q, snap, h);
    PassOutcomes(rules, q, snap, h);
    if t.progressed && t.kept != [] {
      PassLowersRank(rules, q, snap, h);
      var rest := Passes(rules, t.kept, snap, t.history);
      PassesOutcomes(rules, t.kept, snap, t.history);
      OutcomesConcat(t.events, rest.events);
    }
  }

  lemma {:induction false} TracedAsAsked(sop: seq<SopEvent>, ts: nat)
    ensures |AskedFor(SopTrace(sop, ts))| == |RequestsIn(sop)|
    ensures forall i :: 0 <= i < |RequestsIn(sop)| ==> AskedFor(SopTrace(sop, ts))[i] == RequestsIn(sop)[i].action
    decreases |sop|
  {
    if sop != [] {
      var n := |sop| - 1;
      assert SopTrace(sop, ts)[..n] == SopTrace(sop[..n], ts);
      TracedAsAsked(sop[..n], ts);
    }
  }

  /** Staging turns requests into events under the next ids. */
  lemma {:induction false} StagedFollow(m: Mid, requests: seq<StepRequest>, ts: nat) returns (events: seq<TraceEvent>)
    requires Ready(m.sys) && m.sys.flow.Some?
    ensures var n := StageRequests(m, requests, ts);
            && n.buffer == m.buffer + events && |events| == |requests|
            && n.sys.exec.nextId == m.sys.exec.nextId + |requests| && n.sys.nextSeq == m.sys.nextSeq + |requests|
            && n.sys.exec.completed == m.sys.exec.completed
    ensures forall i :: 0 <= i < |requests| ==>
              && events[i].ActionRequested? && events[i].ts == ts && events[i].action == requests[i].action
              && events[i].actor == RuntimeActor && events[i].id == m.sys.exec.nextId + i
    decreases |requests|
  {
    events := [];
    if requests != [] {
      var k := |requests| - 1;
      var first := StagedFollow(m, requests[..k], ts);
      var n := StageRequests(m, requests[..k], ts);
      var e := ActionRequested(n.sys.nextSeq, ts, requests[k].action, RuntimeActor, n.sys.exec.nextId);
      events := first + [e];
      AddedLast(m.buffer, first, e);
    } else {
      assert m.buffer + events == m.buffer;
    }
  }

  lemma AddedLast(a: seq<TraceEvent>, b: seq<TraceEvent>, e: TraceEvent)
    ensures a + b + [e] == a + (b + [e])
  {
  }

  lemma ObservedInOrder(setup: Setup, m: Mid, snap: Snapshot, source: EventSource) returns (reports: seq<TraceEvent>)
    requires Ready(m.sys)
    ensures ObserveSpec(setup, m, snap, source).buffer == m.buffer + reports
    ensures ReportsInOrder(reports) && forall i :: 0 <= i < |reports| ==> reports[i].ts == snap.ms
  {
    var ingested := Ingest(setup, m.sys.last, snap, source);
    var changes := EvaluateSpec(setup, m.sys.phase, m.sys.last, snap).1;
    reports := ingested + changes;
    assert m.buffer + ingested + changes == m.buffer + reports;
  }

  /** What has been asked of the flow's steps is requested, in the same order. */
  lemma FlowFollows(m: Mid, snap: Snapshot) returns (tale: seq<TraceEvent>, requests: seq<TraceEvent>)
    requires Ready(m.sys)
    ensures var n := FlowSpec(m, snap);
            && n.buffer == m.buffer + tale + requests
            && n.sys.exec.nextId == m.sys.exec.nextId + |requests| && n.sys.nextSeq == m.sys.nextSeq + |requests|
            && n.sys.exec.completed == m.sys.exec.completed
    ensures forall i :: 0 <= i < |tale| ==> IsFlowEvent(tale[i]) && tale[i].ts == snap.ms
    ensures RequestsFollow(AskedFor(tale), requests, snap.ms, m.sys.exec.nextId)
  {
    tale, requests := [], [];
    if m.sys.flow.Some? {
      tale := PassFollows(m, snap);
      requests := StagedFollow(Processed(m, snap).0, Processed(m, snap).1, snap.ms);
    } else {
      assert m.buffer + tale + requests == m.buffer;
    }
  }

  /** The report and the pass tell of just the requests they hand out. */
  lemma PassFollows(m: Mid, snap: Snapshot) returns (tale: seq<TraceEvent>)
    requires Ready(m.sys) && m.sys.flow.Some?
    ensures var (n, wanted) := Processed(m, snap);
            && n.buffer == m.buffer + tale && n.sys.exec == m.sys.exec && n.sys.nextSeq == m.sys.nextSeq
            && |AskedFor(tale)| == |wanted|
            && forall i :: 0 <= i < |wanted| ==> AskedFor(tale)[i] == wanted[i].action
    ensures forall i :: 0 <= i < |tale| ==> IsFlowEvent(tale[i]) && tale[i].ts == snap.ms
  {
    var f := m.sys.flow.value;
    var (f1, reported) := ReportSpec(f, m.sys.outcomes);
    WantedIsAsked(f, snap, m.sys.outcomes);
    var sop := reported + ProcessSpec(f1, snap).1;
    tale := SopTrace(sop, snap.ms);
    TracedAsAsked(sop, snap.ms);
  }

  lemma WantedIsAsked(f: Flow, snap: Snapshot, outcomes: seq<Outcome>)
    requires Shaped(f)
    ensures var (f1, reported) := ReportSpec(f, outcomes);
            && Shaped(f1)
            && var (_, processed, wanted) := ProcessSpec(f1, snap);
            RequestsIn(reported + processed) == wanted
  {
    ApplyShaped(f, FlowLaws.ReportOp(outcomes));
    var (f1, reported) := ReportSpec(f, outcomes);
    RequestsMatchEvents(f, snap, outcomes);
    RequestsMatchEvents(f1, snap, outcomes);
    AskedConcat(reported, ProcessSpec(f1, snap).1);
  }

  // ---------- one snapshot ----------

  lemma SnapshotIsABlock(setup: Setup, m: Mid, snap: Snapshot, source: EventSource) returns (b: Block)
    requires Ready(m.sys)
    ensures LawfulBlock(b, snap.ms, m.sys.exec.nextId)
    ensures LeadTo(m, SnapshotSpec(setup, m, snap, source), EventsOf(b), |b.requests|)
  {
    var reports := ObservedInOrder(setup, m, snap, source);
    var a := ObserveSpec(setup, m, snap, source);
    var t := Passes(setup.Rules(), a.sys.exec.pending, snap, a.sys.history);
    PassesFrame(setup.Rules(), a.sys.exec.pending, snap, a.sys.history);
    PassesOutcomes(setup.Rules(), a.sys.exec.pending, snap, a.sys.history);
    var tale, requests := FlowFollows(ActionSpec(setup, a, snap), snap);
    b := Block(reports, t.events, tale, requests);
    FourParts(m.buffer, b);
    OnlyActionsVerify(b, snap.ms, m.sys.exec.nextId);
  }

  lemma FourParts(buffer: seq<TraceEvent>, b: Block)
    ensures buffer + b.reports + b.actions + b.tale + b.requests == buffer + EventsOf(b)
  {
  }

  lemma OnlyActionsVerify(b: Block, ts: nat, id: ActionId)
    requires LawfulBlock(b, ts, id)
    ensures OutcomesIn(EventsOf(b)) == OutcomesIn(b.actions)
  {
    NoOutcomes(b.reports);
    NoOutcomes(b.tale);
    NoOutcomes(b.requests);
    OutcomesConcat(b.reports, b.actions);
    OutcomesConcat(b.reports + b.actions, b.tale);
    OutcomesConcat(b.reports + b.actions + b.tale, b.requests);
  }

  // ---------- one tick ----------

  function AllEvents(blocks: seq<Block>): seq<TraceEvent> {
    if blocks == [] then [] else AllEvents(blocks[..|blocks| - 1]) + EventsOf(blocks[|blocks| - 1])
  }

  function Requested(blocks: seq<Block>): nat {
    if blocks == [] then 0 else Requested(blocks[..|blocks| - 1]) + |blocks[|blocks| - 1].requests|
  }

  /** One block for every snapshot, the ids of the requests running on. */
  predicate LawfulBlocks(blocks: seq<Block>, snaps: seq<Snapshot>, id: ActionId) {
    |blocks| == |snaps| && forall k :: 0 <= k < |blocks| ==> LawfulAt(blocks, k, snaps[k].ms, id)
  }

  predicate LawfulAt(blocks: seq<Block>, k: nat, ts: nat, id: ActionId)
    requires k < |blocks|
  {
    LawfulBlock(blocks[k], ts, id + Requested(blocks[..k]))
  }

  lemma OneMoreBlock(blocks: seq<Block>, snaps: seq<Snapshot>, id: ActionId, b: Block)
    requires snaps != [] && LawfulBlocks(blocks, snaps[..|snaps| - 1], id)
    requires LawfulBlock(b, snaps[|snaps| - 1].ms, id + Requested(blocks))
    ensures LawfulBlocks(blocks + [b], snaps, id)
    ensures AllEvents(blocks + [b]) == AllEvents(blocks) + EventsOf(b)
    ensures Requested(blocks + [b]) == Requested(blocks) + |b.requests|
  {
    var all := blocks + [b];
    PrefixOfLonger(blocks, b, |blocks|);
    forall k | 0 <= k < |all| ensures LawfulAt(all, k, snaps[k].ms, id) {
      PrefixOfLonger(blocks, b, k);
      if k < |blocks| { assert LawfulAt(blocks, k, snaps[k].ms, id); }
    }
    NothingAdded(blocks);
  }

  lemma PrefixOfLonger<T>(a: seq<T>, x: T, k: nat)
    requires k <= |a|
    ensures (a + [x])[..k] == a[..k] && (k == |a| ==> (a + [x])[..k] == a)
  {
  }

  lemma {:induction false} SnapshotsAreBlocks(setup: Setup, m: Mid, snaps: seq<Snapshot>, source: EventSource)
    returns (blocks: seq<Block>)
    requires Ready(m.sys)
    ensures LawfulBlocks(blocks, snaps, m.sys.exec.nextId)
    ensures LeadTo(m, SnapshotsSpec(setup, m, snaps, source), AllEvents(blocks), Requested(blocks))
    decreases |snaps|
  {
    blocks := [];
    if snaps == [] {
      NothingAdded(m.buffer);
      NothingAdded(m.sys.exec.completed);
    } else {
      var k := |snaps| - 1;
      var before := SnapshotsAreBlocks(setup, m, snaps[..k], source);
      blocks := BlocksFollow(setup, m, SnapshotsSpec(setup, m, snaps[..k], source), before, snaps, source);
    }
  }

  lemma BlocksFollow(setup: Setup, m: Mid, n: Mid, before: seq<Block>, snaps: seq<Snapshot>, source: EventSource)
    returns (blocks: seq<Block>)
    requires Ready(n.sys) && snaps != [] && LawfulBlocks(before, snaps[..|snaps| - 1], m.sys.exec.nextId)
    requires LeadTo(m, n, AllEvents(before), Requested(before))
    ensures LawfulBlocks(blocks, snaps, m.sys.exec.nextId)
    ensures LeadTo(m, SnapshotSpec(setup, n, snaps[|snaps| - 1], source), AllEvents(blocks), Requested(blocks))
  {
    var snap := snaps[|snaps| - 1];
    var b := SnapshotIsABlock(setup, n, snap, source);
    OneMoreBlock(before, snaps, m.sys.exec.nextId, b);
    Follows(m, n, before, SnapshotSpec(setup, n, snap, source), b);
    blocks := before + [b];
  }

  /** The blocks lead from one state of a tick to the other. */
  ghost predicate LeadTo(m: Mid, n: Mid, events: seq<TraceEvent>, requested: nat) {
    && n.buffer == m.buffer + events
    && n.sys.exec.nextId == m.sys.exec.nextId + requested && n.sys.nextSeq == m.sys.nextSeq + requested
    && n.sys.exec.completed == m.sys.exec.completed + OutcomesIn(events)
  }

  lemma Follows(m: Mid, n: Mid, before: seq<Block>, n': Mid, b: Block)
    requires LeadTo(m, n, AllEvents(before), Requested(before)) && LeadTo(n, n', EventsOf(b), |b.requests|)
    ensures LeadTo(m, n', AllEvents(before + [b]), Requested(before + [b]))
  {
    PrefixOfLonger(before, b, |before|);
    AddedTogether(m.buffer, AllEvents(before), EventsOf(b));
    AddedTogether(m.sys.exec.completed, OutcomesIn(AllEvents(before)), OutcomesIn(EventsOf(b)));
    OutcomesConcat(AllEvents(before), EventsOf(b));
  }

  lemma NothingAdded<T>(a: seq<T>)
    ensures a + [] == a
  {
  }

  lemma AddedTogether<T>(a: seq<T>, b: seq<T>, c: seq<T>)
    ensures a + b + c == a + (b + c)
  {
  }

  /** The events with numbers given out one after the other. */
  function Stamped(events: seq<TraceEvent>, from: nat): seq<TraceEvent> {
    seq(|events|, i requires 0 <= i < |events| => events[i].WithSeq(from + i))
  }

  lemma StampedFirst(events: seq<TraceEvent>, from: nat)
    requires events != []
    ensures Stamped(events, from) == [events[0].WithSeq(from)] + Stamped(events[1..], from + 1)
  {
  }

  /** Buffered events reach the trace in order, under consecutive numbers, until an append fails. */
  lemma {:induction false} AppendAllStamps(setup: Setup, s: Sys, events: seq<TraceEvent>)
    requires s.poisoned.None?
    ensures var t := AppendAll(setup, s, events);
            && Trace(t.history) <= Trace(s.history) + Stamped(events, s.nextSeq)
            && (t.poisoned.None? ==> Trace(t.history) == Trace(s.history) + Stamped(events, s.nextSeq)
                                     && t.nextSeq == s.nextSeq + |events|)
            && t.exec == s.exec && t.flow == s.flow && t.outcomes == s.outcomes
    decreases |events|
  {
    if events == [] {
      NothingAdded(Trace(s.history));
      assert Stamped(events, s.nextSeq) == [];
    } else {
      var t := AppendOne(setup, s, events[0]);
      StampedFirst(events, s.nextSeq);
      if t.poisoned.None? {
        AddedTogether(Trace(s.history), [events[0].WithSeq(s.nextSeq)], Stamped(events[1..], s.nextSeq + 1));
        AppendAllStamps(setup, t, events[1..]);
      }
    }
  }

  /** What a tick adds to the trace and hands over as outcomes, whether or not an append fails on the way. */
  ghost predicate TickTold(s: Sys, t: Sys, snaps: seq<Snapshot>, blocks: seq<Block>) {
    var events := AllEvents(blocks);
    var told := Stamped(events, s.nextSeq + Requested(blocks));
    && LawfulBlocks(blocks, snaps, s.exec.nextId)
    && Trace(t.history) <= Trace(s.history) + told
    && (t.poisoned.None? ==>
          && Trace(t.history) == Trace(s.history) + told
          && t.nextSeq == s.nextSeq + Requested(blocks) + |events| && t.exec.nextId == s.exec.nextId + Requested(blocks)
          && if t.flow.None? then t.exec.completed == s.exec.completed + OutcomesIn(events)
             else t.outcomes == s.exec.completed + OutcomesIn(events) && t.exec.completed == [])
  }

  lemma TickIsTold(setup: Setup, s: Sys, snaps: seq<Snapshot>, source: EventSource) returns (blocks: seq<Block>)
    requires Ready(s) && s.poisoned.None?
    ensures TickTold(s, TickBody(setup, s, snaps, source), snaps, blocks)
  {
    blocks := SnapshotsAreBlocks(setup, Mid(s, []), snaps, source);
    var m := SnapshotsSpec(setup, Mid(s, []), snaps, source);
    RuntimeFrame.SnapshotsFramed(setup, Mid(s, []), snaps, source);
    assert [] + AllEvents(blocks) == AllEvents(blocks);
    AppendAllStamps(setup, m.sys, m.buffer);
    SettledIsTold(s, m, AppendAll(setup, m.sys, m.buffer), snaps, blocks);
  }

  lemma SettledIsTold(s: Sys, m: Mid, a: Sys, snaps: seq<Snapshot>, blocks: seq<Block>)
    requires Ready(a) && LawfulBlocks(blocks, snaps, s.exec.nextId)
    requires LeadTo(Mid(s, []), m, AllEvents(blocks), Requested(blocks)) && Trace(m.sys.history) == Trace(s.history)
    requires Trace(a.history) <= Trace(s.history) + Stamped(AllEvents(blocks), m.sys.nextSeq)
    requires a.poisoned.None? ==>
               && Trace(a.history) == Trace(s.history) + Stamped(AllEvents(blocks), m.sys.nextSeq)
               && a.nextSeq == m.sys.nextSeq + |AllEvents(blocks)|
    requires a.exec == m.sys.exec
    ensures TickTold(s, if a.poisoned.Some? then a else SettleSpec(a), snaps, blocks)
  {
  }

  /** In every run a tick that has polled tells its story snapshot by snapshot: all under the snapshot's time, first the
      changes it makes to simulator state, values and phase, then the events of actions, then those of the flow, then
      the requests that the flow's steps asked for, in the runtime's name and under the next ids. All of it is in the
      trace under consecutive numbers unless an append failed, and then a beginning of it is; and each verification it
      tells of is handed over as one outcome, in the same order, to the flow if there is one. */
  lemma TickInEveryRun(setup: Setup, calls: seq<Call>, source: EventSource)
    requires var s := Run(setup, calls);
             s.poisoned.None? && setup.env.connected(s.history) && setup.env.poll(s.history).Ok?
    ensures var s, t := Run(setup, calls), Run(setup, calls + [TickCall(source)]);
            ToldInBlocks(s, t, setup.env.poll(s.history).value)
  {
    var s := Run(setup, calls);
    PrefixOfLonger(calls, TickCall(source), |calls|);
    PolledIsTold(setup, s, setup.env.poll(s.history).value, source);
  }

  ghost predicate ToldInBlocks(s: Sys, t: Sys, snaps: seq<Snapshot>) {
    exists blocks :: TickTold(s, t, snaps, blocks)
  }

  lemma PolledIsTold(setup: Setup, s: Sys, snaps: seq<Snapshot>, source: EventSource)
    requires Ready(s) && s.poisoned.None? && setup.env.connected(s.history) && setup.env.poll(s.history) == Ok(snaps)
    ensures ToldInBlocks(s, TickSpec(setup, s, source), snaps)
  {
    var polled := s.(history := After(s.history, Polled(Ok(snaps))));
    var t := TickBody(setup, polled, snaps, source);
    var blocks := TickIsTold(setup, polled, snaps, source);
    assert TickSpec(setup, s, source) == t;
    assert TickTold(s, t, snaps, blocks);
  }

  // ---------- the flow after a tick ----------

  ghost predicate SameStatuses(f: Flow, g: Flow) {
    && Shaped(f) && Shaped(g) && g.def == f.def && g.status == f.status
    && forall i :: 0 <= i < |f.steps| ==> g.steps[i].status == f.steps[i].status
  }

  lemma {:induction false} StagingKeepsStatuses(m: Mid, requests: seq<StepRequest>, ts: nat)
    requires Ready(m.sys) && m.sys.flow.Some?
    ensures SameStatuses(m.sys.flow.value, StageRequests(m, requests, ts).sys.flow.value)
    decreases |requests|
  {
    if requests != [] { StagingKeepsStatuses(m, requests[..|requests| - 1], ts); }
  }

  lemma LeftWaitingStays(f: Flow, g: Flow, i: nat)
    requires SameStatuses(f, g) && i < |f.steps| && LeftWaiting(f, i)
    ensures LeftWaiting(g, i)
  {
    var d :| d in f.def.steps[i].dependsOn && HoldsUp(f, d);
    assert HoldsUp(g, d);
  }

  /** The flow is running, and each step still pending has a dependency that is not verified, or is one by observation.
      */
  predicate CaughtUp(flow: Option<Flow>) {
    flow.Some? && Shaped(flow.value) && flow.value.status.RunningFlow? ==>
      forall i :: 0 <= i < |flow.value.steps| && flow.value.steps[i].status.PendingStep? ==> LeftWaiting(flow.value, i)
  }

  lemma FlowCatchesUp(m: Mid, snap: Snapshot)
    requires Ready(m.sys)
    ensures CaughtUp(FlowSpec(m, snap).sys.flow)
  {
    if m.sys.flow.Some? {
      ProcessedTold(m, snap);
      var f1 := ReportSpec(m.sys.flow.value, m.sys.outcomes).0;
      var (n, requests) := Processed(m, snap);
      var p, g := n.sys.flow.value, FlowSpec(m, snap).sys.flow.value;
      StagingKeepsStatuses(n, requests, snap.ms);
      if g.status.RunningFlow? {
        forall i | 0 <= i < |g.steps| && g.steps[i].status.PendingStep? ensures LeftWaiting(g, i) {
          NoneLeftBehind(f1, snap, i);
          LeftWaitingStays(p, g, i);
        }
      }
    }
  }

  /** In every run, after a tick that has polled a snapshot, no step of the flow waits for what is known already: a step
      still pending has a dependency that is no verified action step. An outcome handed over counts at the very next
      snapshot, for the steps behind its step too. */
  lemma FlowCaughtUpInEveryRun(setup: Setup, calls: seq<Call>, source: EventSource)
    requires var s := Run(setup, calls);
             && s.poisoned.None? && setup.env.connected(s.history) && setup.env.poll(s.history).Ok?
             && setup.env.poll(s.history).value != []
    ensures CaughtUp(Run(setup, calls + [TickCall(source)]).flow)
  {
    var s := Run(setup, calls);
    PrefixOfLonger(calls, TickCall(source), |calls|);
    PolledCatchesUp(setup, s, setup.env.poll(s.history).value, source);
  }

  lemma PolledCatchesUp(setup: Setup, s: Sys, snaps: seq<Snapshot>, source: EventSource)
    requires Ready(s) && s.poisoned.None? && setup.env.connected(s.history) && setup.env.poll(s.history) == Ok(snaps)
    requires snaps != []
    ensures CaughtUp(TickSpec(setup, s, source).flow)
  {
    var polled := s.(history := After(s.history, Polled(Ok(snaps))));
    var k := |snaps| - 1;
    var m := SnapshotsSpec(setup, Mid(polled, []), snaps[..k], source);
    FlowCatchesUp(ActionSpec(setup, ObserveSpec(setup, m, snaps[k], source), snaps[k]), snaps[k]);
    var n := SnapshotsSpec(setup, Mid(polled, []), snaps, source);
    RuntimeFrame.SnapshotsFramed(setup, Mid(polled, []), snaps, source);
    AppendAllStamps(setup, n.sys, n.buffer);
  }
}
