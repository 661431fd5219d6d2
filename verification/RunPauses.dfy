/** What the phase engine is fed: the runtime's filter in front of a tracker that would hold after a pause. */
module RunPauses {
  import opened Actions
  import opened History
  import opened Executor
  import opened RuntimeModel
  import RuntimeFrame

  // ---------- what is evaluated, and what is promised ----------

  /** Every snapshot that polls have delivered, in order. */
  function Stream(h: History): seq<Snapshot> {
    match h
    case Empty => []
    case After(past, last) =>
      if last.Polled? && last.answer.Ok? then Stream(past) + last.answer.value else Stream(past)
  }

  /** Running, or unknown and not right behind a paused snapshot. */
  predicate EvaluatedAt(stream: seq<Snapshot>, k: nat)
    requires k < |stream|
  {
    stream[k].sim.Running? || (stream[k].sim.UnknownState? && !(k > 0 && stream[k - 1].sim.Paused?))
  }

  function Evaluated(stream: seq<Snapshot>): seq<Snapshot> {
    if stream == [] then []
    else
      var k := |stream| - 1;
      Evaluated(stream[..k]) + if EvaluatedAt(stream, k) then [stream[k]] else []
  }

  function Latest(stream: seq<Snapshot>): Option<Snapshot> {
    if stream == [] then None else Some(stream[|stream| - 1])
  }

  /** The hold the tracker promises: after a pause no unknown snapshot is evaluated until a running one came between. */
  ghost predicate HoldKept(stream: seq<Snapshot>) {
    forall j, k :: 0 <= j < k < |stream| && stream[j].sim.Paused? && stream[k].sim.UnknownState?
        && EvaluatedAt(stream, k)
      ==> exists r :: j < r < k && stream[r].sim.Running?
  }

  /** What the filter promises: an unknown state is evaluated only before any state was known. */
  ghost predicate SilentOnceKnown(stream: seq<Snapshot>) {
    forall j, k :: 0 <= j < k < |stream| && !stream[j].sim.UnknownState? && stream[k].sim.UnknownState?
      ==> !EvaluatedAt(stream, k)
  }

  /** A paused snapshot with two unknown ones right behind it. */
  predicate PausedUnknownUnknown(stream: seq<Snapshot>, i: nat) {
    i + 2 < |stream| && stream[i].sim.Paused? && stream[i + 1].sim.UnknownState? && stream[i + 2].sim.UnknownState?
  }

  predicate RunningUnknown(stream: seq<Snapshot>, i: nat) {
    i + 1 < |stream| && stream[i].sim.Running? && stream[i + 1].sim.UnknownState?
  }

  /** From a known state to a later evaluated unknown one there is a first unknown in between. */
  lemma {:induction false} UnknownAfterKnown(stream: seq<Snapshot>, j: nat, k: nat) returns (i: nat)
    requires j < k < |stream| && !stream[j].sim.UnknownState? && stream[k].sim.UnknownState?
    ensures j <= i < k && !stream[i].sim.UnknownState?
    ensures forall n :: i < n <= k ==> stream[n].sim.UnknownState?
    decreases k - j
  {
    if !stream[k - 1].sim.UnknownState? {
      i := k - 1;
    } else {
      i := UnknownAfterKnown(stream, j, k - 1);
    }
  }

  /** The tracker's hold is kept exactly when no paused snapshot is followed directly by two unknown ones. */
  lemma HoldKeptIff(stream: seq<Snapshot>)
    ensures HoldKept(stream) <==> forall i: nat :: !PausedUnknownUnknown(stream, i)
  {
    if HoldKept(stream) {
      forall i: nat ensures !PausedUnknownUnknown(stream, i) {
        if PausedUnknownUnknown(stream, i) { assert EvaluatedAt(stream, i + 2); }
      }
    }
    if forall i: nat :: !PausedUnknownUnknown(stream, i) {
      forall j, k | 0 <= j < k < |stream| && stream[j].sim.Paused? && stream[k].sim.UnknownState?
                    && EvaluatedAt(stream, k)
        ensures exists r :: j < r < k && stream[r].sim.Running?
      {
        var i := UnknownAfterKnown(stream, j, k);
        assert !PausedUnknownUnknown(stream, i);
      }
    }
  }

  /** The filter's promise is kept exactly when, besides, no running snapshot is followed directly by an unknown one. */
  lemma SilentOnceKnownIff(stream: seq<Snapshot>)
    ensures SilentOnceKnown(stream) <==>
            forall i: nat :: !RunningUnknown(stream, i) && !PausedUnknownUnknown(stream, i)
  {
    if SilentOnceKnown(stream) {
      forall i: nat ensures !RunningUnknown(stream, i) && !PausedUnknownUnknown(stream, i) {
        if RunningUnknown(stream, i) { assert EvaluatedAt(stream, i + 1); }
        if PausedUnknownUnknown(stream, i) { assert EvaluatedAt(stream, i + 2); }
      }
    }
    if forall i: nat :: !RunningUnknown(stream, i) && !PausedUnknownUnknown(stream, i) {
      forall j, k | 0 <= j < k < |stream| && !stream[j].sim.UnknownState? && stream[k].sim.UnknownState?
        ensures !EvaluatedAt(stream, k)
      {
        var i := UnknownAfterKnown(stream, j, k);
        assert !RunningUnknown(stream, i) && !PausedUnknownUnknown(stream, i);
      }
    }
  }

  lemma {:induction false} EvaluatedSnoc(stream: seq<Snapshot>, snap: Snapshot)
    ensures Evaluated(stream + [snap]) ==
            Evaluated(stream) + if ShouldEvaluate(snap, WasPaused(Latest(stream))) then [snap] else []
  {
    assert (stream + [snap])[..|stream|] == stream;
  }

  // ---------- polls are the only source of snapshots ----------

  lemma {:induction false} PassPolls(rules: Rules, q: Queue, snap: Snapshot, h: History)
    requires AllInFlight(q)
    ensures Stream(Pass(rules, q, snap, h).history) == Stream(h)
  {
    if q != [] { PassPolls(rules, q[1..], snap, Stage(rules, q[0], snap, h).history); }
  }

  lemma {:induction false} PassesPoll(rules: Rules, q: Queue, snap: Snapshot, h: History)
    requires AllInFlight(q)
    ensures Stream(Passes(rules, q, snap, h).history) == Stream(h)
    decreases Rank(q)
  {
    var t := Pass(rules, q, snap, h);
    PassPolls(rules, q, snap, h);
    if t.progressed && t.kept != [] {
      PassLowersRank(rules, q, snap, h);
      PassesPoll(rules, t.kept, snap, t.history);
    }
  }

  lemma {:induction false} AppendKeepsPhase(setup: Setup, s: Sys, events: seq<TraceEvent>)
    ensures var t := AppendAll(setup, s, events);
            t.phase == s.phase && t.last == s.last && Stream(t.history) == Stream(s.history)
    decreases |events|
  {
    if events != [] && s.poisoned.None? { AppendKeepsPhase(setup, AppendOne(setup, s, events[0]), events[1..]); }
  }

  lemma SnapshotPolls(setup: Setup, m: Mid, snap: Snapshot, source: EventSource)
    requires Ready(m.sys)
    ensures Stream(SnapshotSpec(setup, m, snap, source).sys.history) == Stream(m.sys.history)
  {
    var a := ObserveSpec(setup, m, snap, source);
    PassesPoll(setup.Rules(), a.sys.exec.pending, snap, a.sys.history);
    RuntimeFrame.FlowFramed(ActionSpec(setup, a, snap), snap);
  }

  lemma {:induction false} SnapshotsPoll(setup: Setup, m: Mid, snaps: seq<Snapshot>, source: EventSource)
    requires Ready(m.sys)
    ensures Stream(SnapshotsSpec(setup, m, snaps, source).sys.history) == Stream(m.sys.history)
    decreases |snaps|
  {
    if snaps != [] {
      var k := |snaps| - 1;
      SnapshotsPoll(setup, m, snaps[..k], source);
      SnapshotPolls(setup, SnapshotsSpec(setup, m, snaps[..k], source), snaps[k], source);
    }
  }

  /** The rest of a tick delivers nothing more. */
  lemma TickPolls(setup: Setup, s: Sys, snaps: seq<Snapshot>, source: EventSource)
    requires Ready(s) && s.poisoned.None?
    ensures Stream(TickBody(setup, s, snaps, source).history) == Stream(s.history)
  {
    var m := SnapshotsSpec(setup, Mid(s, []), snaps, source);
    SnapshotsPoll(setup, Mid(s, []), snaps, source);
    AppendKeepsPhase(setup, m.sys, m.buffer);
  }

  // ---------- one snapshot, one poll ----------

  /** The engine has been fed just what is to be evaluated of the stream, and the tracker never learnt of a pause. */
  ghost predicate FedBy(s: Sys, stream: seq<Snapshot>) {
    !s.phase.paused && s.phase.seen == Evaluated(stream) && s.last == Latest(stream)
  }

  lemma SnapshotFeeds(setup: Setup, m: Mid, snap: Snapshot, source: EventSource, stream: seq<Snapshot>)
    requires Ready(m.sys) && FedBy(m.sys, stream)
    ensures FedBy(SnapshotSpec(setup, m, snap, source).sys, stream + [snap])
  {
    var a := ObserveSpec(setup, m, snap, source);
    RuntimeFrame.FlowFramed(ActionSpec(setup, a, snap), snap);
    EvaluatedSnoc(stream, snap);
  }

  lemma {:induction false} SnapshotsFeed(
      setup: Setup, m: Mid, snaps: seq<Snapshot>, source: EventSource, stream: seq<Snapshot>)
    requires Ready(m.sys) && FedBy(m.sys, stream)
    ensures FedBy(SnapshotsSpec(setup, m, snaps, source).sys, stream + snaps)
    decreases |snaps|
  {
    if snaps == [] {
      assert stream + snaps == stream;
    } else {
      var k := |snaps| - 1;
      var before := SnapshotsSpec(setup, m, snaps[..k], source);
      SnapshotsFeed(setup, m, snaps[..k], source, stream);
      SnapshotFeeds(setup, before, snaps[k], source, stream + snaps[..k]);
      LastJoins(stream, snaps);
    }
  }

  lemma LastJoins(stream: seq<Snapshot>, snaps: seq<Snapshot>)
    requires snaps != []
    ensures var k := |snaps| - 1; stream + snaps[..k] + [snaps[k]] == stream + snaps
  {
  }

  // ---------- every run ----------

  lemma PollFeeds(setup: Setup, s: Sys, snaps: seq<Snapshot>, source: EventSource)
    requires Ready(s) && s.poisoned.None? && FedBy(s, Stream(s.history))
    ensures var polled := s.(history := After(s.history, Polled(Ok(snaps))));
            FedBy(TickBody(setup, polled, snaps, source), Stream(TickBody(setup, polled, snaps, source).history))
  {
    var m := Mid(s.(history := After(s.history, Polled(Ok(snaps)))), []);
    SnapshotsFeed(setup, m, snaps, source, Stream(s.history));
    SnapshotsPoll(setup, m, snaps, source);
    var n := SnapshotsSpec(setup, m, snaps, source);
    AppendKeepsPhase(setup, n.sys, n.buffer);
  }

  /** In every run the engine has been fed exactly the evaluated ones of the snapshots polled so far, in order. */
  lemma {:induction false} EvaluatedInEveryRun(setup: Setup, calls: seq<Call>)
    ensures FedBy(Run(setup, calls), Stream(Run(setup, calls).history))
    decreases |calls|
  {
    if calls != [] {
      var k := |calls| - 1;
      var s := Run(setup, calls[..k]);
      EvaluatedInEveryRun(setup, calls[..k]);
      CallFeeds(setup, s, calls[k]);
    }
  }

  lemma OtherCallFeedsNothing(setup: Setup, s: Sys, call: Call)
    requires Ready(s) && !call.TickCall?
    ensures var t := Do(setup, s, call);
            t.phase == s.phase && t.last == s.last && Stream(t.history) == Stream(s.history)
  {
  }

  lemma CallFeeds(setup: Setup, s: Sys, call: Call)
    requires Ready(s) && FedBy(s, Stream(s.history))
    ensures FedBy(Do(setup, s, call), Stream(Do(setup, s, call).history))
  {
    if !call.TickCall? {
      OtherCallFeedsNothing(setup, s, call);
    } else if s.poisoned.None? && setup.env.connected(s.history) && setup.env.poll(s.history).Ok? {
      PollFeeds(setup, s, setup.env.poll(s.history).value, call.source);
    }
  }

  /** The runtime filters paused snapshots out before its phase tracker sees them, so in no run does the tracker ever
      learn of a pause. */
  lemma TrackerNeverPaused(setup: Setup, calls: seq<Call>)
    ensures !Run(setup, calls).phase.paused
  {
    EvaluatedInEveryRun(setup, calls);
  }

  /** Within a poll as well: after any run and any snapshots already processed, the next one is evaluated exactly when
      it is running, or unknown and not right behind a paused one. */
  lemma EvaluatedIff(setup: Setup, calls: seq<Call>, before: seq<Snapshot>, snap: Snapshot, source: EventSource)
    ensures var m := SnapshotsSpec(setup, Mid(Run(setup, calls), []), before, source);
            SnapshotSpec(setup, m, snap, source).sys.phase.seen == m.sys.phase.seen +
              if snap.sim.Running? || (snap.sim.UnknownState? && !WasPaused(m.sys.last)) then [snap] else []
  {
    var s := Run(setup, calls);
    EvaluatedInEveryRun(setup, calls);
    SnapshotsFeed(setup, Mid(s, []), before, source, Stream(s.history));
    var m := SnapshotsSpec(setup, Mid(s, []), before, source);
    SnapshotFeeds(setup, m, snap, source, Stream(s.history) + before);
    EvaluatedSnoc(Stream(s.history) + before, snap);
  }

  lemma FirstPoll(setup: Setup, stream: seq<Snapshot>, source: EventSource)
    requires setup.env.connected(Empty) && setup.env.poll(Empty) == Ok(stream)
    ensures Run(setup, [TickCall(source)]) ==
            TickBody(setup, NewSys().(history := After(Empty, Polled(Ok(stream)))), stream, source)
  {
    assert [TickCall(source)][..0] == [];
    assert Run(setup, []) == NewSys();
  }

  /** Any stream can be polled: a run of one tick whose engine is fed just the evaluated ones. */
  lemma AnyStreamRuns(setup: Setup, stream: seq<Snapshot>, source: EventSource)
    requires setup.env.connected(Empty) && setup.env.poll(Empty) == Ok(stream)
    ensures Run(setup, [TickCall(source)]).phase.seen == Evaluated(stream)
  {
    FirstPoll(setup, stream, source);
    var m := Mid(NewSys().(history := After(Empty, Polled(Ok(stream)))), []);
    SnapshotsFeed(setup, m, stream, source, []);
    assert [] + stream == stream;
    var n := SnapshotsSpec(setup, m, stream, source);
    AppendKeepsPhase(setup, n.sys, n.buffer);
  }

  lemma HeldOnce(stream: seq<Snapshot>, a: Snapshot, b: Snapshot, c: Snapshot)
    requires a.sim.Paused? && b.sim.UnknownState? && c.sim.UnknownState?
    ensures Evaluated(stream + [a, b, c]) == Evaluated(stream) + [c] && !HoldKept(stream + [a, b, c])
  {
    EvaluatedSnoc(stream, a);
    EvaluatedSnoc(stream + [a], b);
    EvaluatedSnoc(stream + [a] + [b], c);
    assert stream + [a] + [b] + [c] == stream + [a, b, c];
    assert PausedUnknownUnknown(stream + [a, b, c], |stream|);
    HoldKeptIff(stream + [a, b, c]);
  }

  /** A pause and two unknown snapshots: after any run, the second of them is evaluated although nothing confirmed a
      running state. */
  lemma HoldEndsEarly(setup: Setup, calls: seq<Call>, a: Snapshot, b: Snapshot, c: Snapshot, source: EventSource)
    requires a.sim.Paused? && b.sim.UnknownState? && c.sim.UnknownState?
    ensures var s := Run(setup, calls);
            && SnapshotsSpec(setup, Mid(s, []), [a, b, c], source).sys.phase.seen == s.phase.seen + [c]
            && !HoldKept(Stream(s.history) + [a, b, c])
  {
    var s := Run(setup, calls);
    EvaluatedInEveryRun(setup, calls);
    SnapshotsFeed(setup, Mid(s, []), [a, b, c], source, Stream(s.history));
    HeldOnce(Stream(s.history), a, b, c);
  }

  /** A running state lost at once: after any run, the unknown snapshot right behind the running one is evaluated. */
  lemma LostStateIsEvaluated(setup: Setup, calls: seq<Call>, a: Snapshot, b: Snapshot, source: EventSource)
    requires a.sim.Running? && b.sim.UnknownState?
    ensures var s := Run(setup, calls);
            && SnapshotsSpec(setup, Mid(s, []), [a, b], source).sys.phase.seen == s.phase.seen + [a, b]
            && !SilentOnceKnown(Stream(s.history) + [a, b])
  {
    var s := Run(setup, calls);
    var stream, n := Stream(s.history), |Stream(s.history)|;
    EvaluatedInEveryRun(setup, calls);
    SnapshotsFeed(setup, Mid(s, []), [a, b], source, stream);
    EvaluatedSnoc(stream, a);
    EvaluatedSnoc(stream + [a], b);
    assert stream + [a] + [b] == stream + [a, b];
    assert RunningUnknown(stream + [a, b], n);
    SilentOnceKnownIff(stream + [a, b]);
  }

  // ---------- the tracker on its own ----------

  /** What the tracker is after it has been given every snapshot of a stream. */
  function Tracked(setup: Setup, stream: seq<Snapshot>): PhaseState {
    if stream == [] then NewSys().phase
    else PhaseSpec(setup, Tracked(setup, stream[..|stream| - 1]), stream[|stream| - 1]).0
  }

  /** Before the k-th snapshot there was a pause, and since then nothing confirmed a running state. */
  ghost predicate OnHold(stream: seq<Snapshot>, k: nat)
    requires k <= |stream|
  {
    exists j :: 0 <= j < k && stream[j].sim.Paused? && forall r :: j < r < k ==> !stream[r].sim.Running?
  }

  /** The tracker's own rule: running, or unknown and not on hold. */
  ghost predicate TakenAt(stream: seq<Snapshot>, k: nat)
    requires k < |stream|
  {
    stream[k].sim.Running? || (stream[k].sim.UnknownState? && !OnHold(stream, k))
  }

  ghost function Taken(stream: seq<Snapshot>): seq<Snapshot> {
    if stream == [] then []
    else
      var k := |stream| - 1;
      Taken(stream[..k]) + if TakenAt(stream, k) then [stream[k]] else []
  }

  lemma HoldStep(stream: seq<Snapshot>, snap: Snapshot)
    ensures OnHold(stream + [snap], |stream|) <==> OnHold(stream, |stream|)
    ensures OnHold(stream + [snap], |stream| + 1) <==>
            snap.sim.Paused? || (snap.sim.UnknownState? && OnHold(stream, |stream|))
  {
    var n, all := |stream|, stream + [snap];
    if OnHold(stream, n) {
      var j :| 0 <= j < n && stream[j].sim.Paused? && forall r :: j < r < n ==> !stream[r].sim.Running?;
      assert all[j].sim.Paused? && forall r :: j < r < n ==> all[r] == stream[r];
    }
    if OnHold(all, n) {
      var j :| 0 <= j < n && all[j].sim.Paused? && forall r :: j < r < n ==> !all[r].sim.Running?;
      assert stream[j].sim.Paused? && forall r :: j < r < n ==> all[r] == stream[r];
    }
    if snap.sim.Paused? { assert all[n].sim.Paused?; }
    if OnHold(all, n + 1) {
      var j :| 0 <= j < n + 1 && all[j].sim.Paused? && forall r :: j < r < n + 1 ==> !all[r].sim.Running?;
      if j < n { assert all[n] == snap && !snap.sim.Running?; }
    }
  }

  /** Given any stream itself, the tracker does hold: it feeds the engine just what is running, or unknown while no
      pause is unresolved, and it knows whether one is. */
  lemma {:induction false} TrackerHolds(setup: Setup, stream: seq<Snapshot>)
    ensures Tracked(setup, stream).seen == Taken(stream)
    ensures Tracked(setup, stream).paused <==> OnHold(stream, |stream|)
    ensures Tracked(setup, stream).last == if Taken(stream) == [] then PREFLIGHT else setup.assess(Taken(stream)).phase
    decreases |stream|
  {
    if stream != [] {
      var k := |stream| - 1;
      TrackerHolds(setup, stream[..k]);
      TrackerStep(setup, Tracked(setup, stream[..k]), stream[..k], stream[k]);
      assert stream == stream[..k] + [stream[k]];
    }
  }

  lemma TrackerStep(setup: Setup, p: PhaseState, stream: seq<Snapshot>, snap: Snapshot)
    requires p.seen == Taken(stream) && (p.paused <==> OnHold(stream, |stream|))
    requires p.last == if Taken(stream) == [] then PREFLIGHT else setup.assess(Taken(stream)).phase
    ensures var q, all := PhaseSpec(setup, p, snap).0, stream + [snap];
            && q.seen == Taken(all) && (q.paused <==> OnHold(all, |all|))
            && q.last == if Taken(all) == [] then PREFLIGHT else setup.assess(Taken(all)).phase
  {
    TakenStep(stream, snap);
  }

  lemma TakenStep(stream: seq<Snapshot>, snap: Snapshot)
    ensures var n, all := |stream|, stream + [snap];
            && (OnHold(all, n + 1) <==> snap.sim.Paused? || (snap.sim.UnknownState? && OnHold(stream, n)))
            && Taken(all) == if snap.sim.Running? || (snap.sim.UnknownState? && !OnHold(stream, n))
                             then Taken(stream) + [snap] else Taken(stream)
  {
    HoldStep(stream, snap);
    assert (stream + [snap])[..|stream|] == stream;
    assert Taken(stream) + [] == Taken(stream);
  }

  /** And it answers with one event exactly if that changes the phase: from the phase before to the one now assessed. */
  lemma TrackerAnswers(setup: Setup, stream: seq<Snapshot>, snap: Snapshot)
    ensures var before, after := Tracked(setup, stream).last, Tracked(setup, stream + [snap]).last;
            var a := setup.assess(Taken(stream + [snap]));
            PhaseSpec(setup, Tracked(setup, stream), snap).1 ==
            if before == after then []
            else [PhaseChange(PLACEHOLDER, snap.ms, before, after, a.confidence, a.evidence)]
  {
    var all := stream + [snap];
    assert all[..|stream|] == stream;
    TrackerHolds(setup, stream);
    TrackerHolds(setup, all);
    TakenStep(stream, snap);
  }
}
