/** The verification deadline in every run: how long an action may wait, counted in the snapshots that were polled. */
module RunDeadline {
  import opened Actions
  import opened History
  import opened Executor
  import opened Lifecycle
  import opened ExecutorLaws
  import opened DeadlineLaws
  import opened Flow
  import opened RuntimeModel
  import opened RuntimeLaws
  import RuntimeFrame
  import RunPauses

  /** What these snapshots have done to a record that had used so many ticks before them: each unpaused one has cost it
      at least one tick, and its count is still below the deadline. */
  predicate Counted(deadline: nat, used: nat, r: ActionRecord, more: seq<Snapshot>) {
    && used + Unpaused(more) <= TicksUsed(r)
    && (Unpaused(more) > 0 ==> TicksUsed(r) < deadline)
    && (more != [] ==> r.status.Dispatched?)
  }

  /** The record of an id still in the queue comes from one that was there, and the snapshots are counted for it. */
  ghost predicate CountedOn(deadline: nat, before: Queue, after: Queue, id: ActionId, more: seq<Snapshot>) {
    Find(after, id).Some? ==>
      && Find(before, id).Some?
      && forall used: nat, past: seq<Snapshot> ::
           Counted(deadline, used, Find(before, id).value, past) ==>
             Counted(deadline, used, Find(after, id).value, past + more)
  }

  lemma UnpausedSnoc(past: seq<Snapshot>, snap: Snapshot)
    ensures Unpaused(past + [snap]) == Unpaused(past) + if snap.sim.Paused? then 0 else 1
  {
    assert (past + [snap])[..|past|] == past;
  }

  lemma AdvanceCounts(rules: Rules, q: Queue, snap: Snapshot, h: History, hi: nat, id: ActionId)
    requires AllInFlight(q) && Ascending(q, 0, hi)
    ensures CountedOn(rules.deadline, q, Passes(rules, q, snap, h).kept, id, [snap])
  {
    var kept := Passes(rules, q, snap, h).kept;
    BudgetAfterAdvance(rules, q, snap, h, 0, hi, id);
    if Find(kept, id).Some? {
      forall used: nat, past: seq<Snapshot> | Counted(rules.deadline, used, Find(q, id).value, past)
        ensures Counted(rules.deadline, used, Find(kept, id).value, past + [snap])
      {
        UnpausedSnoc(past, snap);
      }
    }
  }

  lemma SnapshotCounts(setup: Setup, m: Mid, snap: Snapshot, source: EventSource, id: ActionId)
    requires Ready(m.sys) && MidLaw(setup, m)
    ensures var n := SnapshotSpec(setup, m, snap, source).sys;
            CountedOn(setup.deadline, m.sys.exec.pending, n.exec.pending, id, [snap])
  {
    var a := ObserveSpec(setup, m, snap, source);
    AdvanceCounts(setup.Rules(), a.sys.exec.pending, snap, a.sys.history, Bar(m.sys.exec), id);
    RuntimeFrame.FlowFramed(ActionSpec(setup, a, snap), snap);
  }

  lemma CountedTwice(deadline: nat, a: Queue, b: Queue, c: Queue, id: ActionId, x: seq<Snapshot>, y: seq<Snapshot>)
    requires CountedOn(deadline, a, b, id, x) && CountedOn(deadline, b, c, id, y)
    ensures CountedOn(deadline, a, c, id, x + y)
  {
    if Find(c, id).Some? {
      forall used: nat, past: seq<Snapshot> | Counted(deadline, used, Find(a, id).value, past)
        ensures Counted(deadline, used, Find(c, id).value, past + (x + y))
      {
        assert Counted(deadline, used, Find(b, id).value, past + x);
        assert past + x + y == past + (x + y);
      }
    }
  }

  lemma CountedByNone(deadline: nat, a: Queue, b: Queue, id: ActionId)
    requires Find(b, id).Some? ==> Find(a, id) == Find(b, id)
    ensures CountedOn(deadline, a, b, id, [])
  {
    if Find(b, id).Some? {
      forall used: nat, past: seq<Snapshot> | Counted(deadline, used, Find(a, id).value, past)
        ensures Counted(deadline, used, Find(b, id).value, past + [])
      {
        assert past + [] == past;
      }
    }
  }

  lemma LastOfPoll<T>(snaps: seq<T>)
    requires snaps != []
    ensures snaps[..|snaps| - 1] + [snaps[|snaps| - 1]] == snaps
  {
  }

  lemma {:induction false} SnapshotsCount(setup: Setup, m: Mid, snaps: seq<Snapshot>, source: EventSource, id: ActionId)
    requires Ready(m.sys) && MidLaw(setup, m)
    ensures var n := SnapshotsSpec(setup, m, snaps, source).sys;
            CountedOn(setup.deadline, m.sys.exec.pending, n.exec.pending, id, snaps)
    decreases |snaps|
  {
    var q := m.sys.exec.pending;
    if snaps == [] {
      CountedByNone(setup.deadline, q, q, id);
    } else {
      var k := |snaps| - 1;
      var b := SnapshotsSpec(setup, m, snaps[..k], source);
      var n := SnapshotSpec(setup, b, snaps[k], source);
      SnapshotsCount(setup, m, snaps[..k], source, id);
      SnapshotsLaw(setup, m, snaps[..k], source);
      SnapshotCounts(setup, b, snaps[k], source, id);
      CountedTwice(setup.deadline, q, b.sys.exec.pending, n.sys.exec.pending, id, snaps[..k], [snaps[k]]);
      LastOfPoll(snaps);
    }
  }

  // ---------- ids are handed out once ----------

  /** Whatever is staged has an id that was new at the bar. */
  ghost predicate StagedFrom(x: Exec, bar: nat) {
    bar <= x.nextId && forall r :: r in x.staged ==> bar <= r.id
  }

  lemma {:induction false} StagingFrom(m: Mid, requests: seq<StepRequest>, ts: nat, bar: nat)
    requires Ready(m.sys) && m.sys.flow.Some? && StagedFrom(m.sys.exec, bar)
    ensures StagedFrom(StageRequests(m, requests, ts).sys.exec, bar)
    decreases |requests|
  {
    if requests != [] { StagingFrom(m, requests[..|requests| - 1], ts, bar); }
  }

  lemma {:induction false} SnapshotsStage(setup: Setup, m: Mid, snaps: seq<Snapshot>, source: EventSource, bar: nat)
    requires Ready(m.sys) && StagedFrom(m.sys.exec, bar)
    ensures StagedFrom(SnapshotsSpec(setup, m, snaps, source).sys.exec, bar)
    decreases |snaps|
  {
    if snaps != [] {
      var k := |snaps| - 1;
      SnapshotsStage(setup, m, snaps[..k], source, bar);
      var b := SnapshotsSpec(setup, m, snaps[..k], source);
      var a := ActionSpec(setup, ObserveSpec(setup, b, snaps[k], source), snaps[k]);
      if a.sys.flow.Some? { StagingFrom(Processed(a, snaps[k]).0, Processed(a, snaps[k]).1, snaps[k].ms, bar); }
    }
  }

  /** Committing what is staged brings no older id back. */
  lemma CommitAddsNew(x: Exec, bar: nat, id: ActionId)
    requires StagedFrom(x, bar) && id < bar
    ensures Find(x.pending + x.staged, id) == Find(x.pending, id)
  {
    FindConcat(x.pending, x.staged, id);
    FindMember(x.staged, id);
  }

  lemma {:induction false} AppendKeepsQueues(setup: Setup, s: Sys, events: seq<TraceEvent>)
    ensures AppendAll(setup, s, events).exec == s.exec
    decreases |events|
  {
    if events != [] && s.poisoned.None? { AppendKeepsQueues(setup, AppendOne(setup, s, events[0]), events[1..]); }
  }

  // ---------- every call ----------

  lemma TickCounts(setup: Setup, s: Sys, snaps: seq<Snapshot>, source: EventSource, id: ActionId)
    requires Ready(s) && s.poisoned.None? && MidLaw(setup, Mid(s, [])) && s.exec.staged == [] && id < s.exec.nextId
    ensures var t := TickBody(setup, s, snaps, source);
            && CountedOn(setup.deadline, s.exec.pending, t.exec.pending, id, snaps)
            && s.exec.nextId <= t.exec.nextId
  {
    var m := SnapshotsSpec(setup, Mid(s, []), snaps, source);
    SnapshotsCount(setup, Mid(s, []), snaps, source, id);
    SnapshotsStage(setup, Mid(s, []), snaps, source, s.exec.nextId);
    AppendKeepsQueues(setup, m.sys, m.buffer);
    CommitAddsNew(m.sys.exec, s.exec.nextId, id);
  }

  /** Calls other than a tick add at most a request under a new id. */
  lemma OtherCallCounts(setup: Setup, s: Sys, call: Call, id: ActionId)
    requires Ready(s) && RunLaw(setup, s) && (s.poisoned.None? ==> id < s.exec.nextId) && !call.TickCall?
    ensures var t := Do(setup, s, call);
            && CountedOn(setup.deadline, s.exec.pending, t.exec.pending, id, [])
            && s.exec.nextId <= t.exec.nextId
  {
    var t := Do(setup, s, call);
    if call.SubmitCall? && s.poisoned.None? {
      var rec := NewRecord(s.exec.nextId, call.action, call.actor, call.at);
      assert s.exec.staged + [rec] == [rec];
      FindConcat(s.exec.pending, [rec], id);
      assert [rec][1..] == [];
    }
    CountedByNone(setup.deadline, s.exec.pending, t.exec.pending, id);
  }

  /** The snapshots polled since an earlier history. */
  function Since(p: History, h: History): seq<Snapshot> {
    var before, after := RunPauses.Stream(p), RunPauses.Stream(h);
    if before <= after then after[|before|..] else []
  }

  lemma CallCounts(setup: Setup, s: Sys, call: Call, id: ActionId)
    requires Ready(s) && RunLaw(setup, s) && (s.poisoned.None? ==> id < s.exec.nextId)
    ensures var t := Do(setup, s, call);
            && RunPauses.Stream(s.history) <= RunPauses.Stream(t.history)
            && CountedOn(setup.deadline, s.exec.pending, t.exec.pending, id, Since(s.history, t.history))
            && s.exec.nextId <= t.exec.nextId
  {
    var stream := RunPauses.Stream(s.history);
    assert stream[|stream|..] == [];
    if !call.TickCall? {
      RunPauses.OtherCallFeedsNothing(setup, s, call);
      OtherCallCounts(setup, s, call, id);
    } else if s.poisoned.None? && setup.env.connected(s.history) && setup.env.poll(s.history).Ok? {
      var answer := setup.env.poll(s.history);
      var polled := s.(history := After(s.history, Polled(answer)));
      NeutralLaw(setup, s, polled, Polled(answer));
      TickCounts(setup, polled, answer.value, call.source, id);
      RunPauses.TickPolls(setup, polled, answer.value, call.source);
      assert (stream + answer.value)[|stream|..] == answer.value;
    } else {
      CountedByNone(setup.deadline, s.exec.pending, s.exec.pending, id);
    }
  }

  // ---------- every run ----------

  lemma SuffixJoins<T>(a: seq<T>, b: seq<T>, c: seq<T>)
    requires a <= b <= c
    ensures a <= c && b[|a|..] + c[|b|..] == c[|a|..]
  {
    assert b == c[..|b|];
  }

  lemma NothingSince(h: History)
    ensures Since(h, h) == []
  {
  }

  lemma SinceJoins(a: History, b: History, c: History)
    requires RunPauses.Stream(a) <= RunPauses.Stream(b) <= RunPauses.Stream(c)
    ensures RunPauses.Stream(a) <= RunPauses.Stream(c) && Since(a, b) + Since(b, c) == Since(a, c)
  {
    SuffixJoins(RunPauses.Stream(a), RunPauses.Stream(b), RunPauses.Stream(c));
  }

  /** The later state goes on from the earlier one, snapshots counted. */
  ghost predicate GoesOn(setup: Setup, s: Sys, t: Sys, id: ActionId) {
    && RunPauses.Stream(s.history) <= RunPauses.Stream(t.history)
    && CountedOn(setup.deadline, s.exec.pending, t.exec.pending, id, Since(s.history, t.history))
    && s.exec.nextId <= t.exec.nextId && (t.poisoned.None? ==> s.poisoned.None?)
  }

  /** From a moment to a later one, and on over one more call. */
  lemma CountsOn(setup: Setup, s: Sys, b: Sys, call: Call, id: ActionId)
    requires Ready(b) && RunLaw(setup, b) && (b.poisoned.None? ==> id < b.exec.nextId)
    requires GoesOn(setup, s, b, id)
    ensures GoesOn(setup, s, Do(setup, b, call), id)
  {
    var t := Do(setup, b, call);
    CallCounts(setup, b, call, id);
    if b.poisoned.Some? { PoisonStays(setup, b, call); }
    SinceJoins(s.history, b.history, t.history);
    CountedTwice(setup.deadline, s.exec.pending, b.exec.pending, t.exec.pending, id,
                 Since(s.history, b.history), Since(b.history, t.history));
  }

  lemma {:induction false} RunCounts(setup: Setup, calls: seq<Call>, k: nat, s: Sys, id: ActionId)
    requires k <= |calls| && s == Run(setup, calls[..k]) && (s.poisoned.None? ==> id < s.exec.nextId)
    ensures GoesOn(setup, s, Run(setup, calls), id)
    decreases |calls|
  {
    if k == |calls| {
      assert calls[..k] == calls;
      NothingSince(s.history);
      CountedByNone(setup.deadline, s.exec.pending, s.exec.pending, id);
    } else {
      var n := |calls| - 1;
      assert calls[..n][..k] == calls[..k];
      RunCounts(setup, calls[..n], k, s, id);
      RunKeepsLaw(setup, calls[..n]);
      CountsOn(setup, s, Run(setup, calls[..n]), calls[n], id);
    }
  }

  lemma PoisonStays(setup: Setup, s: Sys, call: Call)
    requires Ready(s) && s.poisoned.Some?
    ensures Do(setup, s, call).poisoned.Some?
  {
  }

  lemma PendingIsKnown(setup: Setup, s: Sys, id: ActionId)
    requires RunLaw(setup, s) && s.poisoned.None? && Find(s.exec.pending, id).Some?
    ensures id < s.exec.nextId
  {
    StagedAboveBar(s.exec, id);
  }

  /** No action outstays its deadline, whatever shares the queue with it. From any moment of any run at which it is
      pending, requested or written, to any later moment at which it still is: each unpaused snapshot polled in between
      has used at least one of its ticks, and if there was one, the ticks it had used before and their number together
      are below the deadline. */
  lemma DeadlineInEveryRun(setup: Setup, calls: seq<Call>, k: nat, id: ActionId)
    requires k <= |calls|
    requires Find(Run(setup, calls[..k]).exec.pending, id).Some? && Find(Run(setup, calls).exec.pending, id).Some?
    ensures var s, t := Run(setup, calls[..k]), Run(setup, calls);
            var used, polled := TicksUsed(Find(s.exec.pending, id).value), Since(s.history, t.history);
            && RunPauses.Stream(t.history) == RunPauses.Stream(s.history) + polled
            && used + Unpaused(polled) <= TicksUsed(Find(t.exec.pending, id).value)
            && (Unpaused(polled) > 0 ==> used + Unpaused(polled) < setup.deadline)
  {
    var s, t := Run(setup, calls[..k]), Run(setup, calls);
    var r := Find(s.exec.pending, id).value;
    RunKeepsLaw(setup, calls[..k]);
    if s.poisoned.None? { PendingIsKnown(setup, s, id); }
    RunCounts(setup, calls, k, s, id);
    assert Unpaused([]) == 0;
    assert Counted(setup.deadline, TicksUsed(r), r, []);
    assert [] + Since(s.history, t.history) == Since(s.history, t.history);
  }

  /** So a feed whose time stands still, or that never confirms, times out: once the unpaused snapshots polled since an
      action was pending make up its deadline, its life in the trace is settled. */
  lemma DeadlineSettles(setup: Setup, calls: seq<Call>, k: nat, id: ActionId)
    requires k <= |calls| && Find(Run(setup, calls[..k]).exec.pending, id).Some? && Run(setup, calls).poisoned.None?
    requires var s, t := Run(setup, calls[..k]), Run(setup, calls);
             var polled := Since(s.history, t.history);
             Unpaused(polled) > 0 && TicksUsed(Find(s.exec.pending, id).value) + Unpaused(polled) >= setup.deadline
    ensures Settled(LifeIn(Trace(Run(setup, calls).history), id))
  {
    var s, t := Run(setup, calls[..k]), Run(setup, calls);
    if Find(t.exec.pending, id).Some? { DeadlineInEveryRun(setup, calls, k, id); }
    RunKeepsLaw(setup, calls[..k]);
    if s.poisoned.None? { PendingIsKnown(setup, s, id); }
    RunCounts(setup, calls, k, s, id);
    RunKeepsLaw(setup, calls);
    assert IdLaw(setup, Mid(t, []), id);
  }
}
