/** One concrete run in which a flow action is verified and the flow never hears of it. */
module RunLost {
  import opened Actions
  import opened History
  import opened Executor
  import opened Flow
  import opened RuntimeModel
  import opened RunFlow
  import opened RunStall
  import opened RunExample
  import opened RuntimeFrame
  import RunPauses

  function At(ms: nat): Snapshot {
    Snapshot(ms, Running, map[], map[])
  }

  const SCRIPT: seq<Snapshot> := [At(0), At(1), At(2)]

  /** One snapshot a poll while the script lasts, then none. */
  function Replayed(h: History): seq<Snapshot> {
    var n := |RunPauses.Stream(h)|;
    if n < |SCRIPT| then [SCRIPT[n]] else []
  }

  const ALWAYS: Verifier := (a, s) => Some(true)

  /** A replayed script, a sink that never fails, and a beacon that every later snapshot confirms. */
  const REPLAY: Setup := Setup(
    Env(h => None, h => true, h => Ok(Replayed(h)), (h, a) => Supported, (h, a) => None, (h, e) => None, h => None),
    [CatalogEntry(BeaconKind, [], ALWAYS, [])], 30, 0, (a, b) => [], seen => Assessment(PREFLIGHT, "", ""))

  const TICK: Call := TickCall(Simulator)

  const UP_TO_VERIFIED: seq<Call> := [StartFlowCall(DEF), TICK, TICK, TICK]

  const SENT: ActionRecord := ASKED.(status := Dispatched, verify := Some(ALWAYS), ticks := 1, dispatchedMs := 1)

  lemma PassOfOne(r: ActionRecord, snap: Snapshot, h: History)
    requires InFlight(r)
    ensures Pass(REPLAY.Rules(), [r], snap, h) ==
            Join(Stage(REPLAY.Rules(), r, snap, h), Idle(Stage(REPLAY.Rules(), r, snap, h).history))
  {
    assert [r][1..] == [];
  }

  /** The second snapshot: validated, written, not yet confirmed. */
  lemma SecondAdvance(h: History)
    ensures AdvanceSpec(REPLAY.Rules(), Exec([], [ASKED], [], 1), At(1), h).0 == Exec([], [SENT], [], 1)
  {
    var rules := REPLAY.Rules();
    PassOfOne(ASKED, At(1), h);
    var a := Pass(rules, [ASKED], At(1), h);
    var v := ASKED.(status := Validated, verify := Some(ALWAYS));
    assert a.kept == [v] && a.progressed && a.done == [];
    PassOfOne(v, At(1), a.history);
    var b := Pass(rules, [v], At(1), a.history);
    var d := SENT.(ticks := 0);
    assert b.kept == [d] && b.progressed && b.done == [];
    PassOfOne(d, At(1), b.history);
    var c := Pass(rules, [d], At(1), b.history);
    assert c.kept == [SENT] && !c.progressed && c.done == [];
    PassLowersRank(rules, [ASKED], At(1), h);
    PassLowersRank(rules, [v], At(1), a.history);
    assert Passes(rules, [d], At(1), b.history) == c;
    assert Passes(rules, [v], At(1), a.history) == Chain(b, c);
    assert Passes(rules, [ASKED], At(1), h) == Chain(a, Chain(b, c));
  }

  /** The third: confirmed. */
  lemma ThirdAdvance(h: History)
    ensures AdvanceSpec(REPLAY.Rules(), Exec([], [SENT], [], 1), At(2), h).0 == Exec([], [], [Outcome(0, Verified)], 1)
  {
    PassOfOne(SENT, At(2), h);
    var t := Pass(REPLAY.Rules(), [SENT], At(2), h);
    assert t.kept == [] && t.done == [Outcome(0, Verified)];
  }

  /** A tick that finds the step waiting and no outcome to report only advances the action. */
  lemma WaitingTick(s: Sys, snap: Snapshot, x: Exec)
    requires Ready(s) && s.poisoned.None? && s.outcomes == [] && s.flow == Some(Waiting())
    requires AdvanceSpec(REPLAY.Rules(), s.exec, snap, s.history).0 == x && x.staged == []
    ensures var t := TickBody(REPLAY, s, [snap], Simulator);
            && t.poisoned.None? && t.flow == Some(Waiting())
            && t.exec == x.(completed := []) && t.outcomes == x.completed
  {
    var b := ActionSpec(REPLAY, ObserveSpec(REPLAY, Mid(s, []), snap, Simulator), snap);
    assert b.sys.exec == x;
    StillWaiting(snap);
    var n := SnapshotSpec(REPLAY, Mid(s, []), snap, Simulator);
    assert FlowSpec(b, snap).sys == b.sys;
    OneSnapshot(REPLAY, Mid(s, []), snap);
    NeverFails(REPLAY, n.sys, n.buffer);
    assert x.pending + [] == x.pending;
  }

  /** The flow waits, with so many snapshots polled. */
  ghost predicate Standing(s: Sys, polled: nat, x: Exec, outcomes: seq<Outcome>)
    requires Ready(s)
  {
    && s.poisoned.None? && |RunPauses.Stream(s.history)| == polled
    && s.flow == Some(Waiting()) && s.exec == x && s.outcomes == outcomes
  }

  /** A tick of the run plays the next snapshot of the script. */
  lemma PlaysNext(s: Sys, n: nat)
    requires Ready(s) && s.poisoned.None? && |RunPauses.Stream(s.history)| == n && n < |SCRIPT|
    ensures var polled := s.(history := After(s.history, Polled(Ok([SCRIPT[n]]))));
            && Do(REPLAY, s, TICK) == TickBody(REPLAY, polled, [SCRIPT[n]], Simulator)
            && |RunPauses.Stream(Do(REPLAY, s, TICK).history)| == n + 1
  {
    var polled := s.(history := After(s.history, Polled(Ok([SCRIPT[n]]))));
    RunPauses.TickPolls(REPLAY, polled, [SCRIPT[n]], Simulator);
  }

  lemma WaitingCall(s: Sys, n: nat, x: Exec)
    requires Ready(s) && Standing(s, n, s.exec, []) && n < |SCRIPT| && x.staged == []
    requires forall h :: AdvanceSpec(REPLAY.Rules(), s.exec, SCRIPT[n], h).0 == x
    ensures Standing(Do(REPLAY, s, TICK), n + 1, x.(completed := []), x.completed)
  {
    PlaysNext(s, n);
    WaitingTick(s.(history := After(s.history, Polled(Ok([SCRIPT[n]])))), SCRIPT[n], x);
  }

  lemma FirstCall(s: Sys)
    requires s == StartFlowSpec(NewSys(), DEF)
    ensures Standing(Do(REPLAY, s, TICK), 1, Exec([], [ASKED], [], 1), [])
  {
    PlaysNext(s, 0);
    FirstTick(REPLAY, s.(history := After(s.history, Polled(Ok([SCRIPT[0]])))));
  }

  lemma FirstRun()
    ensures Standing(Run(REPLAY, [StartFlowCall(DEF), TICK]), 1, Exec([], [ASKED], [], 1), [])
  {
    var start := StartFlowCall(DEF);
    RunSnoc(REPLAY, [], start);
    RunSnoc(REPLAY, [start], TICK);
    assert [] + [start] == [start] && [start] + [TICK] == [start, TICK];
    FirstCall(Run(REPLAY, [start]));
  }

  lemma SecondRun()
    ensures Standing(Run(REPLAY, [StartFlowCall(DEF), TICK, TICK]), 2, Exec([], [SENT], [], 1), [])
  {
    var calls := [StartFlowCall(DEF), TICK];
    FirstRun();
    RunSnoc(REPLAY, calls, TICK);
    assert calls + [TICK] == [StartFlowCall(DEF), TICK, TICK];
    forall h ensures AdvanceSpec(REPLAY.Rules(), Exec([], [ASKED], [], 1), SCRIPT[1], h).0 == Exec([], [SENT], [], 1) {
      SecondAdvance(h);
    }
    WaitingCall(Run(REPLAY, calls), 1, Exec([], [SENT], [], 1));
  }

  /** After three ticks the action is verified and its outcome about to be reported. */
  lemma VerifiedRun()
    ensures Standing(Run(REPLAY, UP_TO_VERIFIED), 3, Exec([], [], [], 1), [Outcome(0, Verified)])
  {
    var calls := [StartFlowCall(DEF), TICK, TICK];
    var x := Exec([], [], [Outcome(0, Verified)], 1);
    SecondRun();
    RunSnoc(REPLAY, calls, TICK);
    assert calls + [TICK] == UP_TO_VERIFIED;
    forall h ensures AdvanceSpec(REPLAY.Rules(), Exec([], [SENT], [], 1), SCRIPT[2], h).0 == x {
      ThirdAdvance(h);
    }
    WaitingCall(Run(REPLAY, calls), 2, x);
  }

  /** The action was verified, the script is at its end, the next tick succeeds with no snapshot: the outcome is lost.
      In no continuation does the step stop waiting or the flow complete, although its only action was verified. */
  lemma LostOutcomeRun(more: seq<Call>)
    requires UniqueFlows(more)
    ensures var s := Run(REPLAY, UP_TO_VERIFIED);
            && s.poisoned.None? && WaitsFor(s, DEF, 0, 0) && Outcome(0, Verified) in s.outcomes
            && exists e :: e in Trace(s.history) && e.ActionVerified? && e.id == 0
    ensures Stranded(Run(REPLAY, UP_TO_VERIFIED + [TICK]), DEF, 0, 0)
    ensures var t := Run(REPLAY, UP_TO_VERIFIED + [TICK] + more);
            WaitsFor(t, DEF, 0, 0) && forall e :: e in Trace(t.history) ==> !e.FlowCompleted?
  {
    VerifiedRun();
    var s := Run(REPLAY, UP_TO_VERIFIED);
    RunKeepsLink(REPLAY, UP_TO_VERIFIED);
    assert Told(Mid(s, [])) == Trace(s.history);
    assert ProvenBefore(Trace(s.history), |Trace(s.history)|, 0);
    OutcomeDelivery(REPLAY, UP_TO_VERIFIED, Simulator, DEF, 0, 0);
    StrandedForever(REPLAY, UP_TO_VERIFIED + [TICK], more, DEF, 0, 0);
  }
}
