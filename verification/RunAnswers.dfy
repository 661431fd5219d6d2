/** What the answers of the calls mean: the exchanges each of them stands for, and the errors of the adapter and the
    sink that each of them quotes. */
module RunAnswers {
  import opened Actions
  import opened History
  import opened Executor
  import opened Flow
  import opened RuntimeModel
  import RunOrder
  import RuntimeFrame

  // ---------- why a runtime is poisoned ----------

  /** Exactly then was the last exchange a failed append, and this was the sink's error. */
  ghost predicate PoisonKnown(s: Sys) {
    match s.poisoned
    case None => !(s.history.After? && s.history.last.AppendFailed?)
    case Some(error) => s.history.After? && s.history.last.AppendFailed? && s.history.last.error == error
  }

  lemma {:induction false} AppendAllPoisons(setup: Setup, s: Sys, events: seq<TraceEvent>)
    requires PoisonKnown(s)
    ensures PoisonKnown(AppendAll(setup, s, events))
    decreases |events|
  {
    if events != [] && s.poisoned.None? { AppendAllPoisons(setup, AppendOne(setup, s, events[0]), events[1..]); }
  }

  /** Nothing but appends can be the last exchange and a failed append. */
  lemma {:induction false} PassFails(rules: Rules, q: Queue, snap: Snapshot, h: History)
    requires AllInFlight(q) && !(h.After? && h.last.AppendFailed?)
    ensures var h' := Pass(rules, q, snap, h).history; !(h'.After? && h'.last.AppendFailed?)
  {
    if q != [] { PassFails(rules, q[1..], snap, Stage(rules, q[0], snap, h).history); }
  }

  lemma {:induction false} PassesFail(rules: Rules, q: Queue, snap: Snapshot, h: History)
    requires AllInFlight(q) && !(h.After? && h.last.AppendFailed?)
    ensures var h' := Passes(rules, q, snap, h).history; !(h'.After? && h'.last.AppendFailed?)
    decreases Rank(q)
  {
    var t := Pass(rules, q, snap, h);
    PassFails(rules, q, snap, h);
    if t.progressed && t.kept != [] {
      PassLowersRank(rules, q, snap, h);
      PassesFail(rules, t.kept, snap, t.history);
    }
  }

  lemma {:induction false} SnapshotsFail(setup: Setup, m: Mid, snaps: seq<Snapshot>, source: EventSource)
    requires Ready(m.sys) && m.sys.poisoned.None? && PoisonKnown(m.sys)
    ensures var n := SnapshotsSpec(setup, m, snaps, source).sys; n.poisoned.None? && PoisonKnown(n)
    decreases |snaps|
  {
    if snaps != [] {
      var k := |snaps| - 1;
      SnapshotsFail(setup, m, snaps[..k], source);
      var a := ObserveSpec(setup, SnapshotsSpec(setup, m, snaps[..k], source), snaps[k], source);
      PassesFail(setup.Rules(), a.sys.exec.pending, snaps[k], a.sys.history);
      RuntimeFrame.FlowFramed(ActionSpec(setup, a, snaps[k]), snaps[k]);
    }
  }

  lemma TickPoisons(setup: Setup, s: Sys, snaps: seq<Snapshot>, source: EventSource)
    requires Ready(s) && s.poisoned.None? && PoisonKnown(s)
    ensures PoisonKnown(TickBody(setup, s, snaps, source))
  {
    var m := SnapshotsSpec(setup, Mid(s, []), snaps, source);
    SnapshotsFail(setup, Mid(s, []), snaps, source);
    AppendAllPoisons(setup, m.sys, m.buffer);
  }

  lemma CallPoisons(setup: Setup, s: Sys, call: Call)
    requires Ready(s) && PoisonKnown(s)
    ensures PoisonKnown(Do(setup, s, call))
  {
    if call.TickCall? && s.poisoned.None? && setup.env.connected(s.history) {
      var answer := setup.env.poll(s.history);
      if answer.Ok? { TickPoisons(setup, s.(history := After(s.history, Polled(answer))), answer.value, call.source); }
    }
  }

  /** In every run the runtime is poisoned exactly if the last exchange is an append that failed, and with its error. */
  lemma {:induction false} PoisonInEveryRun(setup: Setup, calls: seq<Call>)
    ensures PoisonKnown(Run(setup, calls))
    decreases |calls|
  {
    if calls != [] {
      var k := |calls| - 1;
      PoisonInEveryRun(setup, calls[..k]);
      CallPoisons(setup, Run(setup, calls[..k]), calls[k]);
    }
  }

  // ---------- the exchanges behind an answer ----------

  /** The event went to the sink under the next number, and the sink took it. */
  ghost predicate Took(s: Sys, h: History, t: Sys, event: TraceEvent) {
    t.history == After(h, Appended(event.WithSeq(s.nextSeq))) && t.nextSeq == s.nextSeq + 1 && t.poisoned.None?
  }

  /** Or it failed with this error. */
  ghost predicate Lost(s: Sys, h: History, t: Sys, event: TraceEvent, error: string) {
    t.history == After(h, AppendFailed(event.WithSeq(s.nextSeq), error)) && t.poisoned == Some(error)
  }

  /** The runtime was poisoned by this error before, and the call did nothing. */
  ghost predicate Refused(s: Sys, t: Sys, error: string) {
    s.poisoned == Some(error) && t == s
  }

  ghost predicate StartMeans(setup: Setup, s: Sys, t: Sys, answer: Result<(), RuntimeError>) {
    match answer
    case Ok(_) => s.poisoned.None? && Took(s, After(s.history, Connected(None)), t, SessionStart(0, setup.sessionId))
    case Err(Poisoned(error)) => Refused(s, t, error)
    case Err(AdapterError(error)) => s.poisoned.None? && t == s.(history := After(s.history, Connected(Some(error))))
    case Err(TraceFailure(error)) =>
      s.poisoned.None? && Lost(s, After(s.history, Connected(None)), t, SessionStart(0, setup.sessionId), error)
  }

  ghost predicate StartFlowMeans(s: Sys, t: Sys, def: FlowDef, answer: Result<(), RuntimeError>) {
    match answer
    case Ok(_) => s.poisoned.None? && s.flow.None? && t == s.(flow := Some(NewFlow(def)))
    case Err(Poisoned(error)) =>
      t == s &&
      if s.poisoned.Some? then s.poisoned == Some(error) else s.flow.Some? && error == "a flow is already active"
    case Err(_) => false
  }

  ghost predicate SubmitMeans(
      s: Sys, t: Sys, action: CockpitAction, actor: Actor, at: nat, answer: Result<ActionId, RuntimeError>) {
    match answer
    case Ok(id) =>
      && s.poisoned.None? && id == s.exec.nextId && Took(s, s.history, t, ActionRequested(0, at, action, actor, id))
      && t.exec.nextId == id + 1 && t.exec.completed == s.exec.completed
      && t.exec.staged == [] && |t.exec.pending| == |s.exec.pending| + 1
      && t.exec.pending[..|s.exec.pending|] == s.exec.pending
      && var r := t.exec.pending[|s.exec.pending|];
         r.id == id && r.action == action && r.actor == actor && r.at == at && r.status.Requested? && r.ticks == 0
    case Err(Poisoned(error)) => Refused(s, t, error)
    case Err(TraceFailure(error)) =>
      && s.poisoned.None? && Lost(s, s.history, t, ActionRequested(0, at, action, actor, s.exec.nextId), error)
      && t.exec.pending == s.exec.pending
    case Err(_) => false
  }

  ghost predicate TickMeans(setup: Setup, s: Sys, t: Sys, answer: Result<TickStats, RuntimeError>) {
    match answer
    case Ok(stats) =>
      && s.poisoned.None? && setup.env.connected(s.history) && t.poisoned.None?
      && (exists snaps :: Past(After(s.history, Polled(Ok(snaps))), t.history) && stats.snapshots == |snaps|)
      && Trace(s.history) <= Trace(t.history) && stats.events == |Trace(t.history)| - |Trace(s.history)|
    case Err(Poisoned(error)) => Refused(s, t, error)
    case Err(AdapterError(error)) =>
      && s.poisoned.None?
      && if setup.env.connected(s.history) then t == s.(history := After(s.history, Polled(Err(error))))
         else t == s && error == "adapter is not connected"
    case Err(TraceFailure(error)) =>
      && s.poisoned.None? && setup.env.connected(s.history) && t.poisoned == Some(error)
      && exists snaps :: Past(After(s.history, Polled(Ok(snaps))), t.history)
  }

  ghost predicate FinishMeans(s: Sys, t: Sys, answer: Result<(), RuntimeError>) {
    match answer
    case Err(Poisoned(error)) => Refused(s, t, error)
    case Err(AdapterError(_)) => false
    case _ =>
      && s.poisoned.None?
      && if t.poisoned.Some? then answer.Err? && Lost(s, s.history, t, SessionEnd(0), answer.error.detail)
         else t.history == After(After(s.history, Appended(SessionEnd(s.nextSeq))),
                                 Closed(if answer.Ok? then None else Some(answer.error.detail)))
  }

  ghost predicate AnswerTold(setup: Setup, s: Sys, t: Sys, call: Call)
    requires Ready(s)
  {
    match call
    case StartCall => StartMeans(setup, s, t, StartAnswer(setup, s))
    case StartFlowCall(def) => StartFlowMeans(s, t, def, StartFlowAnswer(s))
    case SubmitCall(action, actor, at) =>
      SubmitMeans(s, t, action, actor, at, SubmitAnswer(setup, s, action, actor, at))
    case TickCall(source) => TickMeans(setup, s, t, TickAnswer(setup, s, source))
    case TakeCall => t == s.(exec := Exec(s.exec.staged, s.exec.pending, [], s.exec.nextId))
    case FinishCall => FinishMeans(s, t, FinishAnswer(setup, s))
  }

  // ---------- every call of every run ----------

  /** Between calls nothing is staged: each call that stages also commits. */
  lemma {:induction false} NothingStaged(setup: Setup, calls: seq<Call>)
    ensures Run(setup, calls).poisoned.None? ==> Run(setup, calls).exec.staged == []
    decreases |calls|
  {
    if calls != [] {
      var k := |calls| - 1;
      NothingStaged(setup, calls[..k]);
      CallStagesNothing(setup, Run(setup, calls[..k]), calls[k]);
    }
  }

  lemma CallStagesNothing(setup: Setup, s: Sys, call: Call)
    requires Ready(s) && (s.poisoned.None? ==> s.exec.staged == [])
    ensures Do(setup, s, call).poisoned.None? ==> Do(setup, s, call).exec.staged == []
  {
    if call.TickCall? && s.poisoned.None? && setup.env.connected(s.history) {
      var answer := setup.env.poll(s.history);
      if answer.Ok? {
        TickStagesNothing(setup, s.(history := After(s.history, Polled(answer))), answer.value, call.source);
      }
    }
  }

  lemma TickStagesNothing(setup: Setup, s: Sys, snaps: seq<Snapshot>, source: EventSource)
    requires Ready(s) && s.poisoned.None?
    ensures var t := TickBody(setup, s, snaps, source); t.poisoned.None? ==> t.exec.staged == []
  {
  }

  lemma StartAnswered(setup: Setup, s: Sys)
    requires Ready(s)
    ensures StartMeans(setup, s, StartSpec(setup, s), StartAnswer(setup, s))
  {
  }

  lemma StartFlowAnswered(s: Sys, def: FlowDef)
    requires Ready(s)
    ensures StartFlowMeans(s, StartFlowSpec(s, def), def, StartFlowAnswer(s))
  {
  }

  lemma SubmitAnswered(setup: Setup, s: Sys, action: CockpitAction, actor: Actor, at: nat)
    requires Ready(s) && (s.poisoned.None? ==> s.exec.staged == [])
    ensures SubmitMeans(s, SubmitActionSpec(setup, s, action, actor, at), action, actor, at,
                        SubmitAnswer(setup, s, action, actor, at))
  {
    if s.exec.staged == [] {
      var r := NewRecord(s.exec.nextId, action, actor, at);
      assert s.exec.staged + [r] == [r];
      assert (s.exec.pending + [r])[..|s.exec.pending|] == s.exec.pending;
    }
  }

  lemma FinishAnswered(setup: Setup, s: Sys)
    requires Ready(s)
    ensures FinishMeans(s, FinishSpec(setup, s), FinishAnswer(setup, s))
  {
  }

  lemma TickAnswered(setup: Setup, calls: seq<Call>, source: EventSource)
    ensures var s := Run(setup, calls);
            TickMeans(setup, s, TickSpec(setup, s, source), TickAnswer(setup, s, source))
  {
    var s := Run(setup, calls);
    RunOrder.RunNumbered(setup, calls);
    if s.poisoned.None? && setup.env.connected(s.history) && setup.env.poll(s.history).Ok? {
      var snaps := setup.env.poll(s.history).value;
      PolledAnswered(setup, s, s.(history := After(s.history, Polled(Ok(snaps)))), snaps, source);
    } else {
      IdleTickAnswered(setup, s, source);
    }
  }

  lemma IdleTickAnswered(setup: Setup, s: Sys, source: EventSource)
    requires Ready(s)
    requires s.poisoned.Some? || !setup.env.connected(s.history) || setup.env.poll(s.history).Err?
    ensures TickMeans(setup, s, TickSpec(setup, s, source), TickAnswer(setup, s, source))
  {
  }

  lemma PolledAnswered(setup: Setup, s: Sys, polled: Sys, snaps: seq<Snapshot>, source: EventSource)
    requires Ready(s) && s.poisoned.None? && setup.env.connected(s.history) && setup.env.poll(s.history) == Ok(snaps)
    requires polled == s.(history := After(s.history, Polled(Ok(snaps))))
    requires RunOrder.Numbered(Trace(s.history), s.nextSeq)
    ensures TickMeans(setup, s, TickSpec(setup, s, source), TickAnswer(setup, s, source))
  {
    var t := TickBody(setup, polled, snaps, source);
    RunOrder.TickNumbered(setup, polled, snaps, source);
    assert Past(After(s.history, Polled(Ok(snaps))), t.history);
    assert TickSpec(setup, s, source) == t;
  }

  /** In every run the answer of each call tells what the call did: which event was appended under which number and with
      what content, which error of the adapter or of the sink there was, how many snapshots were polled and how far the
      trace grew. A call on a poisoned runtime does nothing and quotes the error that poisoned it. */
  lemma AnswersInEveryRun(setup: Setup, calls: seq<Call>, call: Call)
    ensures AnswerTold(setup, Run(setup, calls), Run(setup, calls + [call]), call)
  {
    var s := Run(setup, calls);
    assert (calls + [call])[..|calls|] == calls;
    assert Run(setup, calls + [call]) == Do(setup, s, call);
    match call
    case StartCall => StartAnswered(setup, s);
    case StartFlowCall(def) => StartFlowAnswered(s, def);
    case SubmitCall(action, actor, at) =>
      NothingStaged(setup, calls);
      SubmitAnswered(setup, s, action, actor, at);
    case TickCall(source) => TickAnswered(setup, calls, source);
    case TakeCall =>
    case FinishCall => FinishAnswered(setup, s);
  }
}
