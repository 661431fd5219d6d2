/** Order and fail-stop: sequence numbers over a run, and a run with a failing sink against one that never fails. */
module RunOrder {
  import opened Actions
  import opened History
  import opened Executor
  import opened Flow
  import opened RuntimeModel
  import ExecutorLaws
  import FlowLaws
  import RuntimeFrame

  // ---------- sequence numbers ----------

  /** Sequence numbers strictly increase and stay below the next one to be handed out. */
  predicate Numbered(trace: seq<TraceEvent>, bound: nat) {
    && (forall i :: 0 <= i < |trace| ==> trace[i].seqNo < bound)
    && (forall i, j :: 0 <= i < j < |trace| ==> trace[i].seqNo < trace[j].seqNo)
  }

  lemma {:induction false} AppendAllNumbered(setup: Setup, s: Sys, events: seq<TraceEvent>)
    requires Numbered(Trace(s.history), s.nextSeq)
    ensures var t := AppendAll(setup, s, events);
            Numbered(Trace(t.history), t.nextSeq) && Trace(s.history) <= Trace(t.history) && Past(s.history, t.history)
    decreases |events|
  {
    if events != [] && s.poisoned.None? {
      var t := AppendOne(setup, s, events[0]);
      AppendOneNumbered(setup, s, events[0]);
      AppendAllNumbered(setup, t, events[1..]);
      PastTransitive(s.history, t.history, AppendAll(setup, t, events[1..]).history);
    }
  }

  lemma AppendOneNumbered(setup: Setup, s: Sys, event: TraceEvent)
    requires Numbered(Trace(s.history), s.nextSeq)
    ensures var t := AppendOne(setup, s, event);
            Numbered(Trace(t.history), t.nextSeq) && Trace(s.history) <= Trace(t.history) && Past(s.history, t.history)
  {
  }

  lemma {:induction false} AppendAllCounts(setup: Setup, s: Sys, events: seq<TraceEvent>)
    requires s.poisoned.None? && AppendAll(setup, s, events).poisoned.None?
    ensures |Trace(AppendAll(setup, s, events).history)| == |Trace(s.history)| + |events|
    decreases |events|
  {
    if events != [] && AppendOne(setup, s, events[0]).poisoned.None? {
      AppendAllCounts(setup, AppendOne(setup, s, events[0]), events[1..]);
    }
  }

  /** A tick that is not poisoned put every buffered event into the trace. */
  lemma TickCounts(setup: Setup, s: Sys, snaps: seq<Snapshot>, source: EventSource)
    requires Ready(s) && s.poisoned.None? && TickBody(setup, s, snaps, source).poisoned.None?
    ensures |Trace(TickBody(setup, s, snaps, source).history)| ==
            |Trace(s.history)| + |SnapshotsSpec(setup, Mid(s, []), snaps, source).buffer|
  {
    var m := SnapshotsSpec(setup, Mid(s, []), snaps, source);
    RuntimeFrame.SnapshotsFramed(setup, Mid(s, []), snaps, source);
    AppendAllCounts(setup, m.sys, m.buffer);
  }

  lemma TickNumbered(setup: Setup, s: Sys, snaps: seq<Snapshot>, source: EventSource)
    requires Ready(s) && s.poisoned.None? && Numbered(Trace(s.history), s.nextSeq)
    ensures var t := TickBody(setup, s, snaps, source);
            Numbered(Trace(t.history), t.nextSeq) && Trace(s.history) <= Trace(t.history) && Past(s.history, t.history)
  {
    var m := SnapshotsSpec(setup, Mid(s, []), snaps, source);
    RuntimeFrame.SnapshotsFramed(setup, Mid(s, []), snaps, source);
    AppendAllNumbered(setup, m.sys, m.buffer);
    PastTransitive(s.history, m.sys.history, AppendAll(setup, m.sys, m.buffer).history);
  }

  ghost predicate Onward(s: Sys, t: Sys) {
    Numbered(Trace(t.history), t.nextSeq) && Trace(s.history) <= Trace(t.history) && Past(s.history, t.history)
  }

  lemma StartNumbered(setup: Setup, s: Sys)
    requires Numbered(Trace(s.history), s.nextSeq)
    ensures Onward(s, StartSpec(setup, s))
  {
    if s.poisoned.None? {
      var c := s.(history := After(s.history, Connected(setup.env.connect(s.history))));
      AppendOneNumbered(setup, c, SessionStart(PLACEHOLDER, setup.sessionId));
      PastTransitive(s.history, c.history, StartSpec(setup, s).history);
    }
  }

  lemma SubmitNumbered(setup: Setup, s: Sys, action: CockpitAction, actor: Actor, at: nat)
    requires Ready(s) && Numbered(Trace(s.history), s.nextSeq)
    ensures Onward(s, SubmitActionSpec(setup, s, action, actor, at))
  {
    AppendOneNumbered(setup, s.(exec := Executor.SubmitSpec(s.exec, action, actor, at)),
                      ActionRequested(PLACEHOLDER, at, action, actor, s.exec.nextId));
  }

  lemma TickCallNumbered(setup: Setup, s: Sys, source: EventSource)
    requires Ready(s) && Numbered(Trace(s.history), s.nextSeq)
    ensures Onward(s, TickSpec(setup, s, source))
  {
    var answer := setup.env.poll(s.history);
    if s.poisoned.None? && setup.env.connected(s.history) && answer.Ok? {
      var polled := s.(history := After(s.history, Polled(answer)));
      TickNumbered(setup, polled, answer.value, source);
      PastTransitive(s.history, polled.history, TickSpec(setup, s, source).history);
    }
  }

  lemma FinishNumbered(setup: Setup, s: Sys)
    requires Numbered(Trace(s.history), s.nextSeq)
    ensures Onward(s, FinishSpec(setup, s))
  {
    AppendOneNumbered(setup, s, SessionEnd(PLACEHOLDER));
    if s.poisoned.None? {
      PastTransitive(s.history, AppendOne(setup, s, SessionEnd(PLACEHOLDER)).history, FinishSpec(setup, s).history);
    }
  }

  /** One call keeps the numbering, only appends to the trace and only extends the history. */
  lemma CallNumbered(setup: Setup, s: Sys, call: Call)
    requires Ready(s) && Numbered(Trace(s.history), s.nextSeq)
    ensures Onward(s, Do(setup, s, call))
  {
    match call
    case StartCall => StartNumbered(setup, s);
    case StartFlowCall(_) =>
    case SubmitCall(action, actor, at) => SubmitNumbered(setup, s, action, actor, at);
    case TickCall(source) => TickCallNumbered(setup, s, source);
    case TakeCall =>
    case FinishCall => FinishNumbered(setup, s);
  }

  lemma {:induction false} RunNumbered(setup: Setup, calls: seq<Call>)
    ensures Numbered(Trace(Run(setup, calls).history), Run(setup, calls).nextSeq)
    decreases |calls|
  {
    if calls != [] {
      var k := |calls| - 1;
      RunNumbered(setup, calls[..k]);
      CallNumbered(setup, Run(setup, calls[..k]), calls[k]);
    }
  }

  /** In every run the appended sequence numbers strictly increase, across calls and despite the numbers a tick skips;
      and the trace of a shorter run is the beginning of the trace of a longer one. */
  lemma {:induction false} SequenceInEveryRun(setup: Setup, calls: seq<Call>, k: nat)
    requires k <= |calls|
    ensures var trace := Trace(Run(setup, calls).history);
            && (forall i, j :: 0 <= i < j < |trace| ==> trace[i].seqNo < trace[j].seqNo)
            && Trace(Run(setup, calls[..k]).history) <= trace
            && Past(Run(setup, calls[..k]).history, Run(setup, calls).history)
    decreases |calls|
  {
    RunNumbered(setup, calls);
    if k == |calls| {
      assert calls[..k] == calls;
    } else {
      var n := |calls| - 1;
      assert calls[..n][..k] == calls[..k];
      SequenceInEveryRun(setup, calls[..n], k);
      RunNumbered(setup, calls[..n]);
      CallNumbered(setup, Run(setup, calls[..n]), calls[n]);
      PastTransitive(Run(setup, calls[..k]).history, Run(setup, calls[..n]).history, Run(setup, calls).history);
    }
  }

  // ---------- fail-stop ----------

  /** The same setup with a sink that never fails. */
  function Reliable(setup: Setup): Setup {
    setup.(env := setup.env.(append := (h: History, e: TraceEvent) => None))
  }

  lemma SameSnapshot(setup: Setup, m: Mid, snap: Snapshot, source: EventSource)
    requires Ready(m.sys)
    ensures SnapshotSpec(setup, m, snap, source) == SnapshotSpec(Reliable(setup), m, snap, source)
  {
    assert setup.Rules() == Reliable(setup).Rules();
    var a := ObserveSpec(setup, m, snap, source);
    assert a == ObserveSpec(Reliable(setup), m, snap, source);
    assert ActionSpec(setup, a, snap) == ActionSpec(Reliable(setup), a, snap);
  }

  lemma {:induction false} SameSnapshots(setup: Setup, m: Mid, snaps: seq<Snapshot>, source: EventSource)
    requires Ready(m.sys)
    ensures SnapshotsSpec(setup, m, snaps, source) == SnapshotsSpec(Reliable(setup), m, snaps, source)
    decreases |snaps|
  {
    if snaps != [] {
      var k := |snaps| - 1;
      SameSnapshots(setup, m, snaps[..k], source);
      SameSnapshot(setup, SnapshotsSpec(setup, m, snaps[..k], source), snaps[k], source);
    }
  }

  /** `bad` ended in a failed append; `good` went through the same history and appended that event. */
  ghost predicate StoppedShortOf(bad: History, good: History) {
    bad.After? && bad.last.AppendFailed? && Past(After(bad.past, Appended(bad.last.event)), good)
  }

  lemma {:induction false} ReliableNeverPoisons(setup: Setup, s: Sys, events: seq<TraceEvent>)
    requires s.poisoned.None?
    ensures AppendAll(Reliable(setup), s, events).poisoned.None?
    ensures Past(s.history, AppendAll(Reliable(setup), s, events).history)
    decreases |events|
  {
    if events != [] {
      var t := AppendOne(Reliable(setup), s, events[0]);
      ReliableNeverPoisons(setup, t, events[1..]);
      PastTransitive(s.history, t.history, AppendAll(Reliable(setup), t, events[1..]).history);
    }
  }

  lemma {:induction false} AppendAllDiverges(setup: Setup, s: Sys, events: seq<TraceEvent>)
    requires s.poisoned.None?
    ensures var t, u := AppendAll(setup, s, events), AppendAll(Reliable(setup), s, events);
            if t.poisoned.None? then t == u else StoppedShortOf(t.history, u.history)
    decreases |events|
  {
    if events != [] {
      var t, u := AppendOne(setup, s, events[0]), AppendOne(Reliable(setup), s, events[0]);
      if t.poisoned.None? {
        AppendAllDiverges(setup, t, events[1..]);
      } else {
        ReliableNeverPoisons(setup, u, events[1..]);
      }
    }
  }

  /** A failing run and its reliable twin: equal, or stopped short of it. */
  ghost predicate Twin(s: Sys, r: Sys) {
    && r.poisoned.None?
    && (if s.poisoned.None? then s == r else StoppedShortOf(s.history, r.history))
  }

  lemma TickTwin(setup: Setup, s: Sys, snaps: seq<Snapshot>, source: EventSource)
    requires Ready(s) && s.poisoned.None?
    ensures Twin(TickBody(setup, s, snaps, source), TickBody(Reliable(setup), s, snaps, source))
  {
    var m := SnapshotsSpec(setup, Mid(s, []), snaps, source);
    SameSnapshots(setup, Mid(s, []), snaps, source);
    RuntimeFrame.SnapshotsFramed(setup, Mid(s, []), snaps, source);
    AppendAllDiverges(setup, m.sys, m.buffer);
    ReliableNeverPoisons(setup, m.sys, m.buffer);
  }

  lemma CallTwin(setup: Setup, s: Sys, call: Call)
    requires Ready(s) && s.poisoned.None?
    ensures Twin(Do(setup, s, call), Do(Reliable(setup), s, call))
  {
    match call
    case TickCall(source) =>
      if setup.env.connected(s.history) && setup.env.poll(s.history).Ok? {
        var polled := s.(history := After(s.history, Polled(setup.env.poll(s.history))));
        TickTwin(setup, polled, setup.env.poll(s.history).value, source);
      }
    case FinishCall =>
      var u := AppendOne(Reliable(setup), s, SessionEnd(PLACEHOLDER));
      PastTransitive(u.history, u.history, Do(Reliable(setup), s, call).history);
    case _ =>
  }

  /** A poisoned runtime does nothing more: no append, no write, no adapter call of any kind. */
  lemma PoisonedIsSilent(setup: Setup, s: Sys, call: Call)
    requires Ready(s) && s.poisoned.Some?
    ensures Do(setup, s, call).history == s.history && Do(setup, s, call).poisoned == s.poisoned
  {
  }

  /** Fail-stop refinement: until the sink fails a run is the run with a sink that never fails; when it fails, the
      recorded history is exactly the other one's up to the event that could not be appended, and nothing follows. */
  lemma {:induction false} FailStop(setup: Setup, calls: seq<Call>)
    ensures Twin(Run(setup, calls), Run(Reliable(setup), calls))
    decreases |calls|
  {
    if calls != [] {
      var k := |calls| - 1;
      FailStop(setup, calls[..k]);
      var s, r := Run(setup, calls[..k]), Run(Reliable(setup), calls[..k]);
      if s.poisoned.None? {
        CallTwin(setup, s, calls[k]);
      } else {
        PoisonedIsSilent(setup, s, calls[k]);
        CallTwin(Reliable(setup), r, calls[k]);
        RunNumbered(Reliable(setup), calls[..k]);
        CallNumbered(Reliable(setup), r, calls[k]);
        var until := After(s.history.past, Appended(s.history.last.event));
        PastTransitive(until, r.history, Run(Reliable(setup), calls).history);
        ReliableTwice(setup);
      }
    }
  }

  lemma ReliableTwice(setup: Setup)
    ensures Reliable(Reliable(setup)) == Reliable(setup)
  {
  }

  /** What that means for the trace: it is cut off right before the event whose append failed. */
  lemma FailedTraceIsPrefix(setup: Setup, calls: seq<Call>)
    ensures var s, r := Run(setup, calls), Run(Reliable(setup), calls);
            if s.poisoned.None? then Trace(s.history) == Trace(r.history)
            else && s.history.After? && s.history.last.AppendFailed?
                 && Trace(s.history) + [s.history.last.event] <= Trace(r.history)
  {
    FailStop(setup, calls);
    var s, r := Run(setup, calls), Run(Reliable(setup), calls);
    if s.poisoned.Some? {
      PastTrace(After(s.history.past, Appended(s.history.last.event)), r.history);
    }
  }

  /** Once a run is poisoned no further list of calls adds anything to its history. */
  lemma {:induction false} PoisonedRunIsSilent(setup: Setup, calls: seq<Call>, k: nat)
    requires k <= |calls| && Run(setup, calls[..k]).poisoned.Some?
    ensures Run(setup, calls).history == Run(setup, calls[..k]).history && Run(setup, calls).poisoned.Some?
    decreases |calls|
  {
    if k == |calls| {
      assert calls[..k] == calls;
    } else {
      var n := |calls| - 1;
      assert calls[..n][..k] == calls[..k];
      PoisonedRunIsSilent(setup, calls[..n], k);
      PoisonedIsSilent(setup, Run(setup, calls[..n]), calls[n]);
    }
  }
}
