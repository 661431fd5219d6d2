/** What is left of a run's trace after a crash, read back from any torn beginning of the file. */
module RunCrash {
  import opened Actions
  import opened History
  import opened Lifecycle
  import opened RuntimeModel
  import RuntimeLaws
  import RunOrder
  import TraceLog

  /** The events whose lines may be in the file: those appended, and the one whose append failed, if one did. */
  function Attempted(s: Sys): seq<TraceEvent> {
    Trace(s.history) + if s.poisoned.Some? && s.history.After? && s.history.last.AppendFailed?
                       then [s.history.last.event] else []
  }

  /** Whatever beginning of the trace file survives, a part or all of the line whose append failed included, it reads
      back without error as a beginning of what the run tried to append: each id still spells a prefix of a lifecycle,
      sequence numbers still strictly increase, and every event whose line was written whole is there. */
  lemma RecoveredTraceIsLawful(
      setup: Setup, calls: seq<Call>, codec: TraceLog.Codec<TraceEvent>, p: string, id: ActionId)
    requires TraceLog.Lawful(codec) && p <= TraceLog.Log(codec, Attempted(Run(setup, calls)))
    ensures var r := TraceLog.Read(codec, p);
            && r.Ok? && r.value <= Attempted(Run(setup, calls))
            && IsLifecyclePrefix(Word(r.value, id))
            && (forall i, j :: 0 <= i < j < |r.value| ==> r.value[i].seqNo < r.value[j].seqNo)
    ensures var tried := Attempted(Run(setup, calls));
            forall k :: 0 <= k <= |tried| && TraceLog.Log(codec, tried[..k]) <= p ==>
              k <= |TraceLog.Read(codec, p).value|
  {
    var s, twin := Run(setup, calls), RunOrder.Reliable(setup);
    var r := Run(twin, calls);
    TraceLog.CrashRecovery(codec, Attempted(s), p);
    var got := TraceLog.Read(codec, p).value;
    RunOrder.FailedTraceIsPrefix(setup, calls);
    RuntimeLaws.RunKeepsLaw(twin, calls);
    assert RuntimeLaws.Sound(twin, r.history, id);
    LifeOfPrefix(got, Trace(r.history), id);
    LifeSpellsWord(got, id);
    RunOrder.SequenceInEveryRun(twin, calls, |calls|);
  }
}
