/** Exceedance episodes: sustained conditions reported once when they begin and once when they end. */
module Exceedance {
  import opened Actions
  import opened Recording
  import opened Runs

  datatype Thresholds = Thresholds(
    sinkRate: Float, sinkMaxAgl: Float, bank: Float, bankMaxAgl: Float, hardTouchdown: Float)

  datatype EventKind = ExcessiveSinkRate | ExcessiveBankLowAltitude | HardTouchdown

  datatype Lifecycle = Started | Ended

  datatype FdmEvent = FdmEvent(
    seqNo: nat, ms: nat, kind: EventKind, measured: Float, threshold: Float, lifecycle: Lifecycle,
    peak: Option<Float>, samplesActive: nat)

  datatype Episode = Episode(peak: Float, samplesActive: nat)

  // ---------- the conditions, sample by sample ----------

  predicate KnownAirborne(s: FdrSample) {
    s.onGround == Some(false)
  }

  /** How far the sample exceeds the sink-rate rule, if it does. Height is compared as it is, even when infinite. */
  function SinkSeverity(t: Thresholds, s: FdrSample): Option<Float> {
    if KnownAirborne(s) && s.agl.Some? && s.vs.Some? && s.agl.value.Le(t.sinkMaxAgl) && s.vs.value.IsFinite()
       && t.sinkRate.Le(s.vs.value.Neg())
    then Some(s.vs.value.Neg()) else None
  }

  function BankSeverity(t: Thresholds, s: FdrSample): Option<Float> {
    if KnownAirborne(s) && s.agl.Some? && s.bank.Some? && s.agl.value.Le(t.bankMaxAgl) && s.bank.value.IsFinite()
       && t.bank.Le(s.bank.value.Abs())
    then Some(s.bank.value.Abs()) else None
  }

  /** Severity of each sample under one sustained rule. */
  datatype Rule = Rule(kind: EventKind, threshold: Float, severity: FdrSample -> Option<Float>)

  function SinkRule(t: Thresholds): Rule {
    Rule(ExcessiveSinkRate, t.sinkRate, s => SinkSeverity(t, s))
  }

  function BankRule(t: Thresholds): Rule {
    Rule(ExcessiveBankLowAltitude, t.bank, s => BankSeverity(t, s))
  }

  // ---------- what a stream should be told ----------

  function StartedAt(rule: Rule, s: FdrSample, severity: Float): FdmEvent {
    FdmEvent(s.seqNo, s.ms, rule.kind, severity, rule.threshold, Started, None, 1)
  }

  function EndedAt(rule: Rule, s: FdrSample, e: Episode): FdmEvent {
    FdmEvent(s.seqNo, s.ms, rule.kind, e.peak, rule.threshold, Ended, Some(e.peak), e.samplesActive)
  }

  /** What the rule must say at sample i: a start where a run begins, an end right after a run with the run's peak and
      length, and nothing anywhere else. */
  ghost predicate SaysAt(rule: Rule, samples: seq<FdrSample>, i: nat, events: seq<FdmEvent>)
    requires i < |samples|
  {
    if Exceeds(rule.severity, samples, i) && !Exceeds(rule.severity, samples, i - 1) then
      events == [StartedAt(rule, samples[i], rule.severity(samples[i]).value)]
    else if !Exceeds(rule.severity, samples, i) && Exceeds(rule.severity, samples, i - 1) then
      exists from: nat, peak ::
        OpenRun(rule.severity, samples, from, i) && IsPeak(rule.severity, samples, from, i, peak)
        && events == [EndedAt(rule, samples[i], Episode(peak, i - from))]
    else events == []
  }

  /** A hard touchdown: known airborne before, on the ground now, sinking at least as fast as the threshold. */
  function HardTouchdownAt(t: Thresholds, prev: Option<bool>, s: FdrSample): seq<FdmEvent> {
    if prev == Some(false) && s.onGround == Some(true) && s.vs.Some? && s.vs.value.IsFinite()
       && t.hardTouchdown.Le(s.vs.value.Neg())
    then [FdmEvent(s.seqNo, s.ms, HardTouchdown, s.vs.value.Neg(), t.hardTouchdown, Started, None, 1)]
    else []
  }

  function PrevOnGround(samples: seq<FdrSample>, i: nat): Option<bool>
    requires i <= |samples|
  {
    if i == 0 then None else samples[i - 1].onGround
  }

  /** Everything the analyser must say at sample i, rule after rule. */
  ghost predicate AnswerAt(t: Thresholds, samples: seq<FdrSample>, i: nat, events: seq<FdmEvent>)
    requires i < |samples|
  {
    exists sink, bank ::
      && SaysAt(SinkRule(t), samples, i, sink) && SaysAt(BankRule(t), samples, i, bank)
      && events == sink + bank + HardTouchdownAt(t, PrevOnGround(samples, i), samples[i])
  }

  /** One answer per sample, each right for the stream up to that sample. */
  ghost predicate Answered(t: Thresholds, samples: seq<FdrSample>, answers: seq<seq<FdmEvent>>) {
    |answers| == |samples| && forall i :: 0 <= i < |samples| ==> AnswerAt(t, samples[..i + 1], i, answers[i])
  }

  function Flatten(answers: seq<seq<FdmEvent>>): seq<FdmEvent> {
    if answers == [] then [] else Flatten(answers[..|answers| - 1]) + answers[|answers| - 1]
  }

  // ---------- one state machine ----------

  /** The episode a rule has open after the samples so far. */
  ghost predicate Tracks(rule: Rule, samples: seq<FdrSample>, open: Option<Episode>) {
    match open
    case None => !Exceeds(rule.severity, samples, |samples| - 1)
    case Some(e) => exists from: nat :: OpenRun(rule.severity, samples, from, |samples|)
                                        && IsPeak(rule.severity, samples, from, |samples|, e.peak)
                                         && e.samplesActive == |samples| - from
  }

  function Next(rule: Rule, open: Option<Episode>, s: FdrSample): (Option<Episode>, seq<FdmEvent>) {
    match (open, rule.severity(s))
    case (None, Some(severity)) => (Some(Episode(severity, 1)), [StartedAt(rule, s, severity)])
    case (Some(e), Some(severity)) => (Some(Episode(e.peak.Max(severity), e.samplesActive + 1)), [])
    case (Some(e), None) => (None, [EndedAt(rule, s, e)])
    case (None, None) => (None, [])
  }

  lemma RulesAreNumeric(t: Thresholds)
    ensures Numeric(SinkRule(t).severity) && Numeric(BankRule(t).severity)
  {
  }

  /** One step of the state machine says what must be said, and keeps track. */
  lemma NextIsRight(rule: Rule, samples: seq<FdrSample>, s: FdrSample, open: Option<Episode>)
    requires Numeric(rule.severity) && Tracks(rule, samples, open)
    ensures var (open', events) := Next(rule, open, s);
            Tracks(rule, samples + [s], open') && SaysAt(rule, samples + [s], |samples|, events)
  {
    var n, all := |samples|, samples + [s];
    var (open', events) := Next(rule, open, s);
    assert Exceeds(rule.severity, all, n) <==> rule.severity(s).Some?;
    assert Exceeds(rule.severity, all, n - 1) <==> Exceeds(rule.severity, samples, n - 1);
    if open.Some? {
      var from: nat :| OpenRun(rule.severity, samples, from, n)
                    && IsPeak(rule.severity, samples, from, n, open.value.peak)
                       && open.value.samplesActive == n - from;
      RunExtends(rule.severity, samples, s, from, n);
      if rule.severity(s).Some? {
        PeakGrows(rule.severity, samples, s, from, open.value.peak);
        assert OpenRun(rule.severity, all, from, n + 1);
      }
    } else if rule.severity(s).Some? {
      assert OpenRun(rule.severity, all, n, n + 1) && IsPeak(rule.severity, all, n, n + 1, rule.severity(s).value);
    }
  }

  /** The analyser's memory agrees with the stream it was fed and with the answers it gave. */
  ghost predicate InStep(t: Thresholds, fed: seq<FdrSample>, answers: seq<seq<FdmEvent>>, prev: Option<bool>,
                         sink: Option<Episode>, bank: Option<Episode>)
  {
    && prev == PrevOnGround(fed, |fed|) && Answered(t, fed, answers)
    && Tracks(SinkRule(t), fed, sink) && Tracks(BankRule(t), fed, bank)
  }

  /** One more sample, answered by each rule in turn. */
  lemma InStepAfter(t: Thresholds, fed: seq<FdrSample>, answers: seq<seq<FdmEvent>>, prev: Option<bool>,
                    sink: Option<Episode>, bank: Option<Episode>, s: FdrSample)
    requires InStep(t, fed, answers, prev, sink, bank)
    ensures var (sink', a) := Next(SinkRule(t), sink, s);
            var (bank', b) := Next(BankRule(t), bank, s);
            var answer := a + b + HardTouchdownAt(t, prev, s);
            && InStep(t, fed + [s], answers + [answer], s.onGround, sink', bank')
            && Flatten(answers + [answer]) == Flatten(answers) + answer
  {
    RulesAreNumeric(t);
    NextIsRight(SinkRule(t), fed, s, sink);
    NextIsRight(BankRule(t), fed, s, bank);
    assert PrevOnGround(fed + [s], |fed|) == prev && (fed + [s])[|fed|] == s;
    var a, b := Next(SinkRule(t), sink, s).1, Next(BankRule(t), bank, s).1;
    AnswersGrow(t, fed, answers, s, a + b + HardTouchdownAt(t, prev, s));
  }

  lemma AnswersGrow(
      t: Thresholds, fed: seq<FdrSample>, answers: seq<seq<FdmEvent>>, s: FdrSample, answer: seq<FdmEvent>)
    requires Answered(t, fed, answers) && AnswerAt(t, fed + [s], |fed|, answer)
    ensures Answered(t, fed + [s], answers + [answer])
    ensures Flatten(answers + [answer]) == Flatten(answers) + answer
  {
    var all := fed + [s];
    assert (answers + [answer])[..|answers|] == answers;
    forall i | 0 <= i < |all| ensures AnswerAt(t, all[..i + 1], i, (answers + [answer])[i]) {
      if i < |fed| { assert all[..i + 1] == fed[..i + 1]; } else { assert all[..i + 1] == all; }
    }
  }

  // ---------- the analyser ----------

  class FdmAnalyzer {
    const thresholds: Thresholds
    var prevOnGround: Option<bool>
    var events: seq<FdmEvent>
    var sink: Option<Episode>
    var bank: Option<Episode>
    ghost var fed: seq<FdrSample>
    ghost var answers: seq<seq<FdmEvent>>

    ghost predicate Valid()
      reads this
    {
      InStep(thresholds, fed, answers, prevOnGround, sink, bank) && events == Flatten(answers)
    }

    constructor (thresholds: Thresholds)
      ensures Valid() && this.thresholds == thresholds && fed == [] && answers == []
    {
      this.thresholds := thresholds;
      prevOnGround, events, sink, bank, fed, answers := None, [], None, None, [], [];
    }

    method MeasureSink(s: FdrSample) returns (severity: Option<Float>)
      ensures severity == SinkSeverity(thresholds, s)
    {
      severity := None;
      var airborne := s.onGround == Some(false);
      if airborne && s.agl.Some? && s.vs.Some? {
        if s.agl.value.Le(thresholds.sinkMaxAgl) && s.vs.value.IsFinite() {
          var sink := s.vs.value.Neg();
          if thresholds.sinkRate.Le(sink) {
            severity := Some(sink);
          }
        }
      }
    }

    method MeasureBank(s: FdrSample) returns (severity: Option<Float>)
      ensures severity == BankSeverity(thresholds, s)
    {
      severity := None;
      var airborne := s.onGround == Some(false);
      if airborne && s.agl.Some? && s.bank.Some? && s.agl.value.Le(thresholds.bankMaxAgl) {
        if s.bank.value.IsFinite() && thresholds.bank.Le(s.bank.value.Abs()) {
          severity := Some(s.bank.value.Abs());
        }
      }
    }

    static method Advance(ghost rule: Rule, open: Option<Episode>, severity: Option<Float>, kind: EventKind,
                          threshold: Float, s: FdrSample)
      returns (next: Option<Episode>, out: seq<FdmEvent>)
      requires severity == rule.severity(s) && kind == rule.kind && threshold == rule.threshold
      ensures (next, out) == Next(rule, open, s)
    {
      next, out := None, [];
      if open.None? && severity.Some? {
        next := Some(Episode(severity.value, 1));
        out := [FdmEvent(s.seqNo, s.ms, kind, severity.value, threshold, Started, None, 1)];
      } else if open.Some? && severity.Some? {
        next := Some(Episode(open.value.peak.Max(severity.value), open.value.samplesActive + 1));
      } else if open.Some? {
        var e := open.value;
        out := [FdmEvent(s.seqNo, s.ms, kind, e.peak, threshold, Ended, Some(e.peak), e.samplesActive)];
      }
    }

    method HardTouchdownEvents(s: FdrSample) returns (out: seq<FdmEvent>)
      ensures out == HardTouchdownAt(thresholds, prevOnGround, s)
    {
      out := [];
      if prevOnGround == Some(false) && s.onGround == Some(true) && s.vs.Some? && s.vs.value.IsFinite() {
        var impact := s.vs.value.Neg();
        if thresholds.hardTouchdown.Le(impact) {
          out := [FdmEvent(s.seqNo, s.ms, HardTouchdown, impact, thresholds.hardTouchdown, Started, None, 1)];
        }
      }
    }

    /** One more sample: the answer is what must be said about it, and the log grows by the answer. */
    method Process(s: FdrSample) returns (answer: seq<FdmEvent>)
      requires Valid()
      modifies this
      ensures Valid() && fed == old(fed) + [s] && answers == old(answers) + [answer] && events == old(events) + answer
    {
      InStepAfter(thresholds, fed, answers, prevOnGround, sink, bank, s);
      var sinkEvents, bankEvents;
      var severity := MeasureSink(s);
      sink, sinkEvents := Advance(SinkRule(thresholds), sink, severity, ExcessiveSinkRate, thresholds.sinkRate, s);
      severity := MeasureBank(s);
      bank, bankEvents := Advance(BankRule(thresholds), bank, severity, ExcessiveBankLowAltitude, thresholds.bank, s);
      var impact := HardTouchdownEvents(s);
      answer := sinkEvents + bankEvents + impact;
      prevOnGround := s.onGround;
      events := events + answer;
      fed, answers := fed + [s], answers + [answer];
    }
  }

  // ---------- conservation over a whole stream ----------

  function Counted(rule: Rule, samples: seq<FdrSample>): nat {
    if samples == [] then 0
    else Counted(rule, samples[..|samples| - 1]) + (if rule.severity(samples[|samples| - 1]).Some? then 1 else 0)
  }

  /** Length of the exceeding run the stream ends with. */
  function TrailingRun(rule: Rule, samples: seq<FdrSample>): nat {
    if samples == [] || rule.severity(samples[|samples| - 1]).None? then 0
    else 1 + TrailingRun(rule, samples[..|samples| - 1])
  }

  /** Samples accounted for by the ended episodes of one kind. */
  function ActiveSamples(log: seq<FdmEvent>, kind: EventKind): nat {
    if log == [] then 0
    else
      var e := log[|log| - 1];
      ActiveSamples(log[..|log| - 1], kind) + (if e.kind == kind && e.lifecycle.Ended? then e.samplesActive else 0)
  }

  /** Episodes of one kind begun, less those ended. */
  function StillOpen(log: seq<FdmEvent>, kind: EventKind): int {
    if log == [] then 0
    else
      var e := log[|log| - 1];
      StillOpen(log[..|log| - 1], kind) + (if e.kind != kind then 0 else if e.lifecycle.Started? then 1 else -1)
  }

  lemma {:induction false} LogSums(a: seq<FdmEvent>, b: seq<FdmEvent>, kind: EventKind)
    ensures ActiveSamples(a + b, kind) == ActiveSamples(a, kind) + ActiveSamples(b, kind)
    ensures StillOpen(a + b, kind) == StillOpen(a, kind) + StillOpen(b, kind)
  {
    if b == [] {
      assert a + b == a;
    } else {
      var n := |b| - 1;
      assert (a + b)[..|a + b| - 1] == a + b[..n];
      LogSums(a, b[..n], kind);
    }
  }

  lemma {:induction false} OpenRunIsTrailing(rule: Rule, samples: seq<FdrSample>, i: nat, from: nat)
    requires i <= |samples| && OpenRun(rule.severity, samples, from, i)
    ensures TrailingRun(rule, samples[..i]) == i - from
    decreases i
  {
    assert Exceeds(rule.severity, samples, i - 1);
    assert samples[..i][..i - 1] == samples[..i - 1];
    if from == i - 1 {
      if from > 0 { assert !Exceeds(rule.severity, samples, from - 1); }
    } else {
      OpenRunIsTrailing(rule, samples, i - 1, from);
    }
  }

  /** What one rule says about a sample balances the books for its kind. */
  lemma AnswerBalances(rule: Rule, samples: seq<FdrSample>, i: nat, events: seq<FdmEvent>)
    requires i < |samples| && SaysAt(rule, samples, i, events)
    ensures ActiveSamples(events, rule.kind) + TrailingRun(rule, samples[..i + 1]) ==
            TrailingRun(rule, samples[..i]) + Counted(rule, samples[..i + 1]) - Counted(rule, samples[..i])
    ensures StillOpen(events, rule.kind) ==
            (if TrailingRun(rule, samples[..i + 1]) > 0 then 1 else 0)
            - (if TrailingRun(rule, samples[..i]) > 0 then 1 else 0)
  {
    assert samples[..i + 1][..i] == samples[..i];
    assert TrailingRun(rule, samples[..i]) > 0 <==> Exceeds(rule.severity, samples, i - 1);
    if events != [] {
      assert events[..0] == [];
      if !Exceeds(rule.severity, samples, i) {
        var from: nat, peak :| OpenRun(rule.severity, samples, from, i) && IsPeak(rule.severity, samples, from, i, peak)
                               && events == [EndedAt(rule, samples[i], Episode(peak, i - from))];
        OpenRunIsTrailing(rule, samples, i, from);
      }
    }
  }

  lemma {:induction false} OtherKind(events: seq<FdmEvent>, kind: EventKind)
    requires forall e :: e in events ==> e.kind != kind
    ensures ActiveSamples(events, kind) == 0 && StillOpen(events, kind) == 0
  {
    if events != [] {
      assert events[|events| - 1] in events;
      OtherKind(events[..|events| - 1], kind);
    }
  }

  lemma AnswerKinds(rule: Rule, samples: seq<FdrSample>, i: nat, events: seq<FdmEvent>)
    requires i < |samples| && SaysAt(rule, samples, i, events)
    ensures forall e :: e in events ==> e.kind == rule.kind
  {
  }

  /** The books of one rule over the log of a stream. */
  ghost predicate Balanced(rule: Rule, samples: seq<FdrSample>, log: seq<FdmEvent>) {
    && ActiveSamples(log, rule.kind) + TrailingRun(rule, samples) == Counted(rule, samples)
    && StillOpen(log, rule.kind) == if TrailingRun(rule, samples) > 0 then 1 else 0
  }

  /** Events of other kinds around the rule's own leave its books balanced. */
  lemma BalanceStep(rule: Rule, samples: seq<FdrSample>, log: seq<FdmEvent>, n: nat, own: seq<FdmEvent>,
                    before: seq<FdmEvent>, after: seq<FdmEvent>, answer: seq<FdmEvent>)
    requires |samples| == n + 1 && Balanced(rule, samples[..n], log) && SaysAt(rule, samples, n, own)
    requires answer == before + own + after
    requires (forall e :: e in before ==> e.kind != rule.kind) && (forall e :: e in after ==> e.kind != rule.kind)
    ensures Balanced(rule, samples, log + answer)
  {
    AnswerBalances(rule, samples, n, own);
    assert samples[..n + 1] == samples;
    OtherKind(before, rule.kind);
    OtherKind(after, rule.kind);
    LogSums(before, own, rule.kind);
    LogSums(before + own, after, rule.kind);
    LogSums(log, before + own + after, rule.kind);
  }

  lemma FirstOfThree(a: seq<FdmEvent>, b: seq<FdmEvent>, c: seq<FdmEvent>)
    ensures a + b + c == [] + a + (b + c)
  {
  }

  lemma SinkBooks(t: Thresholds, samples: seq<FdrSample>, log: seq<FdmEvent>, n: nat, answer: seq<FdmEvent>)
    requires |samples| == n + 1 && AnswerAt(t, samples, n, answer) && Balanced(SinkRule(t), samples[..n], log)
    ensures Balanced(SinkRule(t), samples, log + answer)
  {
    var hard := HardTouchdownAt(t, PrevOnGround(samples, n), samples[n]);
    var sink, bank :| SaysAt(SinkRule(t), samples, n, sink) && SaysAt(BankRule(t), samples, n, bank)
                      && answer == sink + bank + hard;
    AnswerKinds(BankRule(t), samples, n, bank);
    FirstOfThree(sink, bank, hard);
    BalanceStep(SinkRule(t), samples, log, n, sink, [], bank + hard, answer);
  }

  lemma BankBooks(t: Thresholds, samples: seq<FdrSample>, log: seq<FdmEvent>, n: nat, answer: seq<FdmEvent>)
    requires |samples| == n + 1 && AnswerAt(t, samples, n, answer) && Balanced(BankRule(t), samples[..n], log)
    ensures Balanced(BankRule(t), samples, log + answer)
  {
    var hard := HardTouchdownAt(t, PrevOnGround(samples, n), samples[n]);
    var sink, bank :| SaysAt(SinkRule(t), samples, n, sink) && SaysAt(BankRule(t), samples, n, bank)
                      && answer == sink + bank + hard;
    AnswerKinds(SinkRule(t), samples, n, sink);
    BalanceStep(BankRule(t), samples, log, n, bank, sink, hard, answer);
  }

  /** For either sustained rule and any stream, every exceeding sample belongs to exactly one episode: the lengths the
      ended events carry, and the run still open, add up to the number of exceeding samples; and begun episodes exceed
      ended ones by the one that is open. */
  lemma {:induction false} EpisodesAccountForSamples(
      t: Thresholds, samples: seq<FdrSample>, answers: seq<seq<FdmEvent>>)
    requires Answered(t, samples, answers)
    ensures Balanced(SinkRule(t), samples, Flatten(answers)) && Balanced(BankRule(t), samples, Flatten(answers))
    decreases |samples|
  {
    if samples != [] {
      var n := |samples| - 1;
      AnsweredPrefix(t, samples, answers);
      EpisodesAccountForSamples(t, samples[..n], answers[..n]);
      assert samples[..n + 1] == samples;
      SinkBooks(t, samples, Flatten(answers[..n]), n, answers[n]);
      BankBooks(t, samples, Flatten(answers[..n]), n, answers[n]);
    }
  }

  lemma AnsweredPrefix(t: Thresholds, samples: seq<FdrSample>, answers: seq<seq<FdmEvent>>)
    requires samples != [] && Answered(t, samples, answers)
    ensures Answered(t, samples[..|samples| - 1], answers[..|samples| - 1])
  {
    var n := |samples| - 1;
    forall i | 0 <= i < n ensures AnswerAt(t, samples[..n][..i + 1], i, answers[..n][i]) {
      assert samples[..n][..i + 1] == samples[..i + 1];
    }
  }

  // ---------- what the answers say, in figures ----------

  /** Airborne for certain, low enough, and sinking or banked at least as much as the threshold allows. */
  predicate Exceeding(t: Thresholds, kind: EventKind, s: FdrSample) {
    && s.onGround == Some(false) && s.agl.Some?
    && match kind
       case ExcessiveSinkRate =>
         s.agl.value.Le(t.sinkMaxAgl) && s.vs.Some? && s.vs.value.Fin? && t.sinkRate.Le(Fin(-s.vs.value.r))
       case ExcessiveBankLowAltitude =>
         && s.agl.value.Le(t.bankMaxAgl) && s.bank.Some? && s.bank.value.Fin?
         && (t.bank.Le(Fin(s.bank.value.r)) || t.bank.Le(Fin(-s.bank.value.r)))
       case HardTouchdown => false
  }

  predicate ExceedingAt(t: Thresholds, kind: EventKind, samples: seq<FdrSample>, i: int) {
    0 <= i < |samples| && Exceeding(t, kind, samples[i])
  }

  /** The rate of descent, or the bank to either side. */
  function Figure(kind: EventKind, s: FdrSample): Float
    requires if kind.ExcessiveBankLowAltitude? then s.bank.Some? else s.vs.Some?
  {
    if kind.ExcessiveBankLowAltitude? then s.bank.value.Abs() else s.vs.value.Neg()
  }

  function LimitOf(t: Thresholds, kind: EventKind): Float {
    match kind
    case ExcessiveSinkRate => t.sinkRate
    case ExcessiveBankLowAltitude => t.bank
    case HardTouchdown => t.hardTouchdown
  }

  /** From an airborne sample onto the ground, sinking at least as fast as the threshold. */
  predicate HitsHard(t: Thresholds, samples: seq<FdrSample>, i: nat)
    requires i < |samples|
  {
    && i > 0 && samples[i - 1].onGround == Some(false) && samples[i].onGround == Some(true)
    && samples[i].vs.Some? && samples[i].vs.value.Fin? && t.hardTouchdown.Le(Fin(-samples[i].vs.value.r))
  }

  /** An episode of this kind from `from` on is over at i, and this is the greatest figure in it. */
  ghost predicate EpisodeOver(
      t: Thresholds, kind: EventKind, samples: seq<FdrSample>, from: nat, i: nat, peak: Float)
    requires i < |samples|
  {
    && from < i && !ExceedingAt(t, kind, samples, from - 1) && !ExceedingAt(t, kind, samples, i)
    && (forall k :: from <= k < i ==> ExceedingAt(t, kind, samples, k) && Figure(kind, samples[k]).Le(peak))
    && exists k :: from <= k < i && ExceedingAt(t, kind, samples, k) && Figure(kind, samples[k]) == peak
  }

  /** What there is to say about sample i under a sustained rule. */
  ghost predicate SustainedTold(
      t: Thresholds, kind: EventKind, samples: seq<FdrSample>, i: nat, events: seq<FdmEvent>)
    requires i < |samples|
  {
    var s := samples[i];
    if ExceedingAt(t, kind, samples, i) && !ExceedingAt(t, kind, samples, i - 1) then
      events == [FdmEvent(s.seqNo, s.ms, kind, Figure(kind, s), LimitOf(t, kind), Started, None, 1)]
    else if !ExceedingAt(t, kind, samples, i) && ExceedingAt(t, kind, samples, i - 1) then
      exists from: nat, peak :: EpisodeOver(t, kind, samples, from, i, peak)
        && events == [FdmEvent(s.seqNo, s.ms, kind, peak, LimitOf(t, kind), Ended, Some(peak), i - from)]
    else events == []
  }

  ghost predicate SampleTold(t: Thresholds, samples: seq<FdrSample>, i: nat, events: seq<FdmEvent>)
    requires i < |samples|
  {
    var s := samples[i];
    exists sink, bank ::
      && SustainedTold(t, ExcessiveSinkRate, samples, i, sink)
      && SustainedTold(t, ExcessiveBankLowAltitude, samples, i, bank)
      && events == sink + bank +
         if HitsHard(t, samples, i)
         then [FdmEvent(s.seqNo, s.ms, HardTouchdown, Figure(HardTouchdown, s), t.hardTouchdown, Started, None, 1)]
         else []
  }

  lemma SeverityInFigures(t: Thresholds, s: FdrSample)
    ensures SinkSeverity(t, s) ==
            if Exceeding(t, ExcessiveSinkRate, s) then Some(Figure(ExcessiveSinkRate, s)) else None
    ensures BankSeverity(t, s) ==
            if Exceeding(t, ExcessiveBankLowAltitude, s) then Some(Figure(ExcessiveBankLowAltitude, s)) else None
  {
  }

  /** The rule measures the kind's own figure, against its own limit. */
  ghost predicate Measures(t: Thresholds, rule: Rule) {
    && !rule.kind.HardTouchdown? && rule.threshold == LimitOf(t, rule.kind)
    && forall s :: rule.severity(s) == if Exceeding(t, rule.kind, s) then Some(Figure(rule.kind, s)) else None
  }

  lemma RulesMeasure(t: Thresholds)
    ensures Measures(t, SinkRule(t)) && SinkRule(t).kind == ExcessiveSinkRate
    ensures Measures(t, BankRule(t)) && BankRule(t).kind == ExcessiveBankLowAltitude
  {
    forall s ensures SinkRule(t).severity(s) == if Exceeding(t, ExcessiveSinkRate, s)
                                                then Some(Figure(ExcessiveSinkRate, s)) else None {
      SeverityInFigures(t, s);
    }
    forall s ensures BankRule(t).severity(s) == if Exceeding(t, ExcessiveBankLowAltitude, s)
                                                then Some(Figure(ExcessiveBankLowAltitude, s)) else None {
      SeverityInFigures(t, s);
    }
  }

  lemma RuleInFigures(t: Thresholds, rule: Rule, samples: seq<FdrSample>, i: nat, events: seq<FdmEvent>)
    requires Measures(t, rule) && i < |samples| && SaysAt(rule, samples, i, events)
    ensures SustainedTold(t, rule.kind, samples, i, events)
  {
    forall k | 0 <= k < |samples|
      ensures Exceeds(rule.severity, samples, k) == ExceedingAt(t, rule.kind, samples, k) {}
    if !Exceeds(rule.severity, samples, i) && Exceeds(rule.severity, samples, i - 1) {
      var from: nat, peak :|
        OpenRun(rule.severity, samples, from, i) && IsPeak(rule.severity, samples, from, i, peak)
        && events == [EndedAt(rule, samples[i], Episode(peak, i - from))];
      assert EpisodeOver(t, rule.kind, samples, from, i, peak);
    }
  }

  /** The answer to every sample, in figures: a start exactly where the sink rate or the bank of a low airborne sample
      begins to exceed its threshold, with the figure measured; an end exactly where it no longer does, with the
      greatest figure and the length of the episode; a hard touchdown exactly on contact right after an airborne sample
      at no less than the threshold's rate; in this order, and under the sample's own number and time. */
  lemma AnswersInFigures(t: Thresholds, samples: seq<FdrSample>, answers: seq<seq<FdmEvent>>, i: nat)
    requires Answered(t, samples, answers) && i < |samples|
    ensures SampleTold(t, samples[..i + 1], i, answers[i])
  {
    var front := samples[..i + 1];
    assert AnswerAt(t, front, i, answers[i]);
    var sink, bank :| SaysAt(SinkRule(t), front, i, sink) && SaysAt(BankRule(t), front, i, bank)
                      && answers[i] == sink + bank + HardTouchdownAt(t, PrevOnGround(front, i), front[i]);
    RulesMeasure(t);
    RuleInFigures(t, SinkRule(t), front, i, sink);
    RuleInFigures(t, BankRule(t), front, i, bank);
  }
}
