/** The bounded session summary and the debrief timeline against the full history of samples. */
module Summary {
  import opened Actions
  import opened Recording

  const LANDING_WINDOW_SAMPLES: nat := 4096
  const MAX_PHASE_SPANS: nat := 10_000
  const GAP_REPORT_THRESHOLD_MS: nat := 5000

  datatype PhaseSpan = PhaseSpan(phase: string, firstSeq: nat, lastSeq: nat, firstMs: nat, lastMs: nat, samples: nat)

  datatype GapStats = GapStats(maxGapMs: nat, overThreshold: nat)

  datatype SpanLog = SpanLog(spans: seq<PhaseSpan>, truncated: nat)

  // ---------- run-length encoding ----------

  /** Every sample is in this phase. */
  predicate AllIn(samples: seq<FdrSample>, phase: string) {
    forall i :: 0 <= i < |samples| ==> samples[i].phase == phase
  }

  /** The span describes exactly these samples. */
  predicate Spans(span: PhaseSpan, samples: seq<FdrSample>) {
    && samples != [] && span.samples == |samples| && AllIn(samples, span.phase)
    && span.firstSeq == samples[0].seqNo && span.firstMs == samples[0].ms
    && span.lastSeq == samples[|samples| - 1].seqNo && span.lastMs == samples[|samples| - 1].ms
  }

  /** The samples end with the stretch that this span describes. */
  predicate EndsWith(samples: seq<FdrSample>, head: seq<FdrSample>, tail: seq<FdrSample>, span: PhaseSpan) {
    samples == head + tail && Spans(span, tail)
  }

  /** The spans cut the samples into maximal stretches of one phase. */
  ghost predicate IsRle(samples: seq<FdrSample>, spans: seq<PhaseSpan>)
    decreases |spans|
  {
    if spans == [] then samples == []
    else
      var n := |spans| - 1;
      && (n > 0 ==> spans[n - 1].phase != spans[n].phase)
      && exists head, tail :: EndsWith(samples, head, tail, spans[n]) && IsRle(head, spans[..n])
  }

  function OneSample(s: FdrSample): PhaseSpan {
    PhaseSpan(s.phase, s.seqNo, s.seqNo, s.ms, s.ms, 1)
  }

  function Lengthened(span: PhaseSpan, s: FdrSample): PhaseSpan {
    span.(lastSeq := s.seqNo, lastMs := s.ms, samples := span.samples + 1)
  }

  function Rle(samples: seq<FdrSample>): (spans: seq<PhaseSpan>)
    ensures samples == [] <==> spans == []
    ensures samples != [] ==> spans[|spans| - 1].phase == samples[|samples| - 1].phase
  {
    if samples == [] then []
    else
      var before, s := Rle(samples[..|samples| - 1]), samples[|samples| - 1];
      if before != [] && before[|before| - 1].phase == s.phase
      then before[|before| - 1 := Lengthened(before[|before| - 1], s)]
      else before + [OneSample(s)]
  }

  lemma {:induction false} LengthenedSpans(span: PhaseSpan, samples: seq<FdrSample>, s: FdrSample)
    requires Spans(span, samples) && s.phase == span.phase
    ensures Spans(Lengthened(span, s), samples + [s])
  {
  }

  /** Stretches are put together one at a time. */
  lemma {:induction false} RleSnoc(head: seq<FdrSample>, spans: seq<PhaseSpan>, tail: seq<FdrSample>, span: PhaseSpan)
    requires IsRle(head, spans) && Spans(span, tail)
    requires spans != [] ==> spans[|spans| - 1].phase != span.phase
    ensures IsRle(head + tail, spans + [span])
  {
    var out := spans + [span];
    assert out[..|spans|] == spans;
    assert EndsWith(head + tail, head, tail, out[|spans|]);
  }

  /** What one more sample does to the encoding. */
  lemma {:induction false} RleStep(samples: seq<FdrSample>, s: FdrSample)
    ensures var before := Rle(samples);
            Rle(samples + [s]) ==
              if before != [] && before[|before| - 1].phase == s.phase
              then before[|before| - 1 := Lengthened(before[|before| - 1], s)]
              else before + [OneSample(s)]
  {
  }

  /** The encoding is one. */
  lemma {:induction false} RleIsRle(samples: seq<FdrSample>)
    ensures IsRle(samples, Rle(samples))
  {
    if samples != [] {
      var head, s := samples[..|samples| - 1], samples[|samples| - 1];
      RleIsRle(head);
      RleIsRleStep(head, s);
      assert samples == head + [s];
    }
  }

  lemma {:induction false} RleIsRleStep(samples: seq<FdrSample>, s: FdrSample)
    requires IsRle(samples, Rle(samples))
    ensures IsRle(samples + [s], Rle(samples + [s]))
  {
    var before := Rle(samples);
    RleStep(samples, s);
    if before != [] && before[|before| - 1].phase == s.phase {
      RleLengthens(samples, before, s);
    } else {
      RleSnoc(samples, before, [s], OneSample(s));
    }
  }

  lemma {:induction false} LastReplaced(spans: seq<PhaseSpan>, last: PhaseSpan)
    requires spans != []
    ensures spans[..|spans| - 1] + [last] == spans[|spans| - 1 := last]
  {
  }

  lemma {:induction false} RleLengthens(samples: seq<FdrSample>, spans: seq<PhaseSpan>, s: FdrSample)
    requires IsRle(samples, spans) && spans != [] && spans[|spans| - 1].phase == s.phase
    ensures IsRle(samples + [s], spans[|spans| - 1 := Lengthened(spans[|spans| - 1], s)])
  {
    var k := |spans| - 1;
    var longer := Lengthened(spans[k], s);
    var head, tail :| EndsWith(samples, head, tail, spans[k]) && IsRle(head, spans[..k]);
    LengthenedSpans(spans[k], tail, s);
    RleSnoc(head, spans[..k], tail + [s], longer);
    LastReplaced(spans, longer);
    assert head + (tail + [s]) == samples + [s];
  }

  /** The last span is about the last sample. */
  lemma {:induction false} LastPhase(samples: seq<FdrSample>, spans: seq<PhaseSpan>)
    requires IsRle(samples, spans) && samples != []
    ensures spans != [] && spans[|spans| - 1].phase == samples[|samples| - 1].phase
  {
  }

  /** Of two ways to cut off a last stretch, neither is the longer. */
  lemma {:induction false} NotLonger(head: seq<FdrSample>, tail: seq<FdrSample>, x: PhaseSpan,
                                     head': seq<FdrSample>, tail': seq<FdrSample>, y: PhaseSpan, before: seq<PhaseSpan>)
    requires head + tail == head' + tail' && Spans(x, tail) && Spans(y, tail')
    requires IsRle(head', before) && (before != [] ==> before[|before| - 1].phase != y.phase)
    ensures |tail| <= |tail'|
  {
    var all := head + tail;
    assert all[|all| - 1] == tail[|tail| - 1] && all[|all| - 1] == tail'[|tail'| - 1];
    if head' != [] {
      assert all[|head'| - 1] == head'[|head'| - 1];
      LastPhase(head', before);
    }
  }

  lemma {:induction false} SameSpan(x: PhaseSpan, y: PhaseSpan, samples: seq<FdrSample>)
    requires Spans(x, samples) && Spans(y, samples)
    ensures x == y
  {
  }

  /** And the only one. */
  lemma {:induction false} RleUnique(samples: seq<FdrSample>, a: seq<PhaseSpan>, b: seq<PhaseSpan>)
    requires IsRle(samples, a) && IsRle(samples, b)
    ensures a == b
    decreases |a|
  {
    if a != [] && b != [] {
      var m, n := |a| - 1, |b| - 1;
      var head, tail :| EndsWith(samples, head, tail, a[m]) && IsRle(head, a[..m]);
      var head', tail' :| EndsWith(samples, head', tail', b[n]) && IsRle(head', b[..n]);
      NotLonger(head, tail, a[m], head', tail', b[n], b[..n]);
      NotLonger(head', tail', b[n], head, tail, a[m], a[..m]);
      SameCut(samples, head, tail, head', tail');
      SameSpan(a[m], b[n], tail);
      RleUnique(head, a[..m], b[..n]);
      assert a == a[..m] + [a[m]] && b == b[..n] + [b[n]];
    }
  }

  lemma {:induction false} SameCut(samples: seq<FdrSample>, head: seq<FdrSample>, tail: seq<FdrSample>,
                                   head': seq<FdrSample>, tail': seq<FdrSample>)
    requires samples == head + tail && samples == head' + tail' && |tail| == |tail'|
    ensures head == head' && tail == tail'
  {
    assert head == samples[..|head|] && head' == samples[..|head|];
    assert tail == samples[|head|..] && tail' == samples[|head|..];
  }

  // ---------- spans under the cap ----------

  function Push(log: SpanLog, s: FdrSample): SpanLog {
    var n := |log.spans|;
    if n > 0 && log.spans[n - 1].phase == s.phase
    then log.(spans := log.spans[n - 1 := Lengthened(log.spans[n - 1], s)])
    else if n >= MAX_PHASE_SPANS then log.(truncated := log.truncated + 1)
    else log.(spans := log.spans + [OneSample(s)])
  }

  function Pushed(samples: seq<FdrSample>): SpanLog {
    if samples == [] then SpanLog([], 0) else Push(Pushed(samples[..|samples| - 1]), samples[|samples| - 1])
  }

  lemma {:induction false} PushedStep(samples: seq<FdrSample>, s: FdrSample)
    ensures Pushed(samples + [s]) == Push(Pushed(samples), s)
  {
  }

  function Total(spans: seq<PhaseSpan>): nat {
    if spans == [] then 0 else Total(spans[..|spans| - 1]) + spans[|spans| - 1].samples
  }

  lemma {:induction false} TotalSnoc(spans: seq<PhaseSpan>, span: PhaseSpan)
    ensures Total(spans + [span]) == Total(spans) + span.samples
  {
  }

  /** No sample is lost: what the spans count and what was truncated add up to all samples, within the cap. */
  lemma {:induction false} SamplesAreConserved(samples: seq<FdrSample>)
    ensures Total(Pushed(samples).spans) + Pushed(samples).truncated == |samples|
    ensures |Pushed(samples).spans| <= MAX_PHASE_SPANS
  {
    if samples != [] {
      var m := |samples| - 1;
      var log, s := Pushed(samples[..m]), samples[m];
      SamplesAreConserved(samples[..m]);
      var n := |log.spans|;
      if n > 0 && log.spans[n - 1].phase == s.phase {
        var longer := Lengthened(log.spans[n - 1], s);
        assert log.spans[n - 1 := longer] == log.spans[..n - 1] + [longer];
        TotalSnoc(log.spans[..n - 1], longer);
      } else if n < MAX_PHASE_SPANS {
        TotalSnoc(log.spans, OneSample(s));
      }
    }
  }

  lemma {:induction false} RleGrows(samples: seq<FdrSample>, k: nat)
    requires k <= |samples|
    ensures |Rle(samples[..k])| <= |Rle(samples)|
    decreases |samples|
  {
    if k == |samples| {
      assert samples[..k] == samples;
    } else {
      var n := |samples| - 1;
      assert samples[..n][..k] == samples[..k];
      RleGrows(samples[..n], k);
    }
  }

  /** While the phases make no more than the cap, the spans are their run-length encoding and nothing is truncated. */
  lemma {:induction false} SpansAreRle(samples: seq<FdrSample>)
    requires |Rle(samples)| <= MAX_PHASE_SPANS
    ensures Pushed(samples) == SpanLog(Rle(samples), 0)
  {
    if samples != [] {
      RleGrows(samples, |samples| - 1);
      SpansAreRle(samples[..|samples| - 1]);
    }
  }

  function InPhase(samples: seq<FdrSample>, phase: string): seq<FdrSample> {
    if samples == [] then []
    else
      var s := samples[|samples| - 1];
      InPhase(samples[..|samples| - 1], phase) + (if s.phase == phase then [s] else [])
  }

  function LengthenedBy(span: PhaseSpan, more: seq<FdrSample>): PhaseSpan {
    if more == [] then span else Lengthened(LengthenedBy(span, more[..|more| - 1]), more[|more| - 1])
  }

  /** Once the cap is reached the last span collects every later sample of its phase, next to it or not, and all
      others are counted as truncated. */
  lemma {:induction false} SpansPastTheCap(samples: seq<FdrSample>, more: seq<FdrSample>)
    requires |Rle(samples)| == MAX_PHASE_SPANS
    ensures |InPhase(more, Rle(samples)[MAX_PHASE_SPANS - 1].phase)| <= |more|
    ensures var spans := Rle(samples);
            var last := spans[MAX_PHASE_SPANS - 1];
            var later := InPhase(more, last.phase);
            Pushed(samples + more) ==
              SpanLog(spans[MAX_PHASE_SPANS - 1 := LengthenedBy(last, later)], |more| - |later|)
    decreases |more|
  {
    var spans := Rle(samples);
    var last := spans[MAX_PHASE_SPANS - 1];
    if more == [] {
      assert samples + more == samples;
      SpansAreRle(samples);
      assert spans[MAX_PHASE_SPANS - 1 := last] == spans;
    } else {
      var m := |more| - 1;
      SpansPastTheCap(samples, more[..m]);
      assert (samples + more)[..|samples + more| - 1] == samples + more[..m];
      LastSpanPhase(last, InPhase(more[..m], last.phase));
      CollectStep(spans, last, more);
    }
  }

  lemma {:induction false} LastSpanPhase(span: PhaseSpan, more: seq<FdrSample>)
    ensures LengthenedBy(span, more).phase == span.phase
  {
    if more != [] { LastSpanPhase(span, more[..|more| - 1]); }
  }

  lemma {:induction false} CollectStep(spans: seq<PhaseSpan>, last: PhaseSpan, more: seq<FdrSample>)
    requires |spans| == MAX_PHASE_SPANS && more != []
    requires var m := |more| - 1; |InPhase(more[..m], last.phase)| <= m
    requires LengthenedBy(last, InPhase(more[..|more| - 1], last.phase)).phase == last.phase
    ensures var m := |more| - 1;
            var before, after := InPhase(more[..m], last.phase), InPhase(more, last.phase);
            && |after| <= |more|
            && Push(SpanLog(spans[MAX_PHASE_SPANS - 1 := LengthenedBy(last, before)], m - |before|), more[m]) ==
               SpanLog(spans[MAX_PHASE_SPANS - 1 := LengthenedBy(last, after)], |more| - |after|)
  {
    var m := |more| - 1;
    var before, after := InPhase(more[..m], last.phase), InPhase(more, last.phase);
    if more[m].phase == last.phase {
      assert after[..|after| - 1] == before && after[|after| - 1] == more[m];
    } else {
      assert after == before;
    }
  }

  // ---------- gaps ----------

  function ForwardStep(samples: seq<FdrSample>, i: nat): nat
    requires 0 < i < |samples|
  {
    if samples[i].ms > samples[i - 1].ms then samples[i].ms - samples[i - 1].ms else 0
  }

  /** The largest forward step between neighbouring samples; equal or lower stamps are no gap. */
  ghost predicate IsMaxGap(samples: seq<FdrSample>, gap: nat) {
    && (forall i :: 0 < i < |samples| ==> ForwardStep(samples, i) <= gap)
    && (gap == 0 || exists i :: 0 < i < |samples| && ForwardStep(samples, i) == gap)
  }

  /** How many forward steps exceed the threshold. */
  function LongSteps(samples: seq<FdrSample>): nat {
    if |samples| < 2 then 0
    else
      var n := |samples| - 1;
      LongSteps(samples[..n]) + if ForwardStep(samples, n) > GAP_REPORT_THRESHOLD_MS then 1 else 0
  }

  ghost predicate GapsAre(samples: seq<FdrSample>, gaps: GapStats) {
    IsMaxGap(samples, gaps.maxGapMs) && gaps.overThreshold == LongSteps(samples)
  }

  function LastGap(samples: seq<FdrSample>, s: FdrSample): nat {
    if samples == [] || s.ms <= samples[|samples| - 1].ms then 0 else s.ms - samples[|samples| - 1].ms
  }

  lemma {:induction false} StepsKept(samples: seq<FdrSample>, s: FdrSample, i: nat)
    requires 0 < i <= |samples|
    ensures ForwardStep(samples + [s], i) == if i < |samples| then ForwardStep(samples, i) else LastGap(samples, s)
  {
  }

  lemma {:induction false} MaxGapStep(samples: seq<FdrSample>, s: FdrSample, max: nat)
    requires IsMaxGap(samples, max)
    ensures IsMaxGap(samples + [s], if LastGap(samples, s) > max then LastGap(samples, s) else max)
  {
    var all, n := samples + [s], |samples|;
    var top := if LastGap(samples, s) > max then LastGap(samples, s) else max;
    forall i | 0 < i < |all| ensures ForwardStep(all, i) <= top { StepsKept(samples, s, i); }
    if top == max && max > 0 {
      var i :| 0 < i < n && ForwardStep(samples, i) == max;
      StepsKept(samples, s, i);
    } else if top > 0 {
      StepsKept(samples, s, n);
    }
  }

  lemma {:induction false} GapStep(samples: seq<FdrSample>, s: FdrSample, gaps: GapStats)
    requires GapsAre(samples, gaps)
    ensures var gap := LastGap(samples, s);
            GapsAre(samples + [s], GapStats(if gap > gaps.maxGapMs then gap else gaps.maxGapMs,
                                            gaps.overThreshold + if gap > GAP_REPORT_THRESHOLD_MS then 1 else 0))
  {
    MaxGapStep(samples, s, gaps.maxGapMs);
    assert (samples + [s])[..|samples|] == samples;
  }

  /** The sample comes more than five seconds after the one before it. */
  predicate ComesLate(samples: seq<FdrSample>, i: nat)
    requires i < |samples|
  {
    i > 0 && samples[i].ms > samples[i - 1].ms + 5000
  }

  function LatePlaces(samples: seq<FdrSample>): set<nat> {
    set i: nat | i < |samples| && ComesLate(samples, i)
  }

  lemma LongStepsSnoc(samples: seq<FdrSample>)
    requires samples != []
    ensures var n := |samples| - 1;
            LatePlaces(samples) == LatePlaces(samples[..n]) + if ComesLate(samples, n) then {n} else {}
  {
    var n := |samples| - 1;
    forall i: nat | i < n ensures ComesLate(samples, i) == ComesLate(samples[..n], i) {}
  }

  /** In figures: no sample comes later after the one before it than the largest gap says, one does come just so late if
      there is any gap, and the long ones are those of more than five seconds. */
  lemma {:induction false} GapsInFigures(samples: seq<FdrSample>, gaps: GapStats)
    requires GapsAre(samples, gaps)
    ensures forall i, j :: 0 <= i < j < |samples| && j == i + 1 ==> samples[j].ms <= samples[i].ms + gaps.maxGapMs
    ensures gaps.maxGapMs > 0 ==>
              exists i, j :: 0 <= i < j < |samples| && j == i + 1 && samples[j].ms == samples[i].ms + gaps.maxGapMs
    ensures gaps.overThreshold == |LatePlaces(samples)|
  {
    LongStepsAreCounted(samples);
    forall i, j | 0 <= i < j < |samples| && j == i + 1 ensures samples[j].ms <= samples[i].ms + gaps.maxGapMs {
      assert ForwardStep(samples, j) <= gaps.maxGapMs;
    }
    if gaps.maxGapMs > 0 {
      var j :| 0 < j < |samples| && ForwardStep(samples, j) == gaps.maxGapMs;
      var i := j - 1;
      assert samples[j].ms == samples[i].ms + gaps.maxGapMs;
    }
  }

  lemma {:induction false} LongStepsAreCounted(samples: seq<FdrSample>)
    ensures LongSteps(samples) == |LatePlaces(samples)|
    decreases |samples|
  {
    if samples != [] {
      LongStepsAreCounted(samples[..|samples| - 1]);
      LongStepsSnoc(samples);
    }
  }

  // ---------- channel quality ----------

  /** The annotations of one sample: the channels that are not fresh. */
  type Notes = map<nat, DataQuality>

  /** Occurrences by channel and quality. */
  type QualityCounts = map<nat, map<DataQuality, nat>>

  function Count(counts: QualityCounts, channel: nat, q: DataQuality): nat {
    if channel in counts && q in counts[channel] then counts[channel][q] else 0
  }

  predicate Annotates(notes: Notes, channel: nat, q: DataQuality) {
    channel in notes && notes[channel] == q
  }

  /** How many samples annotate the channel with this quality. */
  function Occurrences(all: seq<Notes>, channel: nat, q: DataQuality): nat {
    if all == [] then 0
    else
      var n := |all| - 1;
      Occurrences(all[..n], channel, q) + if Annotates(all[n], channel, q) then 1 else 0
  }

  ghost predicate QualityIs(all: seq<Notes>, counts: QualityCounts) {
    forall channel, q :: Count(counts, channel, q) == Occurrences(all, channel, q)
  }

  /** One more occurrence for each annotation. */
  ghost predicate Annotated(before: QualityCounts, notes: Notes, after: QualityCounts) {
    forall channel, q ::
      Count(after, channel, q) == Count(before, channel, q) + if Annotates(notes, channel, q) then 1 else 0
  }

  function Unannotated(all: seq<Notes>, channel: nat): nat {
    if all == [] then 0
    else
      var n := |all| - 1;
      Unannotated(all[..n], channel) + if channel in all[n] then 0 else 1
  }

  /** The samples in which a channel was fresh for want of an annotation are all but the annotated ones. */
  lemma {:induction false} FreshIsDerivable(all: seq<Notes>, channel: nat, counts: QualityCounts)
    requires QualityIs(all, counts)
    ensures Unannotated(all, channel) ==
            |all| - Count(counts, channel, Fresh) - Count(counts, channel, WarmingUp)
              - Count(counts, channel, Stale) - Count(counts, channel, Missing) - Count(counts, channel, Invalid)
  {
    OccurrencesAdd(all, channel);
  }

  lemma {:induction false} OccurrencesAdd(all: seq<Notes>, channel: nat)
    ensures |all| == Unannotated(all, channel) + Occurrences(all, channel, Fresh)
              + Occurrences(all, channel, WarmingUp) + Occurrences(all, channel, Stale)
              + Occurrences(all, channel, Missing) + Occurrences(all, channel, Invalid)
  {
    if all != [] { OccurrencesAdd(all[..|all| - 1], channel); }
  }

  /** The samples whose annotations give the channel this quality. */
  function PlacesOf(all: seq<Notes>, channel: nat, q: DataQuality): set<nat> {
    set i: nat | i < |all| && channel in all[i] && all[i][channel] == q
  }

  /** In figures: every count is the number of samples so annotated. */
  lemma {:induction false} QualityInFigures(all: seq<Notes>, counts: QualityCounts, channel: nat, q: DataQuality)
    requires QualityIs(all, counts)
    ensures Count(counts, channel, q) == |PlacesOf(all, channel, q)|
  {
    OccurrencesAreCounted(all, channel, q);
  }

  lemma {:induction false} OccurrencesAreCounted(all: seq<Notes>, channel: nat, q: DataQuality)
    ensures Occurrences(all, channel, q) == |PlacesOf(all, channel, q)|
    decreases |all|
  {
    if all != [] {
      var n := |all| - 1;
      OccurrencesAreCounted(all[..n], channel, q);
      assert PlacesOf(all, channel, q) ==
             PlacesOf(all[..n], channel, q) + if Annotates(all[n], channel, q) then {n} else {};
    }
  }

  lemma QualityStep(all: seq<Notes>, notes: Notes, before: QualityCounts, after: QualityCounts)
    requires QualityIs(all, before) && Annotated(before, notes, after)
    ensures QualityIs(all + [notes], after)
  {
    assert (all + [notes])[..|all|] == all;
  }

  // ---------- the landing window ----------

  function LastOf(samples: seq<FdrSample>, capacity: nat): seq<FdrSample> {
    if |samples| <= capacity then samples else samples[|samples| - capacity..]
  }

  /** The window holds the latest samples, as many as there is room for. */
  lemma WindowIsTheEnd(samples: seq<FdrSample>, capacity: nat) returns (front: seq<FdrSample>)
    ensures samples == front + LastOf(samples, capacity)
    ensures |LastOf(samples, capacity)| == if |samples| < capacity then |samples| else capacity
  {
    front := samples[..|samples| - |LastOf(samples, capacity)|];
  }

  /** Number and time of the first and of the last sample. */
  predicate Ends(samples: seq<FdrSample>, firstSeq: Option<nat>, firstMs: Option<nat>,
                 lastSeq: Option<nat>, lastMs: Option<nat>) {
    if samples == [] then firstSeq.None? && firstMs.None? && lastSeq.None? && lastMs.None?
    else
      && firstSeq == Some(samples[0].seqNo) && firstMs == Some(samples[0].ms)
      && lastSeq == Some(samples[|samples| - 1].seqNo) && lastMs == Some(samples[|samples| - 1].ms)
  }

  // ---------- the summarizer ----------

  /** Everything the summarizer holds. */
  datatype Tally = Tally(
    count: nat, firstSeq: Option<nat>, lastSeq: Option<nat>, firstMs: Option<nat>, lastMs: Option<nat>,
    log: SpanLog, gaps: GapStats, quality: QualityCounts, window: seq<FdrSample>)

  /** What it should hold after these samples with these annotations. */
  ghost predicate Summarises(samples: seq<FdrSample>, notes: seq<Notes>, t: Tally) {
    && t.count == |samples| == |notes|
    && Ends(samples, t.firstSeq, t.firstMs, t.lastSeq, t.lastMs)
    && t.log == Pushed(samples)
    && GapsAre(samples, t.gaps)
    && QualityIs(notes, t.quality)
    && t.window == LastOf(samples, LANDING_WINDOW_SAMPLES)
  }

  function Gapped(gaps: GapStats, lastMs: Option<nat>, s: FdrSample): GapStats {
    var gap := if lastMs.Some? && s.ms > lastMs.value then s.ms - lastMs.value else 0;
    GapStats(if gap > gaps.maxGapMs then gap else gaps.maxGapMs,
             gaps.overThreshold + if gap > GAP_REPORT_THRESHOLD_MS then 1 else 0)
  }

  function Slid(window: seq<FdrSample>, s: FdrSample): seq<FdrSample> {
    (if |window| == LANDING_WINDOW_SAMPLES then window[1..] else window) + [s]
  }

  /** What one sample does. */
  ghost predicate Noted(t: Tally, s: FdrSample, notes: Notes, u: Tally) {
    && u.count == t.count + 1
    && u.firstSeq == (if t.firstSeq.None? then Some(s.seqNo) else t.firstSeq) && u.lastSeq == Some(s.seqNo)
    && u.firstMs == (if t.firstSeq.None? then Some(s.ms) else t.firstMs) && u.lastMs == Some(s.ms)
    && u.log == Push(t.log, s) && u.gaps == Gapped(t.gaps, t.lastMs, s)
    && Annotated(t.quality, notes, u.quality) && u.window == Slid(t.window, s)
  }

  lemma NotedSummarises(samples: seq<FdrSample>, all: seq<Notes>, t: Tally, s: FdrSample, notes: Notes, u: Tally)
    requires Summarises(samples, all, t) && Noted(t, s, notes, u)
    ensures Summarises(samples + [s], all + [notes], u)
  {
    PushedStep(samples, s);
    GapStep(samples, s, t.gaps);
    QualityStep(all, notes, t.quality, u.quality);
    WindowStep(samples, s);
  }

  lemma WindowStep(samples: seq<FdrSample>, s: FdrSample)
    ensures Slid(LastOf(samples, LANDING_WINDOW_SAMPLES), s) == LastOf(samples + [s], LANDING_WINDOW_SAMPLES)
  {
  }

  class SessionSummarizer {
    var sampleCount: nat
    var firstSeq: Option<nat>
    var lastSeq: Option<nat>
    var firstMs: Option<nat>
    var lastMs: Option<nat>
    var spans: seq<PhaseSpan>
    var truncated: nat
    var gaps: GapStats
    var quality: QualityCounts
    var window: seq<FdrSample>
    ghost var fed: seq<FdrSample>
    ghost var notes: seq<Notes>

    ghost function State(): Tally
      reads this
    {
      Tally(sampleCount, firstSeq, lastSeq, firstMs, lastMs, SpanLog(spans, truncated), gaps, quality, window)
    }

    ghost predicate Valid()
      reads this
    {
      Summarises(fed, notes, State())
    }

    constructor ()
      ensures Valid() && fed == [] && notes == []
    {
      sampleCount, firstSeq, lastSeq, firstMs, lastMs := 0, None, None, None, None;
      spans, truncated, gaps, quality, window := [], 0, GapStats(0, 0), map[], [];
      fed, notes := [], [];
    }

    method NoteGap(s: FdrSample)
      modifies this`gaps
      ensures gaps == Gapped(old(gaps), lastMs, s)
    {
      if lastMs.Some? && s.ms > lastMs.value {
        var gap := s.ms - lastMs.value;
        if gap > gaps.maxGapMs {
          gaps := gaps.(maxGapMs := gap);
        }
        if gap > GAP_REPORT_THRESHOLD_MS {
          gaps := gaps.(overThreshold := gaps.overThreshold + 1);
        }
      }
    }

    method NotePhase(s: FdrSample)
      modifies this`spans, this`truncated
      ensures SpanLog(spans, truncated) == Push(old(SpanLog(spans, truncated)), s)
    {
      var atCap := |spans| >= MAX_PHASE_SPANS;
      if spans != [] && spans[|spans| - 1].phase == s.phase {
        var span := spans[|spans| - 1];
        spans := spans[|spans| - 1 := span.(lastSeq := s.seqNo, lastMs := s.ms, samples := span.samples + 1)];
      } else if atCap {
        truncated := truncated + 1;
      } else {
        spans := spans + [PhaseSpan(s.phase, s.seqNo, s.seqNo, s.ms, s.ms, 1)];
      }
    }

    /** One more occurrence for every annotated channel, in whatever order they come. */
    method NoteQuality(marks: Notes)
      modifies this`quality
      ensures Annotated(old(quality), marks, quality)
    {
      ghost var before := quality;
      var left := marks.Keys;
      while left != {}
        invariant left <= marks.Keys
        invariant forall channel, q ::
                    Count(quality, channel, q) ==
                    Count(before, channel, q) + if Annotates(marks, channel, q) && channel !in left then 1 else 0
      {
        var channel :| channel in left;
        var entry := if channel in quality then quality[channel] else map[];
        var q := marks[channel];
        quality := quality[channel := entry[q := 1 + if q in entry then entry[q] else 0]];
        left := left - {channel};
      }
    }

    method NoteWindow(s: FdrSample)
      modifies this`window
      ensures window == Slid(old(window), s)
    {
      if |window| == LANDING_WINDOW_SAMPLES {
        window := window[1..];
      }
      window := window + [s];
    }

    method NoteTimes(s: FdrSample)
      modifies this`firstSeq, this`firstMs, this`lastSeq, this`lastMs, this`gaps
      ensures firstSeq == (if old(firstSeq).None? then Some(s.seqNo) else old(firstSeq)) && lastSeq == Some(s.seqNo)
      ensures firstMs == (if old(firstSeq).None? then Some(s.ms) else old(firstMs)) && lastMs == Some(s.ms)
      ensures gaps == Gapped(old(gaps), old(lastMs), s)
    {
      if firstSeq.None? {
        firstSeq, firstMs := Some(s.seqNo), Some(s.ms);
      }
      lastSeq := Some(s.seqNo);
      NoteGap(s);
      lastMs := Some(s.ms);
    }

    /** The fields one by one, in the order of the source. */
    method Note(s: FdrSample, marks: Notes)
      modifies this
      ensures Noted(old(State()), s, marks, State()) && fed == old(fed) && notes == old(notes)
    {
      NoteTimes(s);
      NotePhase(s);
      NoteQuality(marks);
      NoteWindow(s);
      sampleCount := sampleCount + 1;
    }

    /** `marks` are the channel annotations that come with the sample. */
    method PushSample(s: FdrSample, marks: Notes)
      requires Valid()
      modifies this
      ensures Valid() && fed == old(fed) + [s] && notes == old(notes) + [marks]
    {
      ghost var before := State();
      Note(s, marks);
      NotedSummarises(fed, notes, before, s, marks, State());
      fed, notes := fed + [s], notes + [marks];
    }
  }

  // ---------- the debrief timeline ----------

  datatype TimelineSpan = TimelineSpan(phase: string, enteredMs: nat, exitedMs: Option<nat>, samples: nat)

  /** The timeline a run-length encoding stands for: each span is left when the next is entered. */
  ghost predicate Tells(timeline: seq<TimelineSpan>, spans: seq<PhaseSpan>) {
    && |timeline| == |spans|
    && forall i {:trigger timeline[i]} :: 0 <= i < |spans| ==>
         timeline[i] == TimelineSpan(spans[i].phase, spans[i].firstMs,
                                     if i + 1 < |spans| then Some(spans[i + 1].firstMs) else None, spans[i].samples)
  }

  /** One more sample: the timeline and the encoding move on together. */
  lemma {:induction false} TellsLonger(timeline: seq<TimelineSpan>, samples: seq<FdrSample>, s: FdrSample)
    requires Tells(timeline, Rle(samples)) && timeline != [] && timeline[|timeline| - 1].phase == s.phase
    ensures var n := |timeline| - 1;
            Tells(timeline[n := timeline[n].(samples := timeline[n].samples + 1)], Rle(samples + [s]))
  {
  }

  lemma {:induction false} TellsNew(timeline: seq<TimelineSpan>, samples: seq<FdrSample>, s: FdrSample)
    requires Tells(timeline, Rle(samples)) && (timeline == [] || timeline[|timeline| - 1].phase != s.phase)
    ensures var n := |timeline|;
            var left := if n == 0 then timeline else timeline[n - 1 := timeline[n - 1].(exitedMs := Some(s.ms))];
            Tells(left + [TimelineSpan(s.phase, s.ms, None, 1)], Rle(samples + [s]))
  {
  }

  function Stamps(samples: seq<FdrSample>): seq<(nat, string)> {
    seq(|samples|, i requires 0 <= i < |samples| => (samples[i].ms, samples[i].phase))
  }

  /** The timeline of time-stamped phases is the one their run-length encoding tells. */
  method PhaseTimeline(stamps: seq<(nat, string)>, ghost samples: seq<FdrSample>) returns (timeline: seq<TimelineSpan>)
    requires stamps == Stamps(samples)
    ensures Tells(timeline, Rle(samples))
  {
    timeline := [];
    for k := 0 to |stamps|
      invariant Tells(timeline, Rle(samples[..k]))
    {
      var (ts, phase) := stamps[k];
      assert samples[..k + 1] == samples[..k] + [samples[k]];
      var n := |timeline|;
      if n > 0 && timeline[n - 1].phase == phase {
        TellsLonger(timeline, samples[..k], samples[k]);
      } else {
        TellsNew(timeline, samples[..k], samples[k]);
      }
      if n > 0 && timeline[n - 1].phase == phase {
        timeline := timeline[n - 1 := timeline[n - 1].(samples := timeline[n - 1].samples + 1)];
      } else {
        if n > 0 {
          timeline := timeline[n - 1 := timeline[n - 1].(exitedMs := Some(ts))];
        }
        timeline := timeline + [TimelineSpan(phase, ts, None, 1)];
      }
    }
    assert samples[..|stamps|] == samples;
  }

  predicate Agrees(span: PhaseSpan, told: TimelineSpan) {
    span.phase == told.phase && span.firstMs == told.enteredMs && span.samples == told.samples
  }

  /** Below the cap the summarizer's spans and the timeline agree in phase, entry time and sample count. */
  lemma {:induction false} SummaryMatchesTimeline(samples: seq<FdrSample>, timeline: seq<TimelineSpan>)
    requires Tells(timeline, Rle(samples)) && |timeline| <= MAX_PHASE_SPANS
    ensures |Pushed(samples).spans| == |timeline| && Pushed(samples).truncated == 0
    ensures forall i :: 0 <= i < |timeline| ==> Agrees(Pushed(samples).spans[i], timeline[i])
  {
    SpansAreRle(samples);
    forall i | 0 <= i < |timeline| ensures Agrees(Rle(samples)[i], timeline[i]) {
      assert timeline[i].phase == Rle(samples)[i].phase;
    }
  }
}
