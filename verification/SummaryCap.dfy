/** When the spans of a summary are contiguous stretches of the recording, and when the last one is not. */
module SummaryCap {
  import opened Actions
  import opened Recording
  import opened Summary

  const LAST: nat := MAX_PHASE_SPANS - 1

  /** The span describes the samples from position `a` up to some later one. */
  ghost predicate StretchFrom(span: PhaseSpan, samples: seq<FdrSample>, a: nat) {
    exists b :: a < b <= |samples| && Spans(span, samples[a..b])
  }

  /** The span is one contiguous stretch of the samples. */
  ghost predicate OneStretch(span: PhaseSpan, samples: seq<FdrSample>) {
    exists a: nat :: StretchFrom(span, samples, a)
  }

  /** No sample of the phase stands behind one of another phase. */
  predicate Unbroken(more: seq<FdrSample>, phase: string) {
    forall i, j :: 0 <= i < j < |more| && more[j].phase == phase ==> more[i].phase == phase
  }

  /** Samples carry increasing numbers, as the recorder gives them out. */
  predicate Numbered(samples: seq<FdrSample>) {
    forall i, j :: 0 <= i < j < |samples| ==> samples[i].seqNo < samples[j].seqNo
  }

  // ---------- the samples of one phase ----------

  lemma {:induction false} InPhaseConcat(a: seq<FdrSample>, b: seq<FdrSample>, phase: string)
    ensures InPhase(a + b, phase) == InPhase(a, phase) + InPhase(b, phase)
    decreases |b|
  {
    if b == [] {
      assert a + b == a;
    } else {
      var n := |b| - 1;
      assert (a + b)[..|a + b| - 1] == a + b[..n];
      InPhaseConcat(a, b[..n], phase);
    }
  }

  lemma {:induction false} InPhaseLength(samples: seq<FdrSample>, phase: string)
    ensures |InPhase(samples, phase)| <= |samples|
    ensures |InPhase(samples, phase)| == |samples| <==> AllIn(samples, phase)
    ensures |InPhase(samples, phase)| == 0 <==> NoneIn(samples, phase)
  {
    FullIff(samples, phase);
    EmptyIff(samples, phase);
  }

  lemma {:induction false} FullIff(samples: seq<FdrSample>, phase: string)
    ensures |InPhase(samples, phase)| <= |samples|
    ensures |InPhase(samples, phase)| == |samples| <==> AllIn(samples, phase)
    decreases |samples|
  {
    if samples != [] {
      var n := |samples| - 1;
      FullIff(samples[..n], phase);
      assert AllIn(samples, phase) <==> AllIn(samples[..n], phase) && samples[n].phase == phase;
    }
  }

  lemma {:induction false} EmptyIff(samples: seq<FdrSample>, phase: string)
    ensures |InPhase(samples, phase)| == 0 <==> NoneIn(samples, phase)
    decreases |samples|
  {
    if samples != [] {
      var n := |samples| - 1;
      EmptyIff(samples[..n], phase);
      assert NoneIn(samples, phase) <==> NoneIn(samples[..n], phase) && samples[n].phase != phase;
    }
  }

  predicate NoneIn(samples: seq<FdrSample>, phase: string) {
    forall i :: 0 <= i < |samples| ==> samples[i].phase != phase
  }

  lemma {:induction false} InPhaseAll(samples: seq<FdrSample>, phase: string)
    requires AllIn(samples, phase)
    ensures InPhase(samples, phase) == samples
    decreases |samples|
  {
    if samples != [] {
      var n := |samples| - 1;
      InPhaseAll(samples[..n], phase);
      LastApart(samples);
    }
  }

  lemma LastApart<T>(xs: seq<T>)
    requires xs != []
    ensures var n := |xs| - 1; xs == xs[..n] + [xs[n]]
  {
  }

  /** The samples of a phase come first, all together, exactly when none stands behind another phase. */
  lemma {:induction false} UnbrokenIff(more: seq<FdrSample>, phase: string)
    ensures |InPhase(more, phase)| <= |more|
    ensures Unbroken(more, phase) <==> AllIn(more[..|InPhase(more, phase)|], phase)
  {
    InPhaseLength(more, phase);
    if Unbroken(more, phase) { UnbrokenComesFirst(more, phase); }
    if AllIn(more[..|InPhase(more, phase)|], phase) { NoneBehind(more, phase); }
  }

  lemma {:induction false} UnbrokenComesFirst(more: seq<FdrSample>, phase: string)
    requires Unbroken(more, phase)
    ensures InPhase(more, phase) <= more && AllIn(InPhase(more, phase), phase)
    decreases |more|
  {
    if more != [] {
      var n := |more| - 1;
      if more[n].phase == phase {
        InPhaseAll(more, phase);
      } else {
        UnbrokenComesFirst(more[..n], phase);
        assert InPhase(more, phase) == InPhase(more[..n], phase);
      }
    }
  }

  lemma {:induction false} NoneBehind(more: seq<FdrSample>, phase: string)
    requires |InPhase(more, phase)| <= |more| && AllIn(more[..|InPhase(more, phase)|], phase)
    ensures Unbroken(more, phase)
  {
    var k := |InPhase(more, phase)|;
    var front, back := more[..k], more[k..];
    assert more == front + back;
    InPhaseConcat(front, back, phase);
    InPhaseLength(front, phase);
    InPhaseLength(back, phase);
    forall j | k <= j < |more| ensures more[j].phase != phase {
      assert more[j] == back[j - k];
    }
    forall i | 0 <= i < k ensures more[i].phase == phase {
      assert more[i] == front[i];
    }
  }

  // ---------- the last span past the cap ----------

  lemma {:induction false} LengthenedByMeans(span: PhaseSpan, more: seq<FdrSample>)
    ensures var l := LengthenedBy(span, more);
            && l.phase == span.phase && l.firstSeq == span.firstSeq && l.firstMs == span.firstMs
            && l.samples == span.samples + |more|
            && (more == [] ==> l == span)
            && (more != [] ==> l.lastSeq == more[|more| - 1].seqNo && l.lastMs == more[|more| - 1].ms)
    decreases |more|
  {
    if more != [] { LengthenedByMeans(span, more[..|more| - 1]); }
  }

  /** The stretch of samples behind the last span of the encoding. */
  lemma {:induction false} LastStretch(samples: seq<FdrSample>) returns (head: seq<FdrSample>, tail: seq<FdrSample>)
    requires samples != []
    ensures EndsWith(samples, head, tail, Rle(samples)[|Rle(samples)| - 1])
  {
    RleIsRle(samples);
    var spans := Rle(samples);
    head, tail :| EndsWith(samples, head, tail, spans[|spans| - 1]) && IsRle(head, spans[..|spans| - 1]);
  }

  /** A span lengthened by the samples of its phase is one stretch from where it began exactly when they come first. */
  lemma {:induction false} LengthenedIsStretchIff(
      head: seq<FdrSample>, tail: seq<FdrSample>, more: seq<FdrSample>, span: PhaseSpan)
    requires Spans(span, tail)
    ensures StretchFrom(LengthenedBy(span, InPhase(more, span.phase)), head + tail + more, |head|)
            <==> Unbroken(more, span.phase)
  {
    UnbrokenIff(more, span.phase);
    if Unbroken(more, span.phase) { LengthenedIsStretch(head, tail, more, span); }
    if StretchFrom(LengthenedBy(span, InPhase(more, span.phase)), head + tail + more, |head|) {
      StretchIsLengthened(head, tail, more, span);
    }
  }

  lemma {:induction false} LengthenedIsStretch(
      head: seq<FdrSample>, tail: seq<FdrSample>, more: seq<FdrSample>, span: PhaseSpan)
    requires Spans(span, tail) && Unbroken(more, span.phase)
    ensures StretchFrom(LengthenedBy(span, InPhase(more, span.phase)), head + tail + more, |head|)
  {
    var later := InPhase(more, span.phase);
    UnbrokenComesFirst(more, span.phase);
    LengthenedByMeans(span, later);
    var b := |head| + |tail| + |later|;
    assert (head + tail + more)[|head|..b] == tail + later;
    assert Spans(LengthenedBy(span, later), tail + later);
  }

  lemma {:induction false} StretchIsLengthened(
      head: seq<FdrSample>, tail: seq<FdrSample>, more: seq<FdrSample>, span: PhaseSpan)
    requires Spans(span, tail)
    requires StretchFrom(LengthenedBy(span, InPhase(more, span.phase)), head + tail + more, |head|)
    ensures |InPhase(more, span.phase)| <= |more| && AllIn(more[..|InPhase(more, span.phase)|], span.phase)
  {
    var later, all := InPhase(more, span.phase), head + tail + more;
    LengthenedByMeans(span, later);
    InPhaseLength(more, span.phase);
    var e :| |head| < e <= |all| && Spans(LengthenedBy(span, later), all[|head|..e]);
    assert all[|head|..e] == tail + more[..|later|];
    assert AllIn(tail + more[..|later|], span.phase);
    forall i | 0 <= i < |later| ensures more[..|later|][i].phase == span.phase {
      assert (tail + more[..|later|])[|tail| + i] == more[i];
    }
  }

  /** Once the cap is reached, the last span is still one stretch of the recording if and only if no sample of its phase
      has come behind one of another phase. */
  lemma {:induction false} ContiguousPastTheCapIff(samples: seq<FdrSample>, more: seq<FdrSample>)
    requires |Rle(samples)| == MAX_PHASE_SPANS
    ensures |Pushed(samples + more).spans| == MAX_PHASE_SPANS && Rle(samples)[LAST].samples <= |samples|
    ensures var all := samples + more;
            var span := Pushed(all).spans[LAST];
            && (StretchFrom(span, all, |samples| - Rle(samples)[LAST].samples) <==> Unbroken(more, span.phase))
            && (Numbered(all) ==> (OneStretch(span, all) <==> Unbroken(more, span.phase)))
  {
    var all := samples + more;
    var last := Rle(samples)[LAST];
    var head, tail := LastStretch(samples);
    SpansPastTheCap(samples, more);
    LengthenedByMeans(last, InPhase(more, last.phase));
    LengthenedIsStretchIff(head, tail, more, last);
    assert head + tail + more == all;
    if Numbered(all) { OneWayToStretch(Pushed(all).spans[LAST], all, |head|); }
  }

  /** In a numbered recording a span can only be the stretch that begins with its first number. */
  lemma OneWayToStretch(span: PhaseSpan, all: seq<FdrSample>, a: nat)
    requires Numbered(all) && a < |all| && all[a].seqNo == span.firstSeq
    ensures OneStretch(span, all) <==> StretchFrom(span, all, a)
  {
    if OneStretch(span, all) {
      var b: nat :| StretchFrom(span, all, b);
      assert all[b].seqNo == all[a].seqNo;
    }
  }

  // ---------- every span of every recording ----------

  /** All spans of an encoding are stretches. */
  lemma {:induction false} RleSpansAreStretches(samples: seq<FdrSample>, spans: seq<PhaseSpan>, i: nat)
    requires IsRle(samples, spans) && i < |spans|
    ensures OneStretch(spans[i], samples)
    decreases |spans|
  {
    var n := |spans| - 1;
    var head, tail :| EndsWith(samples, head, tail, spans[n]) && IsRle(head, spans[..n]);
    if i == n {
      assert samples[|head|..|samples|] == tail;
      assert StretchFrom(spans[i], samples, |head|);
    } else {
      RleSpansAreStretches(head, spans[..n], i);
      StretchKept(spans[i], head, tail);
    }
  }

  lemma {:induction false} StretchKept(span: PhaseSpan, samples: seq<FdrSample>, more: seq<FdrSample>)
    requires OneStretch(span, samples)
    ensures OneStretch(span, samples + more)
  {
    var a: nat :| StretchFrom(span, samples, a);
    var b :| a < b <= |samples| && Spans(span, samples[a..b]);
    SameSlice(samples, more, a, b);
    assert StretchFrom(span, samples + more, a);
  }

  lemma SameSlice<T>(xs: seq<T>, more: seq<T>, a: nat, b: nat)
    requires a <= b <= |xs|
    ensures (xs + more)[a..b] == xs[a..b]
  {
  }

  /** A recording of more runs than the cap reaches it at some sample. */
  lemma {:induction false} ReachesTheCap(samples: seq<FdrSample>) returns (k: nat)
    requires |Rle(samples)| >= MAX_PHASE_SPANS
    ensures k <= |samples| && |Rle(samples[..k])| == MAX_PHASE_SPANS
    decreases |samples|
  {
    var n := |samples| - 1;
    if |Rle(samples)| == MAX_PHASE_SPANS {
      k := |samples|;
      assert samples[..k] == samples;
    } else {
      k := ReachesTheCap(samples[..n]);
      assert samples[..n][..k] == samples[..k];
    }
  }

  ghost predicate AllStretches(samples: seq<FdrSample>) {
    forall i :: 0 <= i < |Pushed(samples).spans| ==> OneStretch(Pushed(samples).spans[i], samples)
  }

  /** From the sample on that reached the cap, the phase of the last span is not left and taken up again. */
  predicate StaysWithinTheCap(samples: seq<FdrSample>) {
    forall k :: 0 < k <= |samples| && |Rle(samples[..k])| == MAX_PHASE_SPANS ==>
      Unbroken(samples[k..], samples[k - 1].phase)
  }

  /** Every span of a summary is one contiguous stretch of the recording, as its name says, exactly when the phase of
      the last span the cap allows is never left and taken up again. */
  lemma {:induction false} SpansAreContiguousIff(samples: seq<FdrSample>)
    requires Numbered(samples)
    ensures AllStretches(samples) <==> StaysWithinTheCap(samples)
  {
    if |Rle(samples)| < MAX_PHASE_SPANS {
      BelowTheCap(samples);
    } else {
      var c := ReachesTheCap(samples);
      forall k | 0 < k <= |samples| && |Rle(samples[..k])| == MAX_PHASE_SPANS
        ensures AllStretches(samples) <==> Unbroken(samples[k..], samples[k - 1].phase)
      {
        AtTheCap(samples, k);
      }
      assert c > 0;
    }
  }

  lemma {:induction false} BelowTheCap(samples: seq<FdrSample>)
    requires |Rle(samples)| < MAX_PHASE_SPANS
    ensures AllStretches(samples) && StaysWithinTheCap(samples)
  {
    SpansAreRle(samples);
    RleIsRle(samples);
    forall i | 0 <= i < |Rle(samples)| ensures OneStretch(Rle(samples)[i], samples) {
      RleSpansAreStretches(samples, Rle(samples), i);
    }
    forall k | 0 < k <= |samples| ensures |Rle(samples[..k])| < MAX_PHASE_SPANS {
      RleGrows(samples, k);
    }
  }

  lemma {:induction false} AtTheCap(samples: seq<FdrSample>, k: nat)
    requires Numbered(samples) && 0 < k <= |samples| && |Rle(samples[..k])| == MAX_PHASE_SPANS
    ensures AllStretches(samples) <==> Unbroken(samples[k..], samples[k - 1].phase)
  {
    var front, back := samples[..k], samples[k..];
    assert samples == front + back;
    ContiguousPastTheCapIff(front, back);
    SpansPastTheCap(front, back);
    var spans, told := Rle(front), Pushed(samples).spans;
    LengthenedByMeans(spans[LAST], InPhase(back, spans[LAST].phase));
    RleIsRle(front);
    forall i | 0 <= i < LAST ensures OneStretch(told[i], samples) {
      RleSpansAreStretches(front, spans, i);
      StretchKept(spans[i], front, back);
    }
    assert told[LAST].phase == samples[k - 1].phase;
  }

  // ---------- a recording whose last span is no stretch ----------

  function Flicker(i: nat): FdrSample {
    FdrSample(i, i, None, None, None, None, None, None, None, None, None, if i % 2 == 0 then "A" else "B")
  }

  /** Two phases, changing with every sample. */
  function Flickering(n: nat): seq<FdrSample> {
    seq(n, i requires 0 <= i < n => Flicker(i))
  }

  lemma FlickeringStep(n: nat)
    ensures Flickering(n + 1) == Flickering(n) + [Flicker(n)]
    ensures n > 0 ==> Flickering(n)[n - 1].phase != Flicker(n).phase
  {
  }

  /** One more flicker opens a span of its own. */
  lemma FlickerOpens(samples: seq<FdrSample>, s: FdrSample)
    requires samples != [] ==> samples[|samples| - 1].phase != s.phase
    ensures Rle(samples + [s]) == Rle(samples) + [OneSample(s)]
  {
    RleStep(samples, s);
  }

  lemma {:induction false} FlickeringRle(n: nat)
    ensures |Rle(Flickering(n))| == n
    ensures n > 0 ==> Rle(Flickering(n))[n - 1] == OneSample(Flicker(n - 1))
  {
    if n > 0 {
      FlickeringRle(n - 1);
      FlickeringGrows(n - 1);
      OneLonger(Rle(Flickering(n - 1)), OneSample(Flicker(n - 1)));
    }
  }

  lemma FlickeringGrows(n: nat)
    ensures Rle(Flickering(n + 1)) == Rle(Flickering(n)) + [OneSample(Flicker(n))]
  {
    FlickeringStep(n);
    FlickerOpens(Flickering(n), Flicker(n));
  }

  lemma OneLonger<T>(xs: seq<T>, x: T)
    ensures |xs + [x]| == |xs| + 1 && (xs + [x])[|xs|] == x
  {
  }

  lemma OneOfTwo(a: FdrSample, b: FdrSample, phase: string)
    requires a.phase != phase && b.phase == phase
    ensures InPhase([a, b], phase) == [b]
  {
    assert [a, b] == [a] + [b];
    InPhaseConcat([a], [b], phase);
    InPhaseLength([a], phase);
    InPhaseAll([b], phase);
  }

  /** Two samples more and the phase of the last span is left and taken up again. */
  lemma {:induction false} FlickeringIsBroken(n: nat)
    requires n > 0
    ensures var more := [Flicker(n), Flicker(n + 1)];
            var phase := Flicker(n - 1).phase;
            && Flickering(n + 2) == Flickering(n) + more && Numbered(Flickering(n + 2))
            && !Unbroken(more, phase) && |InPhase(more, phase)| == 1
  {
    var more := [Flicker(n), Flicker(n + 1)];
    var phase := Flicker(n - 1).phase;
    FlickeringStep(n);
    FlickeringStep(n + 1);
    assert more[0].phase != phase && more[1].phase == phase;
    OneOfTwo(Flicker(n), Flicker(n + 1), phase);
  }

  /** Two samples past the cap, the last span of the flickering recording counts samples 9 999 and 10 001 but not the
      one between them. */
  lemma {:induction false} LastSpanIsTorn(n: nat)
    requires n == MAX_PHASE_SPANS
    ensures var all := Flickering(n + 2);
            && Numbered(all) && |Pushed(all).spans| == n
            && Pushed(all).spans[n - 1].samples == 2 && !OneStretch(Pushed(all).spans[n - 1], all)
  {
    var front, back := Flickering(n), [Flicker(n), Flicker(n + 1)];
    FlickeringRle(n);
    FlickeringIsBroken(n);
    ContiguousPastTheCapIff(front, back);
    SpansPastTheCap(front, back);
    var last := Rle(front)[n - 1];
    LengthenedByMeans(last, InPhase(back, last.phase));
  }
}
