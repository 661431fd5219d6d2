/** Off-route detection: one event per sustained deviation from the active leg. */
module OffRoute {
  import opened Actions
  import opened Recording
  import opened Runs

  datatype Config = Config(maxXtk: Float, sustain: nat)

  datatype OffRouteEvent = OffRouteEvent(sinceSeq: nat, peakXtk: Float)

  /** One observation as the detector is fed it; no cross-track error means no usable leg. */
  datatype Fix = Fix(seqNo: nat, xtk: Option<Float>)

  /** How far the fix deviates, if it does. */
  function Deviation(config: Config, fix: Fix): Option<Float> {
    if fix.xtk.Some? && config.maxXtk.Lt(fix.xtk.value.Abs()) then Some(fix.xtk.value.Abs()) else None
  }

  function Severity(config: Config): Fix -> Option<Float> {
    fix => Deviation(config, fix)
  }

  function Needed(config: Config): nat {
    if config.sustain == 0 then 1 else config.sustain
  }

  /** What the detector must say about fix i: an event exactly when a deviating run reaches the needed length there,
      carrying the number of the run's first fix and the run's peak so far. */
  ghost predicate SaysAt(config: Config, fixes: seq<Fix>, i: nat, event: Option<OffRouteEvent>)
    requires i < |fixes|
  {
    if i + 1 >= Needed(config) && OpenRun(Severity(config), fixes, i + 1 - Needed(config), i + 1) then
      && event.Some? && event.value.sinceSeq == fixes[i + 1 - Needed(config)].seqNo
      && IsPeak(Severity(config), fixes, i + 1 - Needed(config), i + 1, event.value.peakXtk)
    else event.None?
  }

  // ---------- one step ----------

  datatype Watch = Watch(count: nat, since: Option<nat>, peak: Float, active: bool)

  const CALM: Watch := Watch(0, None, Fin(0.0), false)

  /** What the detector remembers of the fixes so far: the deviating run they end with. */
  ghost predicate Tracks(config: Config, fixes: seq<Fix>, w: Watch) {
    if w.count == 0 then w == CALM && !Exceeds(Severity(config), fixes, |fixes| - 1)
    else
      && w.count <= |fixes| && OpenRun(Severity(config), fixes, |fixes| - w.count, |fixes|)
      && IsPeak(Severity(config), fixes, |fixes| - w.count, |fixes|, w.peak)
      && w.since == Some(fixes[|fixes| - w.count].seqNo)
      && (w.active <==> w.count >= Needed(config))
  }

  function Longer(config: Config, w: Watch, fix: Fix, xtk: Float): Watch {
    Watch(w.count + 1,
          if w.count == 0 then Some(fix.seqNo) else w.since,
          if w.count == 0 then xtk else w.peak.Max(xtk),
          w.active || w.count + 1 >= config.sustain)
  }

  function Next(config: Config, w: Watch, fix: Fix): (Watch, Option<OffRouteEvent>) {
    match Deviation(config, fix)
    case None => (CALM, None)
    case Some(xtk) =>
      var w' := Longer(config, w, fix, xtk);
      (w', if w'.active && !w.active
           then Some(OffRouteEvent(if w'.since.Some? then w'.since.value else fix.seqNo, w'.peak)) else None)
  }

  /** A deviating fix lengthens the run it follows, or begins one. */
  lemma RunLengthens(config: Config, fixes: seq<Fix>, fix: Fix, w: Watch)
    requires Tracks(config, fixes, w) && Deviation(config, fix).Some?
    ensures Tracks(config, fixes + [fix], Longer(config, w, fix, Deviation(config, fix).value))
  {
    var all, n, severity := fixes + [fix], |fixes|, Severity(config);
    assert severity(all[n]) == Deviation(config, fix);
    if w.count == 0 {
      assert Exceeds(severity, all, n) && (Exceeds(severity, all, n - 1) ==> Exceeds(severity, fixes, n - 1));
      assert OpenRun(severity, all, n, n + 1);
    } else {
      RunExtends(severity, fixes, fix, n - w.count, n);
      PeakGrows(severity, fixes, fix, n - w.count, w.peak);
      assert OpenRun(severity, all, n - w.count, n + 1);
    }
  }

  /** One step says what must be said, and keeps track. */
  lemma NextIsRight(config: Config, fixes: seq<Fix>, fix: Fix, w: Watch)
    requires Tracks(config, fixes, w)
    ensures var (w', event) := Next(config, w, fix);
            Tracks(config, fixes + [fix], w') && SaysAt(config, fixes + [fix], |fixes|, event)
  {
    var all, n, need := fixes + [fix], |fixes|, Needed(config);
    assert Exceeds(Severity(config), all, n) <==> Deviation(config, fix).Some?;
    if Deviation(config, fix).Some? {
      RunLengthens(config, fixes, fix, w);
      if n + 1 >= need && OpenRun(Severity(config), all, n + 1 - need, n + 1) {
        OpenRunUnique(Severity(config), all, n + 1 - need, n - w.count, n + 1);
      }
    }
  }

  // ---------- the detector ----------

  class OffRouteDetector {
    const config: Config
    var sustainedCount: nat
    var sinceSeq: Option<nat>
    var peakXtk: Float
    var active: bool
    ghost var fed: seq<Fix>

    ghost predicate Valid()
      reads this
    {
      Tracks(config, fed, Watch(sustainedCount, sinceSeq, peakXtk, active))
    }

    constructor (config: Config)
      ensures Valid() && this.config == config && fed == []
    {
      this.config := config;
      sustainedCount, sinceSeq, peakXtk, active, fed := 0, None, Fin(0.0), false, [];
    }

    method Reset()
      modifies this
      ensures Watch(sustainedCount, sinceSeq, peakXtk, active) == CALM && fed == old(fed)
    {
      sustainedCount, sinceSeq, peakXtk, active := 0, None, Fin(0.0), false;
    }

    method Update(fix: Fix) returns (event: Option<OffRouteEvent>)
      requires Valid()
      modifies this
      ensures Valid() && fed == old(fed) + [fix]
      ensures SaysAt(config, fed, |fed| - 1, event)
    {
      NextIsRight(config, fed, fix, Watch(sustainedCount, sinceSeq, peakXtk, active));
      event := None;
      if fix.xtk.None? {
        Reset();
      } else {
        var xtk := fix.xtk.value;
        if config.maxXtk.Lt(xtk.Abs()) {
          if sustainedCount == 0 {
            sinceSeq, peakXtk := Some(fix.seqNo), xtk.Abs();
          } else {
            peakXtk := peakXtk.Max(xtk.Abs());
          }
          sustainedCount := sustainedCount + 1;
          if sustainedCount >= config.sustain && !active {
            active := true;
            event := Some(OffRouteEvent(if sinceSeq.Some? then sinceSeq.value else fix.seqNo, peakXtk));
          }
        } else {
          Reset();
        }
      }
      fed := fed + [fix];
    }
  }

  // ---------- one event per run ----------

  /** Two events of one stream belong to different runs: between them there is a fix that does not deviate. */
  lemma OneEventPerRun(
      config: Config, fixes: seq<Fix>, i: nat, j: nat, a: Option<OffRouteEvent>, b: Option<OffRouteEvent>)
    requires i < j < |fixes| && SaysAt(config, fixes, i, a) && SaysAt(config, fixes, j, b) && a.Some? && b.Some?
    ensures exists k :: i < k < j && Deviation(config, fixes[k]).None?
  {
  }

  // ---------- what the events say, in figures ----------

  /** To one side or the other, farther off than the limit. */
  predicate IsOff(config: Config, fix: Fix) {
    && fix.xtk.Some?
    && match fix.xtk.value
       case NaN => false
       case Fin(x) => config.maxXtk.Lt(Fin(x)) || config.maxXtk.Lt(Fin(-x))
       case _ => config.maxXtk.Lt(PosInf)
  }

  predicate OffAt(config: Config, fixes: seq<Fix>, i: int) {
    0 <= i < |fixes| && IsOff(config, fixes[i])
  }

  lemma DeviationInFigures(config: Config, fix: Fix)
    ensures Deviation(config, fix) == if IsOff(config, fix) then Some(fix.xtk.value.Abs()) else None
  {
  }

  /** Fix i completes as many fixes off the route, one behind the other, as are needed for an event, and no more. */
  predicate JustSustained(config: Config, fixes: seq<Fix>, from: nat, i: nat) {
    && from <= i && i + 1 - from == (if config.sustain > 1 then config.sustain else 1)
    && (forall k :: from <= k <= i ==> OffAt(config, fixes, k)) && !OffAt(config, fixes, from - 1)
  }

  /** The greatest distance from the route among these fixes. */
  ghost predicate GreatestOff(config: Config, fixes: seq<Fix>, from: nat, i: nat, peak: Float) {
    && (forall k :: from <= k <= i && OffAt(config, fixes, k) ==> fixes[k].xtk.value.Abs().Le(peak))
    && exists k :: from <= k <= i && OffAt(config, fixes, k) && fixes[k].xtk.value.Abs() == peak
  }

  /** An event is reported exactly at the fix that completes the needed number of fixes off the route, and it names the
      first of them and the greatest distance among them. */
  lemma EventInFigures(config: Config, fixes: seq<Fix>, i: nat, event: Option<OffRouteEvent>)
    requires i < |fixes| && SaysAt(config, fixes, i, event)
    ensures event.Some? <==> exists from: nat :: JustSustained(config, fixes, from, i)
    ensures event.Some? ==>
              exists from: nat :: JustSustained(config, fixes, from, i) && event.value.sinceSeq == fixes[from].seqNo
                                  && GreatestOff(config, fixes, from, i, event.value.peakXtk)
  {
    forall k | 0 <= k < |fixes| ensures Exceeds(Severity(config), fixes, k) == OffAt(config, fixes, k) {
      DeviationInFigures(config, fixes[k]);
    }
    if event.Some? {
      var from := i + 1 - Needed(config);
      assert JustSustained(config, fixes, from, i);
      var k :| from <= k < i + 1 && Severity(config)(fixes[k]) == Some(event.value.peakXtk);
      DeviationInFigures(config, fixes[k]);
      forall j | from <= j <= i && OffAt(config, fixes, j)
        ensures fixes[j].xtk.value.Abs().Le(event.value.peakXtk)
      {
        DeviationInFigures(config, fixes[j]);
        assert Exceeds(Severity(config), fixes, j);
      }
    }
    if from: nat :| JustSustained(config, fixes, from, i) {
      assert OpenRun(Severity(config), fixes, i + 1 - Needed(config), i + 1);
    }
  }
}
