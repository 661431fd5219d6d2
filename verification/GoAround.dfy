/** Go-around detection: a low descent, then a sustained climb without ground contact. */
module GoAround {
  import opened Actions
  import opened Recording

  const MAX_AGL: real := 200.0
  const MIN_CLIMB: real := 100.0
  const SUSTAIN_SAMPLES: nat := 3

  datatype Evidence = Evidence(startSeq: nat, minAgl: real, confirmedSeq: nat)

  // ---------- what a go-around is ----------

  predicate ContactAt(samples: seq<FdrSample>, i: int) {
    0 <= i < |samples| && samples[i].onGround == Some(true)
  }

  /** A low, descending sample without ground contact. */
  predicate ArmingAt(samples: seq<FdrSample>, i: int) {
    && 0 <= i < |samples| && !ContactAt(samples, i)
    && Finite(samples[i].agl).Some? && Finite(samples[i].agl).value <= MAX_AGL
    && Finite(samples[i].vs).Some? && Finite(samples[i].vs).value < 0.0
  }

  predicate ClimbingAt(samples: seq<FdrSample>, i: int) {
    && 0 <= i < |samples| && !ContactAt(samples, i)
    && Finite(samples[i].vs).Some? && Finite(samples[i].vs).value >= MIN_CLIMB
  }

  /** `a` is the first arming sample since the last ground contact before i. */
  predicate ArmedSince(samples: seq<FdrSample>, a: int, i: int) {
    && a < i && ArmingAt(samples, a)
    && (forall k :: a < k < i ==> !ContactAt(samples, k))
    && forall k :: 0 <= k < a && ArmingAt(samples, k) ==> ContactBetween(samples, k, a)
  }

  predicate ContactBetween(samples: seq<FdrSample>, from: int, to: int) {
    exists c :: from < c < to && ContactAt(samples, c)
  }

  predicate Armed(samples: seq<FdrSample>, i: int) {
    exists a :: 0 <= a < i && ArmedSince(samples, a, i)
  }

  /** Three climbing samples in a row end at i, all of them after the arming sample. */
  predicate ConfirmedAt(samples: seq<FdrSample>, i: int) {
    && ClimbingAt(samples, i - 2) && ClimbingAt(samples, i - 1) && ClimbingAt(samples, i)
    && Armed(samples, i - 2)
  }

  /** The lowest finite height in [from, to). */
  ghost predicate IsLowest(samples: seq<FdrSample>, from: nat, to: nat, low: real)
    requires to <= |samples|
  {
    && (exists k :: from <= k < to && Finite(samples[k].agl) == Some(low))
    && forall k :: from <= k < to && Finite(samples[k].agl).Some? ==> low <= Finite(samples[k].agl).value
  }

  /** Before i, at least `back` samples after the arming one, the lowest height since then is `low`. */
  ghost predicate LowSince(samples: seq<FdrSample>, i: nat, low: real, back: nat)
    requires i <= |samples|
  {
    exists a :: 0 <= a < i - back && ArmedSince(samples, a, i) && IsLowest(samples, a, i, low)
  }

  ghost predicate IsFirstGoAround(samples: seq<FdrSample>, i: int) {
    ConfirmedAt(samples, i) && forall k :: 0 <= k < i ==> !ConfirmedAt(samples, k)
  }

  // ---------- what the scan knows ----------

  /** State of the scan before sample i: armed or not, with the lowest height and the climb run so far. */
  ghost predicate Scanned(samples: seq<FdrSample>, i: nat, armed: bool, low: Option<real>, start: Option<nat>, run: nat)
    requires i <= |samples|
  {
    && (armed <==> Armed(samples, i))
    && run < SUSTAIN_SAMPLES
    && (!armed ==> run == 0)
    && (armed ==> low.Some? && LowSince(samples, i, low.value, run))
    && (forall k :: i - run <= k < i ==> ClimbingAt(samples, k))
    && (armed ==> !ClimbingAt(samples, i - run - 1) || !Armed(samples, i - run - 1))
    && (run > 0 ==> start == Some(samples[i - run].seqNo))
  }

  /** Without contact at i, arming carries over. */
  lemma ArmedOn(samples: seq<FdrSample>, a: nat, i: nat)
    requires i < |samples| && !ContactAt(samples, i) && ArmedSince(samples, a, i)
    ensures ArmedSince(samples, a, i + 1)
  {
  }

  /** A sample without contact arms, unless something was armed already. */
  lemma ArmedStep(samples: seq<FdrSample>, i: nat)
    requires i < |samples|
    ensures Armed(samples, i + 1) <==> !ContactAt(samples, i) && (Armed(samples, i) || ArmingAt(samples, i))
    ensures !Armed(samples, i) && ArmingAt(samples, i) ==> ArmedSince(samples, i, i + 1)
  {
    if Armed(samples, i + 1) {
      var a :| 0 <= a < i + 1 && ArmedSince(samples, a, i + 1);
      if a < i { assert ArmedSince(samples, a, i); }
    }
    if !ContactAt(samples, i) && Armed(samples, i) {
      var a :| 0 <= a < i && ArmedSince(samples, a, i);
      ArmedOn(samples, a, i);
    }
    if !Armed(samples, i) && ArmingAt(samples, i) {
      forall k | 0 <= k < i && ArmingAt(samples, k) ensures ContactBetween(samples, k, i) {
        FirstSince(samples, k, i);
      }
      assert ArmedSince(samples, i, i + 1);
    }
  }

  /** An arming sample with no contact after it means that some first one is armed. */
  lemma {:induction false} FirstSince(samples: seq<FdrSample>, k: nat, i: nat)
    requires k < i <= |samples| && ArmingAt(samples, k)
    ensures ContactBetween(samples, k, i) || Armed(samples, i)
    decreases k
  {
    if !ContactBetween(samples, k, i) {
      if j :| 0 <= j < k && ArmingAt(samples, j) && !ContactBetween(samples, j, k) {
        FirstSince(samples, j, i);
        assert ContactBetween(samples, j, i) ==> ContactBetween(samples, j, k) || ContactBetween(samples, k, i);
      } else {
        assert ArmedSince(samples, k, i);
      }
    }
  }

  lemma LowestStep(samples: seq<FdrSample>, a: nat, i: nat, low: real)
    requires a < i < |samples| && IsLowest(samples, a, i, low)
    ensures IsLowest(samples, a, i + 1,
                     match Finite(samples[i].agl) case None => low case Some(x) => if x < low then x else low)
  {
  }

  /** The climb run decides confirmation at i. */
  lemma RunConfirms(samples: seq<FdrSample>, i: nat, armed: bool, low: Option<real>, start: Option<nat>, run: nat)
    requires i < |samples| && Scanned(samples, i, armed, low, start, run)
    ensures ConfirmedAt(samples, i) <==> armed && ClimbingAt(samples, i) && run + 1 >= SUSTAIN_SAMPLES
  {
    if ConfirmedAt(samples, i) {
      ArmedStep(samples, i - 2);
      ArmedStep(samples, i - 1);
    }
    if armed && ClimbingAt(samples, i) && run + 1 >= SUSTAIN_SAMPLES {
      assert run == 2;
      assert ClimbingAt(samples, i - 1) && ClimbingAt(samples, i - 2);
      var a :| 0 <= a < i - run && ArmedSince(samples, a, i) && IsLowest(samples, a, i, low.value);
      assert ArmedSince(samples, a, i - 2);
    }
  }

  // ---------- one sample ----------

  lemma ScanContact(samples: seq<FdrSample>, i: nat)
    requires ContactAt(samples, i)
    ensures Scanned(samples, i + 1, false, None, None, 0)
    ensures !ConfirmedAt(samples, i)
  {
  }

  lemma ScanUnarmed(samples: seq<FdrSample>, i: nat, low: Option<real>, start: Option<nat>, run: nat)
    requires i < |samples| && !ContactAt(samples, i) && Scanned(samples, i, false, low, start, run)
    ensures if ArmingAt(samples, i) then Scanned(samples, i + 1, true, Finite(samples[i].agl), start, run)
            else Scanned(samples, i + 1, false, low, start, run)
  {
    ArmedStep(samples, i);
    if ArmingAt(samples, i) {
      assert IsLowest(samples, i, i + 1, Finite(samples[i].agl).value);
    }
  }

  lemma ScanArmed(samples: seq<FdrSample>, i: nat, low: Option<real>, start: Option<nat>, run: nat, low': real)
    requires i < |samples| && !ContactAt(samples, i) && Scanned(samples, i, true, low, start, run)
    requires low' == match Finite(samples[i].agl)
             case None => low.value case Some(x) => if x < low.value then x else low.value
    ensures LowSince(samples, i + 1, low', run + 1)
    ensures !ClimbingAt(samples, i) ==> Scanned(samples, i + 1, true, Some(low'), None, 0)
    ensures ClimbingAt(samples, i) && run + 1 < SUSTAIN_SAMPLES ==>
              Scanned(samples, i + 1, true, Some(low'), if run == 0 then Some(samples[i].seqNo) else start, run + 1)
  {
    ArmedStep(samples, i);
    var a :| 0 <= a < i - run && ArmedSince(samples, a, i) && IsLowest(samples, a, i, low.value);
    ArmedOn(samples, a, i);
    LowestStep(samples, a, i, low.value);
  }

  // ---------- the scan ----------

  /** What the evidence of a go-around confirmed at i says. */
  ghost predicate Reports(samples: seq<FdrSample>, i: int, e: Evidence) {
    && 2 <= i < |samples| && e.startSeq == samples[i - 2].seqNo && e.confirmedSeq == samples[i].seqNo
    && LowSince(samples, i + 1, e.minAgl, SUSTAIN_SAMPLES)
  }

  method DetectGoAround(samples: seq<FdrSample>) returns (found: Option<Evidence>)
    ensures found.Some? <==> exists i :: 0 <= i < |samples| && ConfirmedAt(samples, i)
    ensures found.Some? ==>
              exists i :: 0 <= i < |samples| && IsFirstGoAround(samples, i) && Reports(samples, i, found.value)
  {
    var armed := false;
    var low: Option<real> := None;
    var start: Option<nat> := None;
    var run: nat := 0;
    for i := 0 to |samples|
      invariant Scanned(samples, i, armed, low, start, run)
      invariant forall k :: 0 <= k < i ==> !ConfirmedAt(samples, k)
    {
      var s := samples[i];
      RunConfirms(samples, i, armed, low, start, run);
      if s.onGround == Some(true) {
        ScanContact(samples, i);
        armed, low, run, start := false, None, 0, None;
      } else if !armed {
        ScanUnarmed(samples, i, low, start, run);
        var agl, vs := Finite(s.agl), Finite(s.vs);
        if agl.Some? && vs.Some? && agl.value <= MAX_AGL && vs.value < 0.0 {
          armed, low := true, agl;
        }
      } else {
        var agl, vs := Finite(s.agl), Finite(s.vs);
        var lower := if agl.Some? && agl.value < low.value then agl.value else low.value;
        ScanArmed(samples, i, low, start, run, lower);
        low := Some(lower);
        if vs.Some? && vs.value >= MIN_CLIMB {
          if run == 0 {
            start := Some(s.seqNo);
          }
          run := run + 1;
          if run >= SUSTAIN_SAMPLES {
            assert IsFirstGoAround(samples, i) && Reports(samples, i, Evidence(start.value, low.value, s.seqNo));
            return Some(Evidence(start.value, low.value, s.seqNo));
          }
        } else {
          run, start := 0, None;
        }
      }
    }
    found := None;
  }
}
