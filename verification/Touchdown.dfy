/** Touchdown detection: one scan with airborne evidence, descent context and debounce. */
module Touchdown {
  import opened Actions
  import opened Recording

  const EVIDENCE_SAMPLES: nat := 3
  const CONTEXT_VS: real := -100.0
  const CONTEXT_AGL: real := 1000.0
  const MIN_GROUND_SAMPLES: nat := 2

  datatype TouchdownRecord = TouchdownRecord(
    seqNo: nat, ms: nat, vs: Option<real>, ias: Option<real>, gs: Option<real>, pitch: Option<real>,
    bank: Option<real>, heading: Option<real>, position: Option<Position>)

  // ---------- what a touchdown is ----------

  predicate Airborne(s: FdrSample) {
    s.onGround == Some(false)
  }

  predicate Contact(s: FdrSample) {
    s.onGround == Some(true)
  }

  /** Descending, or low: on the approach. */
  predicate InContext(s: FdrSample) {
    || (Finite(s.vs).Some? && Finite(s.vs).value <= CONTEXT_VS)
    || (Finite(s.agl).Some? && Finite(s.agl).value <= CONTEXT_AGL)
  }

  predicate ContactAt(samples: seq<FdrSample>, i: int) {
    0 <= i < |samples| && Contact(samples[i])
  }

  predicate AirborneAt(samples: seq<FdrSample>, i: int) {
    0 <= i < |samples| && Airborne(samples[i])
  }

  /** Ground contact right after an airborne sample on the approach. */
  predicate ApproachContact(samples: seq<FdrSample>, i: int) {
    ContactAt(samples, i) && AirborneAt(samples, i - 1) && InContext(samples[i - 1])
  }

  /** Such a contact that lasts one sample only: flicker. */
  predicate Flicker(samples: seq<FdrSample>, i: int) {
    ApproachContact(samples, i) && !ContactAt(samples, i + 1)
  }

  /** Three airborne samples in a row from j. */
  predicate Trio(samples: seq<FdrSample>, j: int) {
    AirborneAt(samples, j) && AirborneAt(samples, j + 1) && AirborneAt(samples, j + 2)
  }

  /** Before i the aircraft flew: three airborne samples in a row, and since then nothing but flight and flicker. */
  predicate FlownBefore(samples: seq<FdrSample>, i: int) {
    exists j :: 0 <= j <= i - EVIDENCE_SAMPLES && Trio(samples, j)
                && forall k :: j + EVIDENCE_SAMPLES <= k < i ==> AirborneAt(samples, k) || Flicker(samples, k)
  }

  /** A touchdown: contact on the approach, after flight, held for at least two samples. */
  predicate TouchdownAt(samples: seq<FdrSample>, i: int) {
    FlownBefore(samples, i) && ApproachContact(samples, i) && ContactAt(samples, i + 1)
  }

  /** The first touchdown of a recording, if any. */
  ghost predicate IsFirstTouchdown(samples: seq<FdrSample>, i: int) {
    TouchdownAt(samples, i) && forall k :: 0 <= k < i ==> !TouchdownAt(samples, k)
  }

  function RecordAt(prev: FdrSample, touchdown: FdrSample): TouchdownRecord {
    TouchdownRecord(
      touchdown.seqNo, touchdown.ms,
      if Finite(touchdown.vs).Some? then Finite(touchdown.vs) else Finite(prev.vs),
      Finite(touchdown.ias),
      if Finite(touchdown.gs).Some? then Finite(touchdown.gs) else Finite(prev.gs),
      Finite(touchdown.pitch), Finite(touchdown.bank), Finite(touchdown.heading), touchdown.position)
  }

  // ---------- how evidence evolves ----------

  /** Evidence is gained by a third airborne sample in a row, kept by flight and flicker, and otherwise lost. */
  lemma EvidenceStep(samples: seq<FdrSample>, i: nat)
    requires i < |samples|
    ensures FlownBefore(samples, i + 1) <==>
            Trio(samples, i - 2) || (FlownBefore(samples, i) && (AirborneAt(samples, i) || Flicker(samples, i)))
  {
  }

  /** The sample before a contact that evidence leads up to is always an airborne one, unless the scan already
      stepped over that contact. */
  lemma LastIsAirborne(samples: seq<FdrSample>, i: nat)
    requires FlownBefore(samples, i) && ContactAt(samples, i)
    ensures AirborneAt(samples, i - 1)
  {
  }

  /** What the run counter of the scan knows when it stands at i. */
  ghost predicate Counted(samples: seq<FdrSample>, i: nat, run: nat) {
    && (run >= EVIDENCE_SAMPLES <==> FlownBefore(samples, i))
    && (run < EVIDENCE_SAMPLES ==>
          && run <= i && (forall k :: i - run <= k < i ==> AirborneAt(samples, k))
          && !AirborneAt(samples, i - run - 1))
  }

  lemma CountAirborne(samples: seq<FdrSample>, i: nat, run: nat)
    requires AirborneAt(samples, i) && Counted(samples, i, run)
    ensures Counted(samples, i + 1, run + 1)
  {
    EvidenceStep(samples, i);
    if run < EVIDENCE_SAMPLES && Trio(samples, i - 2) {
      assert AirborneAt(samples, i - 1) && AirborneAt(samples, i - 2);
    }
  }

  lemma CountLost(samples: seq<FdrSample>, i: nat, run: nat)
    requires i < |samples| && !AirborneAt(samples, i) && Counted(samples, i, run)
    requires Flicker(samples, i) ==> run < EVIDENCE_SAMPLES
    ensures Counted(samples, i + 1, 0)
  {
  }

  lemma CountFlicker(samples: seq<FdrSample>, i: nat, run: nat)
    requires Flicker(samples, i) && run >= EVIDENCE_SAMPLES && Counted(samples, i, run)
    ensures Counted(samples, i + 1, run)
  {
  }

  // ---------- the scan ----------

  method ContextOk(samples: seq<FdrSample>, i: nat, run: nat) returns (ok: bool)
    requires ContactAt(samples, i) && Counted(samples, i, run)
    ensures ok <==> FlownBefore(samples, i) && ApproachContact(samples, i)
  {
    ok := false;
    if run >= EVIDENCE_SAMPLES && i > 0 {
      LastIsAirborne(samples, i);
      var p := samples[i - 1];
      var descending := Finite(p.vs).Some? && Finite(p.vs).value <= CONTEXT_VS;
      var low := Finite(p.agl).Some? && Finite(p.agl).value <= CONTEXT_AGL;
      ok := descending || low;
    }
  }

  method GroundLength(samples: seq<FdrSample>, i: nat) returns (len: nat)
    requires i <= |samples|
    ensures i + len <= |samples| && forall k :: i <= k < i + len ==> ContactAt(samples, k)
    ensures !ContactAt(samples, i + len)
  {
    len := 0;
    while i + len < |samples| && samples[i + len].onGround == Some(true)
      invariant i + len <= |samples| && forall k :: i <= k < i + len ==> ContactAt(samples, k)
    {
      len := len + 1;
    }
  }

  /** Reports the record of the first touchdown, and nothing exactly when there is none. */
  method Detect(samples: seq<FdrSample>) returns (touchdown: Option<TouchdownRecord>)
    ensures touchdown.Some? <==> exists i :: 0 <= i < |samples| && TouchdownAt(samples, i)
    ensures touchdown.Some? ==>
              exists i :: 1 <= i < |samples| && IsFirstTouchdown(samples, i)
                          && touchdown.value == RecordAt(samples[i - 1], samples[i])
  {
    var run: nat, i: nat := 0, 0;
    while i < |samples|
      invariant i <= |samples| && Counted(samples, i, run)
      invariant forall k :: 0 <= k < i ==> !TouchdownAt(samples, k)
    {
      match samples[i].onGround {
        case Some(false) =>
          CountAirborne(samples, i, run);
          run := run + 1;
          i := i + 1;
        case Some(true) =>
          var ok := ContextOk(samples, i, run);
          if !ok {
            CountLost(samples, i, run);
            run := 0;
            i := i + 1;
          } else {
            var len := GroundLength(samples, i);
            if len >= MIN_GROUND_SAMPLES {
              assert IsFirstTouchdown(samples, i);
              return Some(RecordAt(samples[i - 1], samples[i]));
            }
            assert len == 1;
            CountFlicker(samples, i, run);
            i := i + len;
          }
        case None =>
          CountLost(samples, i, run);
          run := 0;
          i := i + 1;
      }
    }
    touchdown := None;
  }

  // ---------- what the report means ----------

  /** What comes after the second contact sample cannot change the report. */
  lemma TouchdownIsLocal(samples: seq<FdrSample>, more: seq<FdrSample>, i: int)
    requires i + 1 < |samples|
    ensures TouchdownAt(samples, i) <==> TouchdownAt(samples + more, i)
  {
    forall k | k <= i ensures AirborneAt(samples, k) == AirborneAt(samples + more, k)
                              && Flicker(samples, k) == Flicker(samples + more, k) {}
    if FlownBefore(samples, i) {
      var j :| 0 <= j <= i - EVIDENCE_SAMPLES && Trio(samples, j)
               && forall k :: j + EVIDENCE_SAMPLES <= k < i ==> AirborneAt(samples, k) || Flicker(samples, k);
      assert Trio(samples + more, j);
      assert FlownBefore(samples + more, i);
    }
    if FlownBefore(samples + more, i) {
      var j :| 0 <= j <= i - EVIDENCE_SAMPLES && Trio(samples + more, j)
               && forall k :: j + EVIDENCE_SAMPLES <= k < i ==>
                  AirborneAt(samples + more, k) || Flicker(samples + more, k);
      assert Trio(samples, j);
      assert FlownBefore(samples, i);
    }
  }

  /** A touchdown once found stays the first one however the recording goes on. */
  lemma FirstTouchdownIsStable(samples: seq<FdrSample>, more: seq<FdrSample>, i: int)
    requires IsFirstTouchdown(samples, i)
    ensures IsFirstTouchdown(samples + more, i)
  {
    TouchdownIsLocal(samples, more, i);
    forall k | 0 <= k < i ensures !TouchdownAt(samples + more, k) {
      TouchdownIsLocal(samples, more, k);
    }
  }

  /** The output is the finite value of the measurement, or nothing. */
  predicate Shows(out: Option<real>, m: Measure) {
    match out
    case Some(x) => m == Some(Fin(x))
    case None => m.None? || !m.value.Fin?
  }

  /** Nothing in a record is invented: every value is the contact sample's own, except that vertical speed and
      groundspeed may come from the sample before, and then only because the contact sample has none. */
  lemma RecordIsObserved(prev: FdrSample, s: FdrSample)
    ensures var r := RecordAt(prev, s);
            && r.seqNo == s.seqNo && r.ms == s.ms && r.position == s.position
            && Shows(r.ias, s.ias) && Shows(r.pitch, s.pitch) && Shows(r.bank, s.bank) && Shows(r.heading, s.heading)
            && (Shows(r.vs, s.vs) || (Shows(None, s.vs) && Shows(r.vs, prev.vs)))
            && (Shows(r.gs, s.gs) || (Shows(None, s.gs) && Shows(r.gs, prev.gs)))
            && (r.vs.None? ==> Shows(None, prev.vs)) && (r.gs.None? ==> Shows(None, prev.gs))
  {
  }
}
