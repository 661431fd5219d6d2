/** What a run reports of the snapshots it polled: changes of the simulator state, of the values and of the flight
    phase. */
module RunReports {
  import opened Actions
  import opened History
  import opened Executor
  import opened RuntimeModel
  import opened RunPauses
  import opened RunFlow
  import ExecutorLaws
  import RuntimeFrame
  import RuntimeLaws

  /** A snapshot and the source of the tick that polled it. */
  datatype Sighting = Sighting(snap: Snapshot, source: EventSource)

  function Snaps(seen: seq<Sighting>): seq<Snapshot> {
    seq(|seen|, i requires 0 <= i < |seen| => seen[i].snap)
  }

  function SightingsOf(snaps: seq<Snapshot>, source: EventSource): seq<Sighting> {
    seq(|snaps|, i requires 0 <= i < |snaps| => Sighting(snaps[i], source))
  }

  /** What a call is given to process. */
  function Given(setup: Setup, s: Sys, call: Call): seq<Sighting> {
    if call.TickCall? && s.poisoned.None? && setup.env.connected(s.history) && setup.env.poll(s.history).Ok?
    then SightingsOf(setup.env.poll(s.history).value, call.source) else []
  }

  /** Everything that the calls of a run were given, in order. */
  function Sightings(setup: Setup, calls: seq<Call>): seq<Sighting> {
    if calls == [] then []
    else
      var k := |calls| - 1;
      Sightings(setup, calls[..k]) + Given(setup, Run(setup, calls[..k]), calls[k])
  }

  // ---------- what is to be reported ----------

  /** The phase after a stream of snapshots: what the engine makes of the evaluated ones, Preflight before any. */
  function PhaseAfter(setup: Setup, stream: seq<Snapshot>): string {
    if Evaluated(stream) == [] then PREFLIGHT else setup.assess(Evaluated(stream)).phase
  }

  /** The phase before the k-th snapshot. */
  function PhaseAt(setup: Setup, seen: seq<Sighting>, k: nat): string
    requires k <= |seen|
  {
    PhaseAfter(setup, Snaps(seen[..k]))
  }

  datatype Kind = SimReport | DeltaReport | PhaseReport

  predicate IsOf(kind: Kind, e: TraceEvent) {
    match kind
    case SimReport => e.SimStateChanged?
    case DeltaReport => e.StateDelta?
    case PhaseReport => e.PhaseChange?
  }

  /** The k-th snapshot gives rise to a report of this kind. */
  predicate IsDue(setup: Setup, seen: seq<Sighting>, kind: Kind, k: nat)
    requires k < |seen|
  {
    match kind
    case SimReport => k > 0 && seen[k - 1].snap.sim != seen[k].snap.sim
    case DeltaReport => k > 0 && setup.diff(seen[k - 1].snap, seen[k].snap) != []
    case PhaseReport => PhaseAt(setup, seen, k) != PhaseAt(setup, seen, k + 1)
  }

  /** The event is the report of this kind about the k-th snapshot. */
  predicate Reports(setup: Setup, seen: seq<Sighting>, kind: Kind, k: nat, e: TraceEvent)
    requires k < |seen|
  {
    && IsOf(kind, e) && IsDue(setup, seen, kind, k) && e.ts == seen[k].snap.ms
    && match kind
       case SimReport => e.fromState == seen[k - 1].snap.sim && e.toState == seen[k].snap.sim
       case DeltaReport => e.source == seen[k].source && e.changed == setup.diff(seen[k - 1].snap, seen[k].snap)
       case PhaseReport =>
         && e.fromPhase == PhaseAt(setup, seen, k) && e.toPhase == PhaseAt(setup, seen, k + 1)
         && Assessment(e.toPhase, e.confidence, e.evidence) == setup.assess(Evaluated(Snaps(seen[..k + 1])))
  }

  /** The events of a kind, in order. */
  function OfKind(kind: Kind, v: seq<TraceEvent>): seq<TraceEvent> {
    if v == [] then []
    else OfKind(kind, v[..|v| - 1]) + if IsOf(kind, v[|v| - 1]) then [v[|v| - 1]] else []
  }

  predicate Increasing(places: seq<nat>, bound: nat) {
    && (forall i :: 0 <= i < |places| ==> places[i] < bound)
    && (forall i, j :: 0 <= i < j < |places| ==> places[i] < places[j])
  }

  /** The events are reports about these places, in order. */
  predicate ReportsAt(setup: Setup, seen: seq<Sighting>, kind: Kind, events: seq<TraceEvent>, places: seq<nat>) {
    && |places| == |events| && Increasing(places, |seen|)
    && forall i :: 0 <= i < |places| ==> Reports(setup, seen, kind, places[i], events[i])
  }

  predicate Behind(places: seq<nat>, k: nat) {
    forall p :: p in places ==> p < k
  }

  /** No place where a report is due is left out, except, of a trace that is not whole, behind all the others. */
  predicate NoneLeftOut(setup: Setup, seen: seq<Sighting>, kind: Kind, places: seq<nat>, whole: bool) {
    forall k :: 0 <= k < |seen| && IsDue(setup, seen, kind, k) ==> k in places || (!whole && Behind(places, k))
  }

  /** The events are the reports of this kind about what was seen, each once and in order. */
  ghost predicate Reported(setup: Setup, seen: seq<Sighting>, kind: Kind, events: seq<TraceEvent>, whole: bool) {
    exists places ::
      ReportsAt(setup, seen, kind, events, places) && NoneLeftOut(setup, seen, kind, places, whole)
  }

  // ---------- the events of a kind in a growing trace ----------

  lemma {:induction false} OfKindConcat(kind: Kind, a: seq<TraceEvent>, b: seq<TraceEvent>)
    ensures OfKind(kind, a + b) == OfKind(kind, a) + OfKind(kind, b)
    decreases |b|
  {
    if b == [] {
      assert a + b == a;
    } else {
      var n := |b| - 1;
      assert (a + b)[..|a + b| - 1] == a + b[..n];
      OfKindConcat(kind, a, b[..n]);
    }
  }

  predicate NoneOfKind(kind: Kind, events: seq<TraceEvent>) {
    forall e :: e in events ==> !IsOf(kind, e)
  }

  lemma {:induction false} NothingOfKind(kind: Kind, events: seq<TraceEvent>)
    requires NoneOfKind(kind, events)
    ensures OfKind(kind, events) == []
  {
    if events != [] { NothingOfKind(kind, events[..|events| - 1]); }
  }

  lemma KindAsBefore(kind: Kind, v: seq<TraceEvent>, events: seq<TraceEvent>)
    requires NoneOfKind(kind, events)
    ensures OfKind(kind, v + events) == OfKind(kind, v)
  {
    OfKindConcat(kind, v, events);
    NothingOfKind(kind, events);
  }

  lemma {:induction false} KindRestamped(kind: Kind, v: seq<TraceEvent>, w: seq<TraceEvent>)
    requires Covers(v, w) && |v| == |w|
    ensures Covers(OfKind(kind, v), OfKind(kind, w)) && |OfKind(kind, v)| == |OfKind(kind, w)|
    decreases |v|
  {
    if v != [] {
      var n := |v| - 1;
      SameKind(kind, v[n], w[n]);
      KindRestamped(kind, v[..n], w[..n]);
      if IsOf(kind, v[n]) { CoversOneMore(OfKind(kind, v[..n]), OfKind(kind, w[..n]), v[n], w[n]); }
    }
  }

  lemma SameKind(kind: Kind, d: TraceEvent, e: TraceEvent)
    requires d.WithSeq(0) == e.WithSeq(0)
    ensures IsOf(kind, d) == IsOf(kind, e)
  {
  }

  lemma CoversOneMore(v: seq<TraceEvent>, w: seq<TraceEvent>, d: TraceEvent, e: TraceEvent)
    requires Covers(v, w) && |v| == |w| && d.WithSeq(0) == e.WithSeq(0)
    ensures Covers(v + [d], w + [e])
  {
  }

  /** What is reported at some places is reported at the first of them, whatever the numbers. */
  lemma ReportedBefore(
      setup: Setup, seen: seq<Sighting>, kind: Kind, v: seq<TraceEvent>, w: seq<TraceEvent>, whole: bool)
    requires Reported(setup, seen, kind, w, whole) && Covers(v, w)
    ensures Reported(setup, seen, kind, v, whole && |v| == |w|)
  {
    var places :| ReportsAt(setup, seen, kind, w, places) && NoneLeftOut(setup, seen, kind, places, whole);
    FirstReports(setup, seen, kind, v, w, places);
    FirstPlaces(setup, seen, kind, places, |v|, whole);
  }

  lemma FirstReports(
      setup: Setup, seen: seq<Sighting>, kind: Kind, v: seq<TraceEvent>, w: seq<TraceEvent>, places: seq<nat>)
    requires ReportsAt(setup, seen, kind, w, places) && Covers(v, w)
    ensures ReportsAt(setup, seen, kind, v, places[..|v|])
  {
    forall i | 0 <= i < |v| ensures Reports(setup, seen, kind, places[i], v[i]) {
      assert w[i].WithSeq(0) == v[i].WithSeq(0);
      assert Reports(setup, seen, kind, places[i], w[i]);
    }
  }

  lemma FirstPlaces(setup: Setup, seen: seq<Sighting>, kind: Kind, places: seq<nat>, n: nat, whole: bool)
    requires Increasing(places, |seen|) && NoneLeftOut(setup, seen, kind, places, whole) && n <= |places|
    ensures NoneLeftOut(setup, seen, kind, places[..n], whole && n == |places|)
  {
    if n == |places| {
      assert places[..n] == places;
    } else {
      forall k | 0 <= k < |seen| && IsDue(setup, seen, kind, k)
        ensures k in places[..n] || Behind(places[..n], k)
      {
        if k in places {
          var i :| 0 <= i < |places| && places[i] == k;
          if i < n { assert places[..n][i] == k; }
        } else {
          forall p | p in places[..n] ensures p < k { assert p in places; }
        }
      }
    }
  }

  lemma {:induction false} KindCovered(kind: Kind, v: seq<TraceEvent>, w: seq<TraceEvent>)
    requires Covers(v, w)
    ensures Covers(OfKind(kind, v), OfKind(kind, w)) && (|v| == |w| ==> |OfKind(kind, v)| == |OfKind(kind, w)|)
  {
    KindRestamped(kind, v, w[..|v|]);
    assert w == w[..|v|] + w[|v|..];
    OfKindConcat(kind, w[..|v|], w[|v|..]);
    if |v| == |w| { assert w[..|v|] == w; }
  }

  // ---------- one snapshot ----------

  lemma SnapsSnoc(seen: seq<Sighting>, x: Sighting)
    ensures Snaps(seen + [x]) == Snaps(seen) + [x.snap]
  {
  }

  lemma EarlierPlaces(setup: Setup, seen: seq<Sighting>, x: Sighting, kind: Kind, k: nat)
    requires k < |seen|
    ensures IsDue(setup, seen + [x], kind, k) == IsDue(setup, seen, kind, k)
    ensures forall e :: Reports(setup, seen + [x], kind, k, e) == Reports(setup, seen, kind, k, e)
  {
    assert (seen + [x])[..k] == seen[..k] && (seen + [x])[..k + 1] == seen[..k + 1];
  }

  /** These events are the report about the last snapshot, if there is one to make. */
  ghost predicate LastReported(setup: Setup, seen: seq<Sighting>, kind: Kind, more: seq<TraceEvent>)
    requires seen != []
  {
    if IsDue(setup, seen, kind, |seen| - 1) then |more| == 1 && Reports(setup, seen, kind, |seen| - 1, more[0])
    else more == []
  }

  /** The reports so far stay, and one about the new snapshot is added exactly if it is due. */
  lemma ReportedSnoc(
      setup: Setup, seen: seq<Sighting>, x: Sighting, kind: Kind, events: seq<TraceEvent>, more: seq<TraceEvent>)
    requires Reported(setup, seen, kind, events, true) && LastReported(setup, seen + [x], kind, more)
    ensures Reported(setup, seen + [x], kind, events + more, true)
  {
    var places :| ReportsAt(setup, seen, kind, events, places) && NoneLeftOut(setup, seen, kind, places, true);
    EarlierReports(setup, seen, x, kind, events, places);
    AtMostOneMore(events, more);
    if more == [] {
      NoMoreReports(setup, seen + [x], kind, events, places);
    } else {
      OneMoreReport(setup, seen + [x], kind, events, more[0], places);
    }
  }

  lemma AtMostOneMore<T>(a: seq<T>, b: seq<T>)
    requires |b| <= 1
    ensures a + b == if b == [] then a else a + [b[0]]
  {
  }

  /** Before the last one no place is left out. */
  predicate EarlierCovered(setup: Setup, seen: seq<Sighting>, kind: Kind, places: seq<nat>) {
    forall k :: 0 <= k < |seen| - 1 && IsDue(setup, seen, kind, k) ==> k in places
  }

  lemma NoMoreReports(setup: Setup, seen: seq<Sighting>, kind: Kind, events: seq<TraceEvent>, places: seq<nat>)
    requires seen != [] && ReportsAt(setup, seen, kind, events, places) && !IsDue(setup, seen, kind, |seen| - 1)
    requires EarlierCovered(setup, seen, kind, places)
    ensures Reported(setup, seen, kind, events, true)
  {
    assert NoneLeftOut(setup, seen, kind, places, true);
  }

  lemma EarlierReports(
      setup: Setup, seen: seq<Sighting>, x: Sighting, kind: Kind, events: seq<TraceEvent>, places: seq<nat>)
    requires ReportsAt(setup, seen, kind, events, places) && NoneLeftOut(setup, seen, kind, places, true)
    ensures ReportsAt(setup, seen + [x], kind, events, places) && Increasing(places, |seen|)
    ensures EarlierCovered(setup, seen + [x], kind, places)
  {
    forall i | 0 <= i < |places| ensures Reports(setup, seen + [x], kind, places[i], events[i]) {
      EarlierPlaces(setup, seen, x, kind, places[i]);
    }
    forall k | 0 <= k < |seen| && IsDue(setup, seen + [x], kind, k) ensures k in places {
      EarlierPlaces(setup, seen, x, kind, k);
    }
  }

  lemma OneMoreReport(
      setup: Setup, seen: seq<Sighting>, kind: Kind, events: seq<TraceEvent>, e: TraceEvent, places: seq<nat>)
    requires seen != [] && Increasing(places, |seen| - 1) && ReportsAt(setup, seen, kind, events, places)
    requires EarlierCovered(setup, seen, kind, places) && Reports(setup, seen, kind, |seen| - 1, e)
    ensures Reported(setup, seen, kind, events + [e], true)
  {
    var all := places + [|seen| - 1];
    assert forall k :: k in places ==> k in all;
    assert all[|places|] in all;
    assert ReportsAt(setup, seen, kind, events + [e], all);
    assert NoneLeftOut(setup, seen, kind, all, true);
  }

  /** The tracker has seen just these snapshots. */
  ghost predicate Tracks(setup: Setup, s: Sys, seen: seq<Sighting>) {
    FedBy(s, Snaps(seen)) && s.phase.last == PhaseAfter(setup, Snaps(seen))
  }

  ghost predicate AllReported(setup: Setup, seen: seq<Sighting>, v: seq<TraceEvent>, whole: bool) {
    forall kind: Kind :: Reported(setup, seen, kind, OfKind(kind, v), whole)
  }

  function Observations(setup: Setup, s: Sys, x: Sighting): seq<TraceEvent> {
    Ingest(setup, s.last, x.snap, x.source) + EvaluateSpec(setup, s.phase, s.last, x.snap).1
  }

  lemma LatestSighting(seen: seq<Sighting>)
    ensures Latest(Snaps(seen)) == if seen == [] then None else Some(seen[|seen| - 1].snap)
  {
  }

  lemma PhaseFollows(setup: Setup, s: Sys, seen: seq<Sighting>, x: Sighting)
    requires Tracks(setup, s, seen)
    ensures EvaluateSpec(setup, s.phase, s.last, x.snap).0.last == PhaseAfter(setup, Snaps(seen + [x]))
    ensures var more := EvaluateSpec(setup, s.phase, s.last, x.snap).1;
            var before, after := PhaseAfter(setup, Snaps(seen)), PhaseAfter(setup, Snaps(seen + [x]));
            var a := setup.assess(Evaluated(Snaps(seen + [x])));
            && more == (if before != after
                        then [PhaseChange(PLACEHOLDER, x.snap.ms, before, after, a.confidence, a.evidence)] else [])
            && (before != after ==> a.phase == after)
  {
    SnapsSnoc(seen, x);
    EvaluatedSnoc(Snaps(seen), x.snap);
    assert Evaluated(Snaps(seen)) + [] == Evaluated(Snaps(seen));
  }

  lemma ObservationsReport(setup: Setup, s: Sys, seen: seq<Sighting>, x: Sighting, kind: Kind)
    requires Tracks(setup, s, seen)
    ensures LastReported(setup, seen + [x], kind, OfKind(kind, Observations(setup, s, x)))
  {
    var ingested, phases := Ingest(setup, s.last, x.snap, x.source), EvaluateSpec(setup, s.phase, s.last, x.snap).1;
    OfKindConcat(kind, ingested, phases);
    NeitherNor(OfKind(kind, ingested));
    NeitherNor(OfKind(kind, phases));
    if kind == PhaseReport {
      IngestedOfKind(setup, s.last, x, kind);
      PhaseIsReported(setup, s, seen, x);
    } else {
      NothingOfKind(kind, phases);
      IngestIsReported(setup, s, seen, x, kind);
    }
  }

  lemma NeitherNor<T>(a: seq<T>)
    ensures a + [] == a && [] + a == a
  {
  }

  lemma IngestIsReported(setup: Setup, s: Sys, seen: seq<Sighting>, x: Sighting, kind: Kind)
    requires Tracks(setup, s, seen) && kind != PhaseReport
    ensures LastReported(setup, seen + [x], kind, OfKind(kind, Ingest(setup, s.last, x.snap, x.source)))
  {
    IngestedOfKind(setup, s.last, x, kind);
    LatestSighting(seen);
  }

  lemma PhaseIsReported(setup: Setup, s: Sys, seen: seq<Sighting>, x: Sighting)
    requires Tracks(setup, s, seen)
    ensures var more := EvaluateSpec(setup, s.phase, s.last, x.snap).1;
            OfKind(PhaseReport, more) == more && LastReported(setup, seen + [x], PhaseReport, more)
  {
    var more := EvaluateSpec(setup, s.phase, s.last, x.snap).1;
    PhaseFollows(setup, s, seen, x);
    assert (seen + [x])[..|seen|] == seen && (seen + [x])[..|seen| + 1] == seen + [x];
    if more != [] { JustOne(PhaseReport, more[0]); }
  }

  lemma JustOne(kind: Kind, e: TraceEvent)
    ensures OfKind(kind, [e]) == if IsOf(kind, e) then [e] else []
  {
    assert [e][..0] == [];
  }

  /** The event, if it is there. */
  function Perhaps(there: bool, e: TraceEvent): seq<TraceEvent> {
    if there then [e] else []
  }

  lemma PerhapsOfKind(kind: Kind, there: bool, e: TraceEvent)
    ensures OfKind(kind, Perhaps(there, e)) == Perhaps(there && IsOf(kind, e), e)
  {
    JustOne(kind, e);
  }

  lemma IngestedOfKind(setup: Setup, last: Option<Snapshot>, x: Sighting, kind: Kind)
    ensures OfKind(kind, Ingest(setup, last, x.snap, x.source)) ==
            if last.None? then []
            else if kind == SimReport
            then Perhaps(last.value.sim != x.snap.sim,
                         SimStateChanged(PLACEHOLDER, x.snap.ms, last.value.sim, x.snap.sim))
            else if kind == DeltaReport
            then Perhaps(setup.diff(last.value, x.snap) != [],
                         StateDelta(PLACEHOLDER, x.snap.ms, x.source, setup.diff(last.value, x.snap)))
            else []
  {
    if last.Some? {
      var changed := setup.diff(last.value, x.snap);
      TwoOfKind(kind, last.value.sim != x.snap.sim, SimStateChanged(PLACEHOLDER, x.snap.ms, last.value.sim, x.snap.sim),
                changed != [], StateDelta(PLACEHOLDER, x.snap.ms, x.source, changed));
    }
  }

  lemma TwoOfKind(kind: Kind, there: bool, d: TraceEvent, here: bool, e: TraceEvent)
    requires d.SimStateChanged? && e.StateDelta?
    ensures OfKind(kind, Perhaps(there, d) + Perhaps(here, e)) ==
            if kind == SimReport then Perhaps(there, d) else if kind == DeltaReport then Perhaps(here, e) else []
  {
    OfKindConcat(kind, Perhaps(there, d), Perhaps(here, e));
    PerhapsOfKind(kind, there, d);
    PerhapsOfKind(kind, here, e);
    NeitherNor(OfKind(kind, Perhaps(there, d)));
    NeitherNor(OfKind(kind, Perhaps(here, e)));
  }

  lemma ObserveReports(setup: Setup, m: Mid, seen: seq<Sighting>, x: Sighting)
    requires Ready(m.sys) && Tracks(setup, m.sys, seen) && AllReported(setup, seen, Told(m), true)
    ensures AllReported(setup, seen + [x], Told(ObserveSpec(setup, m, x.snap, x.source)), true)
  {
    var more := Observations(setup, m.sys, x);
    assert Told(ObserveSpec(setup, m, x.snap, x.source)) == Told(m) + more;
    forall kind: Kind
      ensures Reported(setup, seen + [x], kind, OfKind(kind, Told(m) + more), true)
    {
      OfKindConcat(kind, Told(m), more);
      ObservationsReport(setup, m.sys, seen, x, kind);
      ReportedSnoc(setup, seen, x, kind, OfKind(kind, Told(m)), OfKind(kind, more));
    }
  }

  predicate NoReports(events: seq<TraceEvent>) {
    forall e, kind :: e in events ==> !IsOf(kind, e)
  }

  lemma NothingReported(setup: Setup, seen: seq<Sighting>, v: seq<TraceEvent>, events: seq<TraceEvent>, whole: bool)
    requires AllReported(setup, seen, v, whole) && NoReports(events)
    ensures AllReported(setup, seen, v + events, whole)
  {
    forall kind: Kind ensures Reported(setup, seen, kind, OfKind(kind, v + events), whole) {
      KindAsBefore(kind, v, events);
    }
  }

  lemma {:induction false} StageReports(
      setup: Setup, seen: seq<Sighting>, m: Mid, requests: seq<Flow.StepRequest>, ts: nat)
    requires Ready(m.sys) && m.sys.flow.Some? && AllReported(setup, seen, Told(m), true)
    ensures AllReported(setup, seen, Told(StageRequests(m, requests, ts)), true)
    decreases |requests|
  {
    if requests != [] {
      var k := |requests| - 1;
      StageReports(setup, seen, m, requests[..k], ts);
      var n := StageRequests(m, requests[..k], ts);
      var e := ActionRequested(n.sys.nextSeq, ts, requests[k].action, RuntimeActor, n.sys.exec.nextId);
      assert Told(StageRequest(n, requests[k], ts)) == Told(n) + [e];
      NothingReported(setup, seen, Told(n), [e], true);
    }
  }

  lemma FlowReports(setup: Setup, seen: seq<Sighting>, m: Mid, snap: Snapshot)
    requires Ready(m.sys) && AllReported(setup, seen, Told(m), true)
    ensures AllReported(setup, seen, Told(FlowSpec(m, snap)), true)
  {
    if m.sys.flow.Some? {
      ProcessedReports(setup, seen, m, snap);
      StageReports(setup, seen, Processed(m, snap).0, Processed(m, snap).1, snap.ms);
    }
  }

  lemma ProcessedReports(setup: Setup, seen: seq<Sighting>, m: Mid, snap: Snapshot)
    requires Ready(m.sys) && m.sys.flow.Some? && AllReported(setup, seen, Told(m), true)
    ensures AllReported(setup, seen, Told(Processed(m, snap).0), true)
  {
    var sop := RuntimeLaws.ProcessedEvents(m, snap);
    assert Told(Processed(m, snap).0) == Told(m) + SopTrace(sop, snap.ms);
    NothingReported(setup, seen, Told(m), SopTrace(sop, snap.ms), true);
  }

  lemma SnapshotReports(setup: Setup, m: Mid, seen: seq<Sighting>, x: Sighting)
    requires Ready(m.sys) && Tracks(setup, m.sys, seen) && AllReported(setup, seen, Told(m), true)
    ensures var n := SnapshotSpec(setup, m, x.snap, x.source);
            Tracks(setup, n.sys, seen + [x]) && AllReported(setup, seen + [x], Told(n), true)
  {
    var a := ObserveSpec(setup, m, x.snap, x.source);
    var n := FlowSpec(ActionSpec(setup, a, x.snap), x.snap);
    ObserveReports(setup, m, seen, x);
    ActionReports(setup, seen + [x], a, x.snap);
    FlowReports(setup, seen + [x], ActionSpec(setup, a, x.snap), x.snap);
    assert Told(n.(sys := n.sys.(last := Some(x.snap)))) == Told(n);
    SnapshotTracks(setup, m, seen, x);
  }

  lemma ActionReports(setup: Setup, seen: seq<Sighting>, m: Mid, snap: Snapshot)
    requires Ready(m.sys) && AllReported(setup, seen, Told(m), true)
    ensures AllReported(setup, seen, Told(ActionSpec(setup, m, snap)), true)
  {
    var t := Executor.Passes(setup.Rules(), m.sys.exec.pending, snap, m.sys.history);
    ExecutorLaws.PassesFrame(setup.Rules(), m.sys.exec.pending, snap, m.sys.history);
    assert Told(ActionSpec(setup, m, snap)) == Told(m) + t.events;
    NothingReported(setup, seen, Told(m), t.events, true);
  }

  lemma SnapshotTracks(setup: Setup, m: Mid, seen: seq<Sighting>, x: Sighting)
    requires Ready(m.sys) && Tracks(setup, m.sys, seen)
    ensures Tracks(setup, SnapshotSpec(setup, m, x.snap, x.source).sys, seen + [x])
  {
    SnapshotFeeds(setup, m, x.snap, x.source, Snaps(seen));
    SnapsSnoc(seen, x);
    PhaseFollows(setup, m.sys, seen, x);
    RuntimeFrame.FlowFramed(ActionSpec(setup, ObserveSpec(setup, m, x.snap, x.source), x.snap), x.snap);
  }

  lemma {:induction false} SnapshotsReport(
      setup: Setup, m: Mid, seen: seq<Sighting>, snaps: seq<Snapshot>, source: EventSource)
    requires Ready(m.sys) && Tracks(setup, m.sys, seen) && AllReported(setup, seen, Told(m), true)
    ensures var n := SnapshotsSpec(setup, m, snaps, source);
            var all := seen + SightingsOf(snaps, source);
            Tracks(setup, n.sys, all) && AllReported(setup, all, Told(n), true)
    decreases |snaps|
  {
    if snaps == [] {
      assert seen + SightingsOf(snaps, source) == seen;
    } else {
      var k := |snaps| - 1;
      SnapshotsReport(setup, m, seen, snaps[..k], source);
      var x := Sighting(snaps[k], source);
      SnapshotReports(setup, SnapshotsSpec(setup, m, snaps[..k], source), seen + SightingsOf(snaps[..k], source), x);
      OneMoreSighting(seen, snaps, source);
    }
  }

  lemma OneMoreSighting(seen: seq<Sighting>, snaps: seq<Snapshot>, source: EventSource)
    requires snaps != []
    ensures var k := |snaps| - 1;
            seen + SightingsOf(snaps[..k], source) + [Sighting(snaps[k], source)] == seen + SightingsOf(snaps, source)
  {
  }

  // ---------- one tick, every call ----------

  lemma CoveredReports(setup: Setup, seen: seq<Sighting>, v: seq<TraceEvent>, w: seq<TraceEvent>)
    requires AllReported(setup, seen, w, true) && Covers(v, w)
    ensures AllReported(setup, seen, v, |v| == |w|)
  {
    forall kind: Kind ensures Reported(setup, seen, kind, OfKind(kind, v), |v| == |w|) {
      KindCovered(kind, v, w);
      ReportedBefore(setup, seen, kind, OfKind(kind, v), OfKind(kind, w), true);
    }
  }

  /** Whatever is appended is a beginning of what was told, and all of it unless an append failed. */
  lemma {:induction false} AppendAllCovered(setup: Setup, s: Sys, events: seq<TraceEvent>)
    requires s.poisoned.None?
    ensures var t := AppendAll(setup, s, events);
            && Covers(Trace(t.history), Told(Mid(s, events)))
            && (t.poisoned.None? ==> |Trace(t.history)| == |Told(Mid(s, events))|)
    decreases |events|
  {
    if events == [] {
      assert Told(Mid(s, events)) == Trace(s.history);
    } else {
      var t := AppendOne(setup, s, events[0]);
      AppendTold(setup, s, events);
      if t.poisoned.None? { AppendAllCovered(setup, t, events[1..]); }
    }
  }

  ghost predicate RunReported(setup: Setup, s: Sys, seen: seq<Sighting>) {
    Tracks(setup, s, seen) && AllReported(setup, seen, Trace(s.history), s.poisoned.None?)
  }

  lemma TickReports(setup: Setup, s: Sys, seen: seq<Sighting>, snaps: seq<Snapshot>, source: EventSource)
    requires Ready(s) && s.poisoned.None? && RunReported(setup, s, seen)
    ensures RunReported(setup, TickBody(setup, s, snaps, source), seen + SightingsOf(snaps, source))
  {
    var m := SnapshotsSpec(setup, Mid(s, []), snaps, source);
    var all := seen + SightingsOf(snaps, source);
    assert Told(Mid(s, [])) == Trace(s.history);
    SnapshotsReport(setup, Mid(s, []), seen, snaps, source);
    RuntimeFrame.SnapshotsFramed(setup, Mid(s, []), snaps, source);
    AppendAllCovered(setup, m.sys, m.buffer);
    AppendKeepsPhase(setup, m.sys, m.buffer);
    CoveredReports(setup, all, Trace(AppendAll(setup, m.sys, m.buffer).history), Told(m));
  }

  lemma AppendsNoReport(setup: Setup, s: Sys, seen: seq<Sighting>, e: TraceEvent)
    requires RunReported(setup, s, seen) && s.poisoned.None? && NoReports([e.WithSeq(s.nextSeq)])
    ensures RunReported(setup, AppendOne(setup, s, e), seen)
  {
    NothingReported(setup, seen, Trace(s.history), [e.WithSeq(s.nextSeq)], true);
  }

  lemma CallReports(setup: Setup, s: Sys, seen: seq<Sighting>, call: Call)
    requires Ready(s) && RunReported(setup, s, seen)
    ensures RunReported(setup, Do(setup, s, call), seen + Given(setup, s, call))
  {
    assert seen + [] == seen;
    if s.poisoned.None? {
      match call
      case StartCall =>
        var c := s.(history := After(s.history, Connected(setup.env.connect(s.history))));
        AppendsNoReport(setup, c, seen, SessionStart(PLACEHOLDER, setup.sessionId));
      case StartFlowCall(_) =>
      case SubmitCall(action, actor, at) =>
        AppendsNoReport(setup, s.(exec := SubmitSpec(s.exec, action, actor, at)), seen,
                        ActionRequested(PLACEHOLDER, at, action, actor, s.exec.nextId));
      case TickCall(source) =>
        if setup.env.connected(s.history) {
          var answer := setup.env.poll(s.history);
          var polled := s.(history := After(s.history, Polled(answer)));
          assert RunReported(setup, polled, seen);
          if answer.Ok? { TickReports(setup, polled, seen, answer.value, source); }
        }
      case TakeCall =>
      case FinishCall => AppendsNoReport(setup, s, seen, SessionEnd(PLACEHOLDER));
    }
  }

  // ---------- every run ----------

  lemma {:induction false} RunReports(setup: Setup, calls: seq<Call>)
    ensures RunReported(setup, Run(setup, calls), Sightings(setup, calls))
    decreases |calls|
  {
    if calls == [] {
      forall kind: Kind ensures Reported(setup, [], kind, OfKind(kind, []), true) {
        assert ReportsAt(setup, [], kind, [], []);
      }
      assert Snaps([]) == [];
    } else {
      var k := |calls| - 1;
      RunReports(setup, calls[..k]);
      CallReports(setup, Run(setup, calls[..k]), Sightings(setup, calls[..k]), calls[k]);
    }
  }

  /** What the calls were given is what the polls delivered. */
  lemma {:induction false} SightingsArePolled(setup: Setup, calls: seq<Call>)
    ensures Snaps(Sightings(setup, calls)) == Stream(Run(setup, calls).history)
    decreases |calls|
  {
    if calls != [] {
      var k := |calls| - 1;
      SightingsArePolled(setup, calls[..k]);
      GivenIsPolled(setup, Run(setup, calls[..k]), calls[k]);
      SnapsConcat(Sightings(setup, calls[..k]), Given(setup, Run(setup, calls[..k]), calls[k]));
    }
  }

  lemma SnapsConcat(a: seq<Sighting>, b: seq<Sighting>)
    ensures Snaps(a + b) == Snaps(a) + Snaps(b)
  {
  }

  lemma SnapsOf(snaps: seq<Snapshot>, source: EventSource)
    ensures Snaps(SightingsOf(snaps, source)) == snaps
  {
  }

  lemma GivenIsPolled(setup: Setup, s: Sys, call: Call)
    requires Ready(s)
    ensures Stream(Do(setup, s, call).history) == Stream(s.history) + Snaps(Given(setup, s, call))
  {
    if Given(setup, s, call) == [] { assert Stream(s.history) + [] == Stream(s.history); }
    if !call.TickCall? {
      OtherCallFeedsNothing(setup, s, call);
    } else if s.poisoned.None? && setup.env.connected(s.history) && setup.env.poll(s.history).Ok? {
      var snaps := setup.env.poll(s.history).value;
      TickPolls(setup, s.(history := After(s.history, Polled(Ok(snaps)))), snaps, call.source);
      SnapsOf(snaps, call.source);
    }
  }

  /** In every run the events of each of the three kinds are in the trace once, in order, for just those polled
      snapshots that give rise to one: a simulator state other than that of the snapshot polled directly before it,
      values other than those of that snapshot, a phase other than the one assessed before it. When an append failed the
      trace lacks at most reports that come behind all those it has. */
  lemma ReportsInEveryRun(setup: Setup, calls: seq<Call>, kind: Kind)
    ensures var s := Run(setup, calls);
            && Snaps(Sightings(setup, calls)) == Stream(s.history)
            && Reported(setup, Sightings(setup, calls), kind, OfKind(kind, Trace(s.history)), s.poisoned.None?)
  {
    RunReports(setup, calls);
    SightingsArePolled(setup, calls);
  }

  /** Between two places without a change the phase stays. */
  lemma {:induction false} PhaseStays(setup: Setup, seen: seq<Sighting>, i: nat, j: nat)
    requires i <= j <= |seen| && forall k :: i <= k < j ==> !IsDue(setup, seen, PhaseReport, k)
    ensures PhaseAt(setup, seen, i) == PhaseAt(setup, seen, j)
    decreases j
  {
    if i < j {
      var k := j - 1;
      PhaseStays(setup, seen, i, k);
      assert !IsDue(setup, seen, PhaseReport, k);
    }
  }

  /** In every run the traced phase changes are a chain: the first one starts from Preflight and every other one from
      the phase that the one before it ended in, never in the phase it starts from; and while no append has failed the
      last one ended in the phase the run is in. */
  lemma PhasesAreAChain(setup: Setup, calls: seq<Call>)
    ensures var s := Run(setup, calls);
            var changes := OfKind(PhaseReport, Trace(s.history));
            Chained(changes) && (s.poisoned.None? ==> s.phase.last == PhaseReached(changes))
  {
    var s, seen := Run(setup, calls), Sightings(setup, calls);
    RunReports(setup, calls);
    ReportsAreAChain(setup, seen, OfKind(PhaseReport, Trace(s.history)), s.poisoned.None?);
  }

  predicate AllPhaseChanges(changes: seq<TraceEvent>) {
    forall i :: 0 <= i < |changes| ==> changes[i].PhaseChange?
  }

  /** The phase that the changes lead to from the start of a run. */
  function PhaseReached(changes: seq<TraceEvent>): string
    requires AllPhaseChanges(changes)
  {
    if changes == [] then PREFLIGHT else changes[|changes| - 1].toPhase
  }

  predicate Chained(changes: seq<TraceEvent>) {
    && AllPhaseChanges(changes)
    && forall i :: 0 <= i < |changes| ==>
         && changes[i].fromPhase != changes[i].toPhase
         && changes[i].fromPhase == if i == 0 then PREFLIGHT else changes[i - 1].toPhase
  }

  lemma ReportsAreAChain(setup: Setup, seen: seq<Sighting>, changes: seq<TraceEvent>, whole: bool)
    requires Reported(setup, seen, PhaseReport, changes, whole)
    ensures Chained(changes) && (whole ==> PhaseAfter(setup, Snaps(seen)) == PhaseReached(changes))
  {
    var places :| ReportsAt(setup, seen, PhaseReport, changes, places)
                  && NoneLeftOut(setup, seen, PhaseReport, places, whole);
    AllAreChanges(setup, seen, changes, places);
    AllAreLinked(setup, seen, changes, places, whole);
    if whole { ChainEnd(setup, seen, changes, places); }
  }

  lemma AllAreLinked(setup: Setup, seen: seq<Sighting>, changes: seq<TraceEvent>, places: seq<nat>, whole: bool)
    requires ReportsAt(setup, seen, PhaseReport, changes, places)
    requires NoneLeftOut(setup, seen, PhaseReport, places, whole) && AllPhaseChanges(changes)
    ensures Chained(changes)
  {
    forall i | 0 <= i < |changes|
      ensures changes[i].fromPhase != changes[i].toPhase
              && changes[i].fromPhase == if i == 0 then PREFLIGHT else changes[i - 1].toPhase
    {
      ChainLink(setup, seen, changes, places, whole, i);
    }
  }

  lemma AllAreChanges(setup: Setup, seen: seq<Sighting>, changes: seq<TraceEvent>, places: seq<nat>)
    requires ReportsAt(setup, seen, PhaseReport, changes, places)
    ensures AllPhaseChanges(changes)
  {
    forall i | 0 <= i < |changes| ensures changes[i].PhaseChange? {
      assert Reports(setup, seen, PhaseReport, places[i], changes[i]);
    }
  }

  /** No change is missed between one place and the next. */
  lemma NothingBetween(setup: Setup, seen: seq<Sighting>, places: seq<nat>, whole: bool, i: nat)
    requires Increasing(places, |seen|) && NoneLeftOut(setup, seen, PhaseReport, places, whole) && i < |places|
    ensures var start := if i == 0 then 0 else places[i - 1] + 1;
            start <= places[i] && forall k :: start <= k < places[i] ==> !IsDue(setup, seen, PhaseReport, k)
  {
    var start := if i == 0 then 0 else places[i - 1] + 1;
    forall k | start <= k < places[i] ensures !IsDue(setup, seen, PhaseReport, k) {
      assert places[i] in places;
    }
  }

  lemma ChainLink(
      setup: Setup, seen: seq<Sighting>, changes: seq<TraceEvent>, places: seq<nat>, whole: bool, i: nat)
    requires ReportsAt(setup, seen, PhaseReport, changes, places)
    requires NoneLeftOut(setup, seen, PhaseReport, places, whole)
    requires i < |changes| && AllPhaseChanges(changes)
    ensures changes[i].fromPhase != changes[i].toPhase
    ensures changes[i].fromPhase == if i == 0 then PREFLIGHT else changes[i - 1].toPhase
  {
    ReportedPhases(setup, seen, places[i], changes[i]);
    NothingBetween(setup, seen, places, whole, i);
    if i == 0 {
      PhaseStays(setup, seen, 0, places[i]);
      PhaseAtFirst(setup, seen);
    } else {
      PhaseStays(setup, seen, places[i - 1] + 1, places[i]);
      ReportedPhases(setup, seen, places[i - 1], changes[i - 1]);
    }
  }

  lemma PhaseAtFirst(setup: Setup, seen: seq<Sighting>)
    ensures PhaseAt(setup, seen, 0) == PREFLIGHT
  {
    assert Snaps(seen[..0]) == [];
  }

  lemma ReportedPhases(setup: Setup, seen: seq<Sighting>, k: nat, e: TraceEvent)
    requires k < |seen| && Reports(setup, seen, PhaseReport, k, e)
    ensures e.PhaseChange? && e.fromPhase != e.toPhase
    ensures e.fromPhase == PhaseAt(setup, seen, k) && e.toPhase == PhaseAt(setup, seen, k + 1)
  {
  }

  lemma ChainEnd(setup: Setup, seen: seq<Sighting>, changes: seq<TraceEvent>, places: seq<nat>)
    requires ReportsAt(setup, seen, PhaseReport, changes, places) && NoneLeftOut(setup, seen, PhaseReport, places, true)
    requires AllPhaseChanges(changes)
    ensures PhaseAfter(setup, Snaps(seen)) == PhaseReached(changes)
  {
    assert Snaps(seen[..0]) == [] && seen[..|seen|] == seen;
    NothingBehind(setup, seen, places);
    if changes == [] {
      PhaseStays(setup, seen, 0, |seen|);
    } else {
      var n := |changes| - 1;
      PhaseStays(setup, seen, places[n] + 1, |seen|);
      ReportedPhases(setup, seen, places[n], changes[n]);
    }
  }

  lemma NothingBehind(setup: Setup, seen: seq<Sighting>, places: seq<nat>)
    requires Increasing(places, |seen|) && NoneLeftOut(setup, seen, PhaseReport, places, true)
    ensures var start := if places == [] then 0 else places[|places| - 1] + 1;
            forall k :: start <= k < |seen| ==> !IsDue(setup, seen, PhaseReport, k)
  {
  }
}
