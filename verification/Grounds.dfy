/** Why an action was refused or could not be written, told from the exchanges with the adapter and the catalog. */
module Grounds {
  import opened Actions
  import opened History
  import opened Executor
  import opened ExecutorLaws

  /** The exchange is part of the history. */
  ghost predicate Happened(h: History, e: Effect) {
    exists p :: Past(p, h) && p.After? && p.last == e
  }

  predicate KnownKind(catalog: Catalog, kind: ActionKind) {
    exists i :: 0 <= i < |catalog| && catalog[i].kind == kind
  }

  /** The entry that the catalog has for this kind. */
  predicate FirstOfKind(catalog: Catalog, kind: ActionKind, i: nat) {
    i < |catalog| && catalog[i].kind == kind && forall j :: 0 <= j < i ==> catalog[j].kind != kind
  }

  predicate FirstToFail(preconditions: seq<Precondition>, snap: Snapshot, j: nat) {
    j < |preconditions| && preconditions[j].check(snap).Some?
    && forall k :: 0 <= k < j ==> preconditions[k].check(snap).None?
  }

  /** The adapter was asked for the id at this time and gave this answer. */
  ghost predicate AskedAt(h: History, id: ActionId, action: CockpitAction, ts: nat, capability: Capability) {
    exists snap: Snapshot :: snap.ms == ts && Happened(h, Asked(id, action, snap, capability))
  }

  /** On this snapshot the first precondition to fail is this one, by its name and message. */
  ghost predicate FailsWith(catalog: Catalog, kind: ActionKind, snap: Snapshot, detail: string) {
    exists i: nat, j: nat ::
      && FirstOfKind(catalog, kind, i) && FirstToFail(catalog[i].preconditions, snap, j)
      && detail == catalog[i].preconditions[j].id + ": " + catalog[i].preconditions[j].check(snap).value
  }

  /** The adapter had no objection, and this is the message of the first precondition that fails. */
  ghost predicate FailedAt(catalog: Catalog, h: History, id: ActionId, action: CockpitAction, ts: nat, detail: string) {
    exists snap: Snapshot, capability: Capability ::
      && snap.ms == ts && Happened(h, Asked(id, action, snap, capability))
      && (capability.Supported? || capability.UnknownCapability?)
      && FailsWith(catalog, action.Kind(), snap, detail)
  }

  ghost predicate RefusedFor(
      catalog: Catalog, h: History, id: ActionId, action: CockpitAction, ts: nat, reason: RejectionReason) {
    match reason
    case UnknownAction => !KnownKind(catalog, action.Kind())
    case UnsupportedByAdapter => AskedAt(h, id, action, ts, Unsupported)
    case AdapterUnavailable => AskedAt(h, id, action, ts, Unavailable)
    case PreconditionFailed(detail) => FailedAt(catalog, h, id, action, ts, detail)
  }

  /** The write of the id was tried at this time and met this problem. */
  ghost predicate WriteTrouble(h: History, id: ActionId, action: CockpitAction, ts: nat, detail: string) {
    exists snap: Snapshot :: snap.ms == ts && Happened(h, Wrote(id, action, snap, Some(detail)))
  }

  /** What an event about this action owes to the history. */
  ghost predicate Explained(catalog: Catalog, h: History, action: CockpitAction, e: TraceEvent) {
    && (e.ActionRejected? ==> RefusedFor(catalog, h, e.id, action, e.ts, e.refusal))
    && (e.ActionFailed? && e.failure.WriteFailed? ==> WriteTrouble(h, e.id, action, e.ts, e.failure.detail))
  }

  lemma HappenedStays(h: History, h': History, e: Effect)
    requires Past(h, h') && Happened(h, e)
    ensures Happened(h', e)
  {
    var p :| Past(p, h) && p.After? && p.last == e;
    PastTransitive(p, h, h');
  }

  lemma ExplainedStays(catalog: Catalog, h: History, h': History, action: CockpitAction, e: TraceEvent)
    requires Past(h, h') && Explained(catalog, h, action, e)
    ensures Explained(catalog, h', action, e)
  {
    forall x | Happened(h, x) ensures Happened(h', x) { HappenedStays(h, h', x); }
    if e.ActionRejected? && e.refusal.PreconditionFailed? {
      FailedStays(catalog, h, h', e.id, action, e.ts, e.refusal.detail);
    }
  }

  lemma FailedStays(
      catalog: Catalog, h: History, h': History, id: ActionId, action: CockpitAction, ts: nat, detail: string)
    requires Past(h, h') && FailedAt(catalog, h, id, action, ts, detail)
    ensures FailedAt(catalog, h', id, action, ts, detail)
  {
    var snap: Snapshot, capability: Capability :|
      && snap.ms == ts && Happened(h, Asked(id, action, snap, capability))
      && (capability.Supported? || capability.UnknownCapability?)
      && FailsWith(catalog, action.Kind(), snap, detail);
    HappenedStays(h, h', Asked(id, action, snap, capability));
  }

  // ---------- the executor's own searches ----------

  lemma {:induction false} LookupFindsFirst(catalog: Catalog, kind: ActionKind) returns (i: nat)
    ensures Lookup(catalog, kind).Some? <==> KnownKind(catalog, kind)
    ensures Lookup(catalog, kind).Some? ==> FirstOfKind(catalog, kind, i) && Lookup(catalog, kind).value == catalog[i]
  {
    i := 0;
    if catalog != [] && catalog[0].kind != kind {
      var k := LookupFindsFirst(catalog[1..], kind);
      i := k + 1;
      assert catalog == [catalog[0]] + catalog[1..];
    }
  }

  lemma {:induction false} FailureIsFirst(preconditions: seq<Precondition>, snap: Snapshot) returns (j: nat)
    requires FirstFailure(preconditions, snap).Some?
    ensures FirstToFail(preconditions, snap, j)
    ensures FirstFailure(preconditions, snap).value ==
            preconditions[j].id + ": " + preconditions[j].check(snap).value
  {
    if preconditions[0].check(snap).Some? {
      j := 0;
    } else {
      var k := FailureIsFirst(preconditions[1..], snap);
      j := k + 1;
      assert preconditions == [preconditions[0]] + preconditions[1..];
    }
  }

  // ---------- stages, passes, advances ----------

  /** Every question to the adapter was about an action of a known kind. */
  ghost predicate AskedKnown(catalog: Catalog, h: History) {
    match h
    case Empty => true
    case After(past, last) =>
      AskedKnown(catalog, past) && (last.Asked? ==> KnownKind(catalog, last.action.Kind()))
  }

  lemma RefusalExplained(rules: Rules, r: ActionRecord, snap: Snapshot, h: History)
    requires r.status.Requested?
    ensures var (answer, h') := Validate(rules, r, snap, h);
            && Past(h, h') && (AskedKnown(rules.catalog, h) ==> AskedKnown(rules.catalog, h'))
            && (answer.Err? ==> RefusedFor(rules.catalog, h', r.id, r.action, snap.ms, answer.error))
  {
    var i := LookupFindsFirst(rules.catalog, r.action.Kind());
    var entry := Lookup(rules.catalog, r.action.Kind());
    if entry.Some? {
      var capability := rules.capability(h, r.action);
      var asked := Asked(r.id, r.action, snap, capability);
      assert Happened(After(h, asked), asked);
      if !capability.BlocksDispatch() && FirstFailure(entry.value.preconditions, snap).Some? {
        var j := FailureIsFirst(entry.value.preconditions, snap);
        assert FirstOfKind(rules.catalog, r.action.Kind(), i);
        assert FirstToFail(rules.catalog[i].preconditions, snap, j);
        assert FailsWith(rules.catalog, r.action.Kind(), snap, FirstFailure(entry.value.preconditions, snap).value);
      }
    }
  }

  lemma StageExplained(rules: Rules, r: ActionRecord, snap: Snapshot, h: History)
    requires InFlight(r)
    ensures var t := Stage(rules, r, snap, h);
            && Past(h, t.history) && (AskedKnown(rules.catalog, h) ==> AskedKnown(rules.catalog, t.history))
            && (forall e :: e in t.events ==>
                  e.IsAction() && e.id == r.id && Explained(rules.catalog, t.history, r.action, e))
            && (forall s :: s in t.kept ==> SameRequest(r, s))
  {
    if r.status.Requested? {
      RefusalExplained(rules, r, snap, h);
    } else if r.status.Validated? {
      var problem := rules.execute(h, r.action);
      assert Happened(After(h, Wrote(r.id, r.action, snap, problem)), Wrote(r.id, r.action, snap, problem));
    }
  }

  /** The queue holds a record of the event's id whose action explains the event. */
  ghost predicate ExplainedBy(catalog: Catalog, h: History, q: Queue, e: TraceEvent) {
    e.IsAction() && exists r :: r in q && r.id == e.id && Explained(catalog, h, r.action, e)
  }

  ghost predicate AllExplained(catalog: Catalog, h: History, q: Queue, events: seq<TraceEvent>) {
    forall e :: e in events ==> ExplainedBy(catalog, h, q, e)
  }

  ghost predicate ComesFrom(q: Queue, kept: Queue) {
    forall s :: s in kept ==> exists r :: r in q && SameRequest(r, s)
  }

  lemma AllStayExplained(catalog: Catalog, h: History, h': History, q: Queue, q': Queue, events: seq<TraceEvent>)
    requires Past(h, h') && AllExplained(catalog, h, q, events) && ComesFrom(q', q)
    ensures AllExplained(catalog, h', q', events)
  {
    forall e | e in events ensures ExplainedBy(catalog, h', q', e) {
      var s :| s in q && s.id == e.id && Explained(catalog, h, s.action, e);
      var r :| r in q' && SameRequest(r, s);
      ExplainedStays(catalog, h, h', s.action, e);
    }
  }

  lemma {:induction false} PassExplained(rules: Rules, q: Queue, snap: Snapshot, h: History)
    requires AllInFlight(q)
    ensures var t := Pass(rules, q, snap, h);
            && Past(h, t.history) && (AskedKnown(rules.catalog, h) ==> AskedKnown(rules.catalog, t.history))
            && AllExplained(rules.catalog, t.history, q, t.events) && ComesFrom(q, t.kept)
  {
    if q != [] {
      var t := Stage(rules, q[0], snap, h);
      var rest := Pass(rules, q[1..], snap, t.history);
      StageExplained(rules, q[0], snap, h);
      PassExplained(rules, q[1..], snap, t.history);
      PastTransitive(h, t.history, rest.history);
      assert q[0] in q && forall r :: r in q[1..] ==> r in q;
      AllStayExplained(rules.catalog, t.history, rest.history, [q[0]], q, t.events) by {
        assert SameRequest(q[0], q[0]);
        assert q[0] in [q[0]];
      }
      AllStayExplained(rules.catalog, rest.history, rest.history, q[1..], q, rest.events) by {
        assert forall r :: SameRequest(r, r);
      }
    }
  }

  lemma {:induction false} PassesExplained(rules: Rules, q: Queue, snap: Snapshot, h: History)
    requires AllInFlight(q)
    ensures var t := Passes(rules, q, snap, h);
            && Past(h, t.history) && (AskedKnown(rules.catalog, h) ==> AskedKnown(rules.catalog, t.history))
            && AllExplained(rules.catalog, t.history, q, t.events) && ComesFrom(q, t.kept)
    decreases Rank(q)
  {
    var t := Pass(rules, q, snap, h);
    PassExplained(rules, q, snap, h);
    if t.progressed && t.kept != [] {
      PassLowersRank(rules, q, snap, h);
      PassesExplained(rules, t.kept, snap, t.history);
      var rest := Passes(rules, t.kept, snap, t.history);
      PastTransitive(h, t.history, rest.history);
      SameQueue(q);
      AllStayExplained(rules.catalog, t.history, rest.history, q, q, t.events);
      AllStayExplained(rules.catalog, rest.history, rest.history, t.kept, q, rest.events);
      ComesThrough(q, t.kept, rest.kept);
    }
  }

  lemma SameQueue(q: Queue)
    ensures ComesFrom(q, q)
  {
    forall r | r in q ensures exists s :: s in q && SameRequest(s, r) { assert SameRequest(r, r); }
  }

  lemma ComesThrough(a: Queue, b: Queue, c: Queue)
    requires ComesFrom(a, b) && ComesFrom(b, c)
    ensures ComesFrom(a, c)
  {
    forall s | s in c ensures exists r :: r in a && SameRequest(r, s) {
      var x :| x in b && SameRequest(x, s);
      var r :| r in a && SameRequest(r, x);
    }
  }
}
