/** Which refusal an action gets, and why a write failed, told from the catalog and the exchanges with the adapter. */
module RunRefusals {
  import opened Actions
  import opened History
  import opened Lifecycle
  import opened RuntimeModel
  import opened RuntimeLaws
  import opened Grounds
  import opened RunEvidence

  /** The adapter was asked on behalf of the id and answered this. */
  ghost predicate Answered(h: History, id: ActionId, capability: Capability) {
    exists action: CockpitAction, snap: Snapshot :: Happened(h, Asked(id, action, snap, capability))
  }

  // ---------- one question, one write, one request ----------

  lemma {:induction false} OneBeforeTheOther(p: History, q: History, h: History)
    requires Past(p, h) && Past(q, h)
    ensures Past(p, q) || Past(q, p)
  {
    if p != h && q != h { OneBeforeTheOther(p, q, h.past); }
  }

  lemma {:induction false} QuestionIsBehind(catalog: Catalog, p: History, h: History, id: ActionId)
    requires Past(p, h) && !CustodyIn(catalog, p, id).Untraced? && !CustodyIn(catalog, p, id).Traced?
    ensures !CustodyIn(catalog, h, id).Untraced? && !CustodyIn(catalog, h, id).Traced?
  {
    if p != h { QuestionIsBehind(catalog, p, h.past, id); }
  }

  /** Without a breach the adapter is asked at most once for an id, about the action of its request. */
  lemma AskedOnce(catalog: Catalog, h: History, id: ActionId, e: Effect, e': Effect)
    requires !CustodyIn(catalog, h, id).Breach?
    requires Happened(h, e) && e.Asked? && e.id == id && Happened(h, e') && e'.Asked? && e'.id == id
    ensures e == e' && RequestTraced(h, id, e.action)
  {
    var p :| Past(p, h) && p.After? && p.last == e;
    var q :| Past(q, h) && q.After? && q.last == e';
    OneBeforeTheOther(p, q, h);
    NoBreachBefore(catalog, p, h, id);
    NoBreachBefore(catalog, q, h, id);
    if p != q {
      if Past(p, q) {
        QuestionIsBehind(catalog, p, q.past, id);
      } else {
        QuestionIsBehind(catalog, q, p.past, id);
      }
    }
    NoBreachBefore(catalog, p.past, p, id);
    CustodyMeaning(catalog, p.past, id);
    assert Past(p.past, p);
    PastTransitive(p.past, p, h);
    RequestKept(p.past, h, id, e.action);
  }

  lemma WroteOnce(catalog: Catalog, h: History, id: ActionId, e: Effect, e': Effect)
    requires !CustodyIn(catalog, h, id).Breach?
    requires Happened(h, e) && e.Wrote? && e.id == id && Happened(h, e') && e'.Wrote? && e'.id == id
    ensures e == e'
  {
    var p :| Past(p, h) && p.After? && p.last == e;
    var q :| Past(q, h) && q.After? && q.last == e';
    OneBeforeTheOther(p, q, h);
    WriteIsLawful(catalog, h, p, id);
    WriteIsLawful(catalog, h, q, id);
  }

  lemma {:induction false} RequestedLife(trace: seq<TraceEvent>, e: TraceEvent)
    requires e in trace && e.ActionRequested? && !LifeIn(trace, e.id).Corrupt?
    ensures !LifeIn(trace, e.id).NotRequested?
  {
    var n := |trace| - 1;
    assert trace == trace[..n] + [trace[n]];
    LifeSnoc(NotRequested, trace[..n], trace[n], e.id);
    if trace[n] != e {
      LifeOfPrefix(trace[..n], trace, e.id);
      RequestedLife(trace[..n], e);
    }
  }

  lemma {:induction false} RequestedOnce(trace: seq<TraceEvent>, e: TraceEvent, e': TraceEvent)
    requires e in trace && e.ActionRequested? && e' in trace && e'.ActionRequested? && e'.id == e.id
    requires !LifeIn(trace, e.id).Corrupt?
    ensures e == e'
  {
    var n := |trace| - 1;
    assert trace == trace[..n] + [trace[n]];
    LifeSnoc(NotRequested, trace[..n], trace[n], e.id);
    LifeOfPrefix(trace[..n], trace, e.id);
    if e in trace[..n] && e' in trace[..n] {
      RequestedOnce(trace[..n], e, e');
    } else if e in trace[..n] {
      RequestedLife(trace[..n], e);
    } else if e' in trace[..n] {
      RequestedLife(trace[..n], e');
    }
  }

  lemma {:induction false} AskedIsKnown(catalog: Catalog, h: History, e: Effect)
    requires AskedKnown(catalog, h) && Happened(h, e) && e.Asked?
    ensures KnownKind(catalog, e.action.Kind())
  {
    var p :| Past(p, h) && p.After? && p.last == e;
    if p != h {
      assert Happened(h.past, e);
      AskedIsKnown(catalog, h.past, e);
    }
  }

  /** A snapshot has one first precondition to fail. */
  lemma FailsOneWay(catalog: Catalog, kind: ActionKind, snap: Snapshot, d: string, d': string)
    requires FailsWith(catalog, kind, snap, d) && FailsWith(catalog, kind, snap, d')
    ensures d == d'
  {
    var i: nat, j: nat :|
      && FirstOfKind(catalog, kind, i) && FirstToFail(catalog[i].preconditions, snap, j)
      && d == catalog[i].preconditions[j].id + ": " + catalog[i].preconditions[j].check(snap).value;
    var i': nat, j': nat :|
      && FirstOfKind(catalog, kind, i') && FirstToFail(catalog[i'].preconditions, snap, j')
      && d' == catalog[i'].preconditions[j'].id + ": " + catalog[i'].preconditions[j'].check(snap).value;
    assert i == i';
    assert j == j';
  }

  // ---------- the reasons tell each other apart ----------

  /** Among the exchanges of a whole history a refusal has exactly the ground that its reason names. */
  ghost predicate RefusalTold(catalog: Catalog, h: History, action: CockpitAction, e: TraceEvent)
    requires e.ActionRejected?
  {
    && (e.refusal.UnknownAction? <==> !KnownKind(catalog, action.Kind()))
    && (e.refusal.UnknownAction? <==> forall c :: !Answered(h, e.id, c))
    && (e.refusal.UnsupportedByAdapter? <==> Answered(h, e.id, Unsupported))
    && (e.refusal.AdapterUnavailable? <==> Answered(h, e.id, Unavailable))
    && (forall d :: e.refusal == PreconditionFailed(d) <==> FailedAt(catalog, h, e.id, action, e.ts, d))
  }

  lemma AskedAnswers(catalog: Catalog, h: History, id: ActionId, action: CockpitAction, snap: Snapshot, c: Capability)
    requires !CustodyIn(catalog, h, id).Breach? && AskedKnown(catalog, h)
    requires Happened(h, Asked(id, action, snap, c))
    ensures KnownKind(catalog, action.Kind())
    ensures forall c' :: Answered(h, id, c') <==> c' == c
  {
    AskedIsKnown(catalog, h, Asked(id, action, snap, c));
    forall c' ensures Answered(h, id, c') <==> c' == c {
      if Answered(h, id, c') {
        var action', snap' :| Happened(h, Asked(id, action', snap', c'));
        AskedOnce(catalog, h, id, Asked(id, action, snap, c), Asked(id, action', snap', c'));
      }
    }
  }

  lemma FailedAtOneWay(
      catalog: Catalog, h: History, id: ActionId, action: CockpitAction, ts: nat, d: string, d': string)
    requires !CustodyIn(catalog, h, id).Breach?
    requires FailedAt(catalog, h, id, action, ts, d) && FailedAt(catalog, h, id, action, ts, d')
    ensures d == d'
  {
    var snap: Snapshot, c: Capability :|
      && snap.ms == ts && Happened(h, Asked(id, action, snap, c)) && (c.Supported? || c.UnknownCapability?)
      && FailsWith(catalog, action.Kind(), snap, d);
    var snap': Snapshot, c': Capability :|
      && snap'.ms == ts && Happened(h, Asked(id, action, snap', c')) && (c'.Supported? || c'.UnknownCapability?)
      && FailsWith(catalog, action.Kind(), snap', d');
    AskedOnce(catalog, h, id, Asked(id, action, snap, c), Asked(id, action, snap', c'));
    FailsOneWay(catalog, action.Kind(), snap, d, d');
  }

  lemma FailedAtAnswers(catalog: Catalog, h: History, id: ActionId, action: CockpitAction, ts: nat, d: string)
    requires !CustodyIn(catalog, h, id).Breach? && AskedKnown(catalog, h)
    requires FailedAt(catalog, h, id, action, ts, d)
    ensures KnownKind(catalog, action.Kind()) && (Answered(h, id, Supported) || Answered(h, id, UnknownCapability))
    ensures !Answered(h, id, Unsupported) && !Answered(h, id, Unavailable)
  {
    var snap: Snapshot, c: Capability :|
      && snap.ms == ts && Happened(h, Asked(id, action, snap, c)) && (c.Supported? || c.UnknownCapability?)
      && FailsWith(catalog, action.Kind(), snap, d);
    AskedAnswers(catalog, h, id, action, snap, c);
  }

  lemma AskedAtAnswers(catalog: Catalog, h: History, id: ActionId, action: CockpitAction, ts: nat, c: Capability)
    requires !CustodyIn(catalog, h, id).Breach? && AskedKnown(catalog, h)
    requires AskedAt(h, id, action, ts, c)
    ensures KnownKind(catalog, action.Kind())
    ensures forall c' :: Answered(h, id, c') <==> c' == c
  {
    var snap: Snapshot :| snap.ms == ts && Happened(h, Asked(id, action, snap, c));
    AskedAnswers(catalog, h, id, action, snap, c);
  }

  /** No question is asked about a requested action of an unknown kind. */
  lemma UnknownIsNotAsked(catalog: Catalog, h: History, id: ActionId, action: CockpitAction, c: Capability)
    requires !CustodyIn(catalog, h, id).Breach? && !LifeIn(Trace(h), id).Corrupt? && AskedKnown(catalog, h)
    requires RequestTraced(h, id, action) && Answered(h, id, c)
    ensures KnownKind(catalog, action.Kind())
  {
    var action', snap :| Happened(h, Asked(id, action', snap, c));
    var asked := Asked(id, action', snap, c);
    AskedOnce(catalog, h, id, asked, asked);
    AskedIsKnown(catalog, h, asked);
    var e :| e in Trace(h) && e.ActionRequested? && e.id == id && e.action == action;
    var e' :| e' in Trace(h) && e'.ActionRequested? && e'.id == id && e'.action == action';
    RequestedOnce(Trace(h), e, e');
  }

  lemma ReasonIsTold(catalog: Catalog, h: History, action: CockpitAction, e: TraceEvent)
    requires e.ActionRejected? && RefusedFor(catalog, h, e.id, action, e.ts, e.refusal)
    requires !CustodyIn(catalog, h, e.id).Breach? && !LifeIn(Trace(h), e.id).Corrupt? && AskedKnown(catalog, h)
    requires RequestTraced(h, e.id, action)
    ensures RefusalTold(catalog, h, action, e)
  {
    match e.refusal {
      case UnknownAction =>
        forall c ensures !Answered(h, e.id, c) {
          if Answered(h, e.id, c) { UnknownIsNotAsked(catalog, h, e.id, action, c); }
        }
      case UnsupportedByAdapter =>
        AskedAtAnswers(catalog, h, e.id, action, e.ts, Unsupported);
        assert Answered(h, e.id, Unsupported);
      case AdapterUnavailable =>
        AskedAtAnswers(catalog, h, e.id, action, e.ts, Unavailable);
        assert Answered(h, e.id, Unavailable);
      case PreconditionFailed(detail) => FailedAtAnswers(catalog, h, e.id, action, e.ts, detail);
    }
    forall d ensures e.refusal == PreconditionFailed(d) <==> FailedAt(catalog, h, e.id, action, e.ts, d) {
      if FailedAt(catalog, h, e.id, action, e.ts, d) {
        FailedAtAnswers(catalog, h, e.id, action, e.ts, d);
        if e.refusal.PreconditionFailed? {
          FailedAtOneWay(catalog, h, e.id, action, e.ts, d, e.refusal.detail);
        }
      }
    }
  }

  // ---------- every run ----------

  lemma VerdictReasoned(setup: Setup, calls: seq<Call>, p: History) returns (action: CockpitAction)
    requires Past(p, Run(setup, calls).history) && p.After? && p.last.Appended?
    requires p.last.event.ActionRejected? || p.last.event.ActionFailed?
    ensures RequestTraced(p.past, p.last.event.id, action)
    ensures RequestTraced(Run(setup, calls).history, p.last.event.id, action)
    ensures Explained(setup.catalog, Run(setup, calls).history, action, p.last.event)
  {
    var h := Run(setup, calls).history;
    RunBacked(setup, calls);
    GroundedAtTheTime(setup, h, p);
    action :| RequestTraced(p.past, p.last.event.id, action) && Explained(setup.catalog, p.past, action, p.last.event);
    assert Past(p.past, p);
    PastTransitive(p.past, p, h);
    RequestKept(p.past, h, p.last.event.id, action);
    ExplainedStays(setup.catalog, p.past, h, action, p.last.event);
  }

  /** Whenever a run appends an ActionRejected, the request of its id is in the trace and the whole history of the run
      bears out just the reason given: the catalog has no entry for the requested kind, and then the adapter is never
      asked; or the adapter's one answer about the id was Unsupported, or Unavailable; or it was neither, and the first
      precondition to fail on the snapshot it was asked on is the one the reason quotes. */
  lemma RefusalsInEveryRun(setup: Setup, calls: seq<Call>, p: History)
    requires Past(p, Run(setup, calls).history) && p.After? && p.last.Appended? && p.last.event.ActionRejected?
    ensures var e := p.last.event;
            exists action :: RequestTraced(p.past, e.id, action)
                             && RefusalTold(setup.catalog, Run(setup, calls).history, action, e)
  {
    var h, e := Run(setup, calls).history, p.last.event;
    var action := VerdictReasoned(setup, calls, p);
    RunBacked(setup, calls);
    RunKeepsLaw(setup, calls);
    assert Sound(setup, h, e.id);
    ReasonIsTold(setup.catalog, h, action, e);
  }

  /** Whenever a run appends a WriteFailed, the id's one write was tried at the event's time, and the adapter's answer
      to it is what the event quotes. */
  lemma WriteFailuresInEveryRun(setup: Setup, calls: seq<Call>, p: History)
    requires Past(p, Run(setup, calls).history) && p.After? && p.last.Appended?
    requires p.last.event.ActionFailed? && p.last.event.failure.WriteFailed?
    ensures var h, e := Run(setup, calls).history, p.last.event;
            && (exists action :: RequestTraced(p.past, e.id, action)
                                 && WriteTrouble(h, e.id, action, e.ts, e.failure.detail))
            && (forall x :: Happened(h, x) && x.Wrote? && x.id == e.id ==>
                              x.problem == Some(e.failure.detail) && x.at.ms == e.ts)
  {
    var h, e := Run(setup, calls).history, p.last.event;
    var action := VerdictReasoned(setup, calls, p);
    RunKeepsLaw(setup, calls);
    assert Sound(setup, h, e.id);
    var snap: Snapshot :| snap.ms == e.ts && Happened(h, Wrote(e.id, action, snap, Some(e.failure.detail)));
    forall x | Happened(h, x) && x.Wrote? && x.id == e.id
      ensures x.problem == Some(e.failure.detail) && x.at.ms == e.ts
    {
      WroteOnce(setup.catalog, h, e.id, x, Wrote(e.id, action, snap, Some(e.failure.detail)));
    }
  }
}
