/** What one advance makes of the actions it is given: the order of its events, and the fate of a dispatched action. */
module AdvanceLaws {
  import opened Actions
  import opened History
  import opened Executor
  import opened ExecutorLaws
  import opened Grounds

  // ---------- order ----------

  predicate IdsAscend(events: seq<TraceEvent>) {
    && (forall i :: 0 <= i < |events| ==> events[i].IsAction())
    && forall i, j :: 0 <= i < j < |events| ==> events[i].id < events[j].id
  }

  predicate OutcomesAscend(done: seq<Outcome>) {
    forall i, j :: 0 <= i < j < |done| ==> done[i].id < done[j].id
  }

  ghost predicate OfQueue(q: Queue, t: Turn) {
    && (forall e :: e in t.events ==> e.IsAction() && exists r :: r in q && r.id == e.id)
    && (forall o :: o in t.done ==> exists r :: r in q && r.id == o.id)
  }

  lemma StageInOrder(rules: Rules, r: ActionRecord, snap: Snapshot, h: History)
    requires InFlight(r)
    ensures var t := Stage(rules, r, snap, h);
            && |t.events| <= 1 && (forall e :: e in t.events ==> e.IsAction() && e.id == r.id)
            && |t.done| <= 1 && (forall o :: o in t.done ==> o.id == r.id)
  {
  }

  /** A pass takes its actions in the order of their submission: at most one event and one outcome for each. */
  lemma {:induction false} PassInOrder(rules: Rules, q: Queue, snap: Snapshot, h: History, lo: nat, hi: nat)
    requires AllInFlight(q) && Ascending(q, lo, hi)
    ensures var t := Pass(rules, q, snap, h); IdsAscend(t.events) && OutcomesAscend(t.done) && OfQueue(q, t)
  {
    if q != [] {
      var t := Stage(rules, q[0], snap, h);
      var rest := Pass(rules, q[1..], snap, t.history);
      StageInOrder(rules, q[0], snap, h);
      PassInOrder(rules, q[1..], snap, t.history, q[0].id + 1, hi);
      assert q[0] in q && forall r :: r in q[1..] ==> r in q;
      LaterAreHigher(q, lo, hi);
      assert Pass(rules, q, snap, h) == Join(t, rest);
      JoinedInOrder(q, t, rest);
    }
  }

  lemma LaterAreHigher(q: Queue, lo: nat, hi: nat)
    requires q != [] && Ascending(q, lo, hi)
    ensures forall r :: r in q[1..] ==> r.id > q[0].id
  {
    forall r | r in q[1..] ensures r.id > q[0].id {
      var i :| 0 <= i < |q[1..]| && q[1..][i] == r;
      FindIsUnique(q[1..], q[0].id + 1, hi, i);
    }
  }

  lemma JoinedInOrder(q: Queue, t: Turn, rest: Turn)
    requires q != [] && (forall r :: r in q[1..] ==> r in q && r.id > q[0].id)
    requires |t.events| <= 1 && (forall e :: e in t.events ==> e.IsAction() && e.id == q[0].id)
    requires |t.done| <= 1 && (forall o :: o in t.done ==> o.id == q[0].id)
    requires IdsAscend(rest.events) && OutcomesAscend(rest.done) && OfQueue(q[1..], rest)
    ensures var all := Join(t, rest); IdsAscend(all.events) && OutcomesAscend(all.done) && OfQueue(q, all)
  {
    var events, done := t.events + rest.events, t.done + rest.done;
    forall i | 0 <= i < |events| ensures events[i].IsAction() {
      assert i < |t.events| ==> events[i] in t.events;
    }
    forall i, j | 0 <= i < j < |events| ensures events[i].id < events[j].id {
      assert events[i] in events && events[j] in rest.events;
      if i < |t.events| { assert events[i] in t.events; }
    }
    forall i, j | 0 <= i < j < |done| ensures done[i].id < done[j].id {
      assert done[j] in rest.done;
      if i < |t.done| { assert done[i] in t.done; }
    }
    assert q[0] in q;
  }

  // ---------- the fate of a dispatched action ----------

  /** The snapshot is newer than the dispatch and shows the effect that the catalog asks for. */
  ghost predicate ShowsEffect(catalog: Catalog, r: ActionRecord, snap: Snapshot) {
    snap.ms > r.dispatchedMs && Confirms(catalog, r.action, snap)
  }

  predicate SaysVerified(events: seq<TraceEvent>, id: ActionId) {
    exists e :: e in events && e.ActionVerified? && e.id == id
  }

  predicate SaysTimeout(events: seq<TraceEvent>, id: ActionId) {
    exists e :: e in events && e.ActionFailed? && e.id == id && e.failure.VerificationTimeout?
  }

  predicate NoneAbout(events: seq<TraceEvent>, id: ActionId) {
    forall e :: e in events ==> e.IsAction() && e.id != id
  }

  lemma {:induction false} AbsentIsSilent(rules: Rules, q: Queue, snap: Snapshot, h: History, id: ActionId)
    requires AllInFlight(q) && Find(q, id).None?
    ensures NoneAbout(Passes(rules, q, snap, h).events, id)
    ensures NoneAbout(Pass(rules, q, snap, h).events, id)
  {
    PassExplained(rules, q, snap, h);
    PassesExplained(rules, q, snap, h);
    forall r | r in q ensures r.id != id {
      if r.id == id { FoundIf(q, id, r); }
    }
    AboutTheQueue(rules.catalog, Passes(rules, q, snap, h).history, q, Passes(rules, q, snap, h).events);
    AboutTheQueue(rules.catalog, Pass(rules, q, snap, h).history, q, Pass(rules, q, snap, h).events);
  }

  lemma AboutTheQueue(catalog: Catalog, h: History, q: Queue, events: seq<TraceEvent>)
    requires AllExplained(catalog, h, q, events)
    ensures forall e :: e in events ==> e.IsAction() && exists r :: r in q && r.id == e.id
  {
    forall e | e in events ensures e.IsAction() && exists r :: r in q && r.id == e.id {
      assert ExplainedBy(catalog, h, q, e);
    }
  }

  lemma {:induction false} FoundIf(q: Queue, id: ActionId, r: ActionRecord)
    requires r in q && r.id == id
    ensures Find(q, id).Some?
  {
    if q[0].id != id {
      assert q == [q[0]] + q[1..];
      FoundIf(q[1..], id, r);
    }
  }

  lemma DispatchedStage(rules: Rules, r: ActionRecord, snap: Snapshot, h: History)
    requires InFlight(r) && r.status.Dispatched? && Bound(rules.catalog, r)
    ensures var t := Stage(rules, r, snap, h);
            && (SaysVerified(t.events, r.id) <==> ShowsEffect(rules.catalog, r, snap))
            && (SaysTimeout(t.events, r.id) ==> !snap.sim.Paused? && !ShowsEffect(rules.catalog, r, snap))
            && (t.kept != [] ==> t.kept == [Aged(r, snap)] && t.events == [])
  {
    var t := Stage(rules, r, snap, h);
    VerdictMeans(rules, r, snap);
    if t.events != [] { assert t.events[0] in t.events; }
  }

  lemma VerdictMeans(rules: Rules, r: ActionRecord, snap: Snapshot)
    requires r.verify.Some? && Bound(rules.catalog, r)
    requires r.status.Dispatched?
    ensures Verdict(rules, Aged(r, snap), snap) == Some(true) <==> ShowsEffect(rules.catalog, r, snap)
  {
    var entry := Lookup(rules.catalog, r.action.Kind()).value;
    assert Confirms(rules.catalog, r.action, snap) <==>
           ChannelsFresh(entry, snap) && entry.verify(r.action, snap) == Some(true);
  }

  /** Among these events the action is verified exactly if the snapshot shows its effect, times out only if it does not
      and the simulator is not paused, and is kept only if neither happened. */
  ghost predicate Judged(catalog: Catalog, r: ActionRecord, snap: Snapshot, events: seq<TraceEvent>, kept: Queue) {
    && (SaysVerified(events, r.id) <==> ShowsEffect(catalog, r, snap))
    && (SaysTimeout(events, r.id) ==> !snap.sim.Paused? && !ShowsEffect(catalog, r, snap))
    && (Find(kept, r.id).Some? ==> !ShowsEffect(catalog, r, snap) && !SaysTimeout(events, r.id))
  }

  lemma JudgedAmidst(
      catalog: Catalog, r: ActionRecord, snap: Snapshot, before: seq<TraceEvent>, events: seq<TraceEvent>,
      after: seq<TraceEvent>, kept: Queue, kept': Queue)
    requires Judged(catalog, r, snap, events, kept) && NoneAbout(before, r.id) && NoneAbout(after, r.id)
    requires Find(kept', r.id) == Find(kept, r.id)
    ensures Judged(catalog, r, snap, before + events + after, kept')
  {
    var all := before + events + after;
    forall e | e in all && e.IsAction() && e.id == r.id ensures e in events {}
    forall e | e in events ensures e in all {}
  }

  lemma JudgedFirst(catalog: Catalog, r: ActionRecord, snap: Snapshot, events: seq<TraceEvent>, after: seq<TraceEvent>,
                    kept: Queue, kept': Queue)
    requires Judged(catalog, r, snap, events, kept) && NoneAbout(after, r.id)
    requires Find(kept', r.id) == Find(kept, r.id)
    ensures Judged(catalog, r, snap, events + after, kept')
  {
    JudgedAmidst(catalog, r, snap, [], events, after, kept, kept');
    assert [] + events + after == events + after;
  }

  lemma JudgedLater(catalog: Catalog, r: ActionRecord, snap: Snapshot, before: seq<TraceEvent>, events: seq<TraceEvent>,
                    kept: Queue, kept': Queue)
    requires Judged(catalog, r, snap, events, kept) && NoneAbout(before, r.id)
    requires Find(kept', r.id) == Find(kept, r.id)
    ensures Judged(catalog, r, snap, before + events, kept')
  {
    JudgedAmidst(catalog, r, snap, before, events, [], kept, kept');
    assert before + events + [] == before + events;
  }

  lemma {:induction false} PassJudges(
      rules: Rules, q: Queue, snap: Snapshot, h: History, lo: nat, hi: nat, r: ActionRecord)
    requires AllInFlight(q) && Ascending(q, lo, hi) && Find(q, r.id) == Some(r)
    requires r.status.Dispatched? && Bound(rules.catalog, r)
    ensures var t := Pass(rules, q, snap, h);
            && Judged(rules.catalog, r, snap, t.events, t.kept)
            && (Find(t.kept, r.id).Some? ==> Find(t.kept, r.id).value == Aged(r, snap))
  {
    var t := Stage(rules, q[0], snap, h);
    var rest := Pass(rules, q[1..], snap, t.history);
    StageInOrder(rules, q[0], snap, h);
    StageMoves(rules, q[0], snap, h);
    FindConcat(t.kept, rest.kept, r.id);
    PassMoves(rules, q[1..], snap, t.history, q[0].id + 1, hi, r.id);
    assert Pass(rules, q, snap, h) == Join(t, rest);
    if q[0].id == r.id {
      FindAbove(q[1..], q[0].id + 1, hi, r.id);
      AbsentIsSilent(rules, q[1..], snap, t.history, r.id);
      DispatchedStage(rules, r, snap, h);
      JudgedFirst(rules.catalog, r, snap, t.events, rest.events, t.kept, t.kept + rest.kept);
    } else {
      PassJudges(rules, q[1..], snap, t.history, q[0].id + 1, hi, r);
      JudgedLater(rules.catalog, r, snap, t.events, rest.events, rest.kept, t.kept + rest.kept);
    }
  }

  /** Later passes judge on the same snapshot: they find the same of an action still there and nothing of one gone. */
  lemma JudgedAgain(
      catalog: Catalog, r: ActionRecord, snap: Snapshot, a: seq<TraceEvent>, kept: Queue,
      b: seq<TraceEvent>, kept': Queue)
    requires Judged(catalog, r, snap, a, kept) && Find(kept, r.id).Some?
    requires Judged(catalog, Aged(r, snap), snap, b, kept')
    ensures Judged(catalog, r, snap, a + b, kept')
  {
    assert ShowsEffect(catalog, Aged(r, snap), snap) == ShowsEffect(catalog, r, snap);
    assert forall e :: e in a + b <==> e in a || e in b;
  }

  /** The fate of a dispatched action in an advance: it is verified exactly if the snapshot is newer than the dispatch
      and shows the effect the catalog asks for; it times out only if not, and only while the simulator is not paused;
      and it stays only if neither happened. */
  lemma {:induction false} DispatchedFate(
      rules: Rules, q: Queue, snap: Snapshot, h: History, lo: nat, hi: nat, r: ActionRecord)
    requires AllInFlight(q) && Ascending(q, lo, hi) && Find(q, r.id) == Some(r)
    requires r.status.Dispatched? && Bound(rules.catalog, r)
    ensures var t := Passes(rules, q, snap, h); Judged(rules.catalog, r, snap, t.events, t.kept)
    decreases Rank(q)
  {
    var t := Pass(rules, q, snap, h);
    PassJudges(rules, q, snap, h, lo, hi, r);
    if t.progressed && t.kept != [] {
      PassLowersRank(rules, q, snap, h);
      PassMoves(rules, q, snap, h, lo, hi, r.id);
      var rest := Passes(rules, t.kept, snap, t.history);
      if Find(t.kept, r.id).Some? {
        DispatchedFate(rules, t.kept, snap, t.history, lo, hi, Aged(r, snap));
        JudgedAgain(rules.catalog, r, snap, t.events, t.kept, rest.events, rest.kept);
      } else {
        AbsentIsSilent(rules, t.kept, snap, t.history, r.id);
        BudgetAfterAdvance(rules, t.kept, snap, t.history, lo, hi, r.id);
        JudgedFirst(rules.catalog, r, snap, t.events, rest.events, t.kept, rest.kept);
      }
    }
  }

  /** Paused, nothing times out at all. */
  lemma {:induction false} NoTimeoutWhilePaused(rules: Rules, q: Queue, snap: Snapshot, h: History, id: ActionId)
    requires AllInFlight(q) && snap.sim.Paused?
    ensures !SaysTimeout(Passes(rules, q, snap, h).events, id)
    decreases Rank(q)
  {
    var t := Pass(rules, q, snap, h);
    PassWithoutTimeout(rules, q, snap, h, id);
    if t.progressed && t.kept != [] {
      PassLowersRank(rules, q, snap, h);
      NoTimeoutWhilePaused(rules, t.kept, snap, t.history, id);
    }
  }

  lemma {:induction false} PassWithoutTimeout(rules: Rules, q: Queue, snap: Snapshot, h: History, id: ActionId)
    requires AllInFlight(q) && snap.sim.Paused?
    ensures !SaysTimeout(Pass(rules, q, snap, h).events, id)
  {
    if q != [] {
      var t := Stage(rules, q[0], snap, h);
      PassWithoutTimeout(rules, q[1..], snap, t.history, id);
      assert forall e :: e in t.events ==> !(e.ActionFailed? && e.failure.VerificationTimeout?);
    }
  }
}
