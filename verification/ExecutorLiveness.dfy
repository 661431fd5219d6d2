/** An advance under good conditions: what waits to be written is written, what was written before is confirmed. */
module ExecutorLiveness {
  import opened Actions
  import opened History
  import opened Executor
  import opened ExecutorLaws

  /** The adapter neither objects to an action nor fails a write, and two ticks of budget are given. */
  ghost predicate Obliging(rules: Rules) {
    && rules.deadline >= 2
    && (forall h, a :: !rules.capability(h, a).BlocksDispatch())
    && (forall h, a :: rules.execute(h, a).None?)
  }

  /** The snapshot admits the actions of the queue that are fresh and confirms those that were dispatched. */
  ghost predicate AllServed(catalog: Catalog, q: Queue, snap: Snapshot) {
    forall r :: r in q ==> Served(catalog, r, snap)
  }

  ghost predicate Served(catalog: Catalog, r: ActionRecord, snap: Snapshot) {
    && (r.status.Requested? ==> Admissible(catalog, r.action, snap))
    && (r.status.Dispatched? ==> Confirms(catalog, r.action, snap))
  }

  /** The record will be confirmed by any confirming snapshot later than its dispatch. */
  ghost predicate IsSent(catalog: Catalog, r: ActionRecord) {
    r.status.Dispatched? && r.verify.Some? && Bound(catalog, r)
  }

  ghost predicate AllSentAt(catalog: Catalog, q: Queue, ms: nat, ticks: nat) {
    forall r :: r in q ==> IsSent(catalog, r) && r.dispatchedMs == ms && r.ticks <= ticks
  }

  ghost predicate AllApproved(catalog: Catalog, q: Queue) {
    forall r :: r in q ==> r.status.Validated? && r.verify.Some? && Bound(catalog, r)
  }

  /** Fresh, or dispatched before this time. */
  ghost predicate AllDue(catalog: Catalog, q: Queue, ms: nat) {
    forall r :: r in q ==> r.status.Requested? || (IsSent(catalog, r) && r.dispatchedMs < ms)
  }

  ghost predicate Holds(q: Queue, id: ActionId) {
    exists r :: r in q && r.id == id
  }

  ghost predicate HoldsFresh(q: Queue, id: ActionId) {
    exists r :: r in q && r.id == id && r.status.Requested?
  }

  ghost predicate HoldsSent(q: Queue, id: ActionId) {
    exists r :: r in q && r.id == id && r.status.Dispatched?
  }

  lemma HoldsConcat(a: Queue, b: Queue)
    ensures forall id :: Holds(a + b, id) <==> Holds(a, id) || Holds(b, id)
    ensures forall id :: HoldsFresh(a + b, id) <==> HoldsFresh(a, id) || HoldsFresh(b, id)
    ensures forall id :: HoldsSent(a + b, id) <==> HoldsSent(a, id) || HoldsSent(b, id)
  {
    assert forall r :: r in a + b <==> r in a || r in b;
  }

  // ---------- single stages ----------

  lemma FreshStage(rules: Rules, r: ActionRecord, snap: Snapshot, h: History)
    requires Obliging(rules) && Served(rules.catalog, r, snap) && r.status.Requested?
    ensures var t := Stage(rules, r, snap, h);
            && |t.kept| == 1 && t.kept[0].id == r.id && AllApproved(rules.catalog, t.kept)
            && t.done == [] && t.progressed
  {
    AdmissibleOnPass(rules.catalog, r.action, snap);
  }

  lemma ApprovedStage(rules: Rules, r: ActionRecord, snap: Snapshot, h: History)
    requires Obliging(rules) && AllApproved(rules.catalog, [r])
    ensures var t := Stage(rules, r, snap, h);
            && |t.kept| == 1 && t.kept[0].id == r.id && AllSentAt(rules.catalog, t.kept, snap.ms, 0)
            && t.done == [] && t.progressed
  {
    assert r in [r];
  }

  lemma SentStage(rules: Rules, r: ActionRecord, snap: Snapshot, h: History)
    requires Obliging(rules) && Served(rules.catalog, r, snap) && IsSent(rules.catalog, r) && r.dispatchedMs < snap.ms
    ensures var t := Stage(rules, r, snap, h);
            t.kept == [] && t.done == [Outcome(r.id, Verified)] && t.progressed
  {
  }

  // ---------- the three passes ----------

  lemma {:induction false} FirstPass(rules: Rules, q: Queue, snap: Snapshot, h: History)
    requires Obliging(rules) && AllServed(rules.catalog, q, snap)
    requires AllInFlight(q) && AllDue(rules.catalog, q, snap.ms)
    ensures var t := Pass(rules, q, snap, h);
            && AllApproved(rules.catalog, t.kept) && (t.progressed <==> q != [])
            && (forall id :: HoldsFresh(q, id) ==> Holds(t.kept, id))
            && (forall id :: HoldsSent(q, id) ==> Outcome(id, Verified) in t.done)
    decreases |q|
  {
    if q != [] {
      var r := q[0];
      assert r in q && q == [r] + q[1..];
      if r.status.Requested? { FreshStage(rules, r, snap, h); } else { SentStage(rules, r, snap, h); }
      var t := Stage(rules, r, snap, h);
      var rest := Pass(rules, q[1..], snap, t.history);
      FirstPass(rules, q[1..], snap, t.history);
      HoldsConcat(t.kept, rest.kept);
      HoldsConcat([r], q[1..]);
      assert t.kept != [] ==> t.kept[0] in t.kept;
    }
  }

  lemma {:induction false} SecondPass(rules: Rules, q: Queue, snap: Snapshot, h: History)
    requires Obliging(rules) && AllInFlight(q) && AllApproved(rules.catalog, q)
    ensures var t := Pass(rules, q, snap, h);
            && AllSentAt(rules.catalog, t.kept, snap.ms, 0) && (t.progressed <==> q != []) && |t.kept| == |q|
            && (forall id :: Holds(q, id) ==> Holds(t.kept, id))
    decreases |q|
  {
    if q != [] {
      var r := q[0];
      assert r in q && q == [r] + q[1..];
      ApprovedStage(rules, r, snap, h);
      var t := Stage(rules, r, snap, h);
      var rest := Pass(rules, q[1..], snap, t.history);
      SecondPass(rules, q[1..], snap, t.history);
      HoldsConcat(t.kept, rest.kept);
      HoldsConcat([r], q[1..]);
      assert t.kept[0] in t.kept;
    }
  }

  /** On the snapshot of its own dispatch a record only waits. */
  lemma {:induction false} ThirdPass(rules: Rules, q: Queue, snap: Snapshot, h: History)
    requires Obliging(rules) && AllInFlight(q) && AllSentAt(rules.catalog, q, snap.ms, 0)
    ensures var t := Pass(rules, q, snap, h);
            && AllSentAt(rules.catalog, t.kept, snap.ms, 1) && !t.progressed
            && (forall id :: Holds(q, id) ==> Holds(t.kept, id))
    decreases |q|
  {
    if q != [] {
      var r := q[0];
      assert r in q && q == [r] + q[1..];
      var t := Stage(rules, r, snap, h);
      assert t.kept == [Aged(r, snap)];
      var rest := Pass(rules, q[1..], snap, t.history);
      ThirdPass(rules, q[1..], snap, t.history);
      HoldsConcat(t.kept, rest.kept);
      HoldsConcat([r], q[1..]);
      assert t.kept[0] in t.kept;
    }
  }

  /** Under good conditions one advance writes every fresh action and verifies every one written before. */
  lemma GoodAdvance(rules: Rules, q: Queue, snap: Snapshot, h: History)
    requires Obliging(rules) && AllServed(rules.catalog, q, snap)
    requires AllInFlight(q) && AllDue(rules.catalog, q, snap.ms)
    ensures var t := Passes(rules, q, snap, h);
            && AllSentAt(rules.catalog, t.kept, snap.ms, 1)
            && (forall id :: HoldsFresh(q, id) ==> HoldsSent(t.kept, id))
            && (forall id :: HoldsSent(q, id) ==> Outcome(id, Verified) in t.done)
  {
    var a := Pass(rules, q, snap, h);
    FirstPass(rules, q, snap, h);
    PassLowersRank(rules, q, snap, h);
    if a.kept != [] {
      SecondPass(rules, a.kept, snap, a.history);
      PassLowersRank(rules, a.kept, snap, a.history);
      var b := Pass(rules, a.kept, snap, a.history);
      ThirdPass(rules, b.kept, snap, b.history);
      var c := Pass(rules, b.kept, snap, b.history);
      assert Passes(rules, b.kept, snap, b.history) == c;
      assert Passes(rules, a.kept, snap, a.history) == Chain(b, c);
      assert Passes(rules, q, snap, h) == Chain(a, Chain(b, c));
      SentAreHeld(rules.catalog, c.kept, snap.ms, 1);
    } else {
      assert Passes(rules, q, snap, h) == a;
    }
  }

  lemma SentAreHeld(catalog: Catalog, q: Queue, ms: nat, ticks: nat)
    requires AllSentAt(catalog, q, ms, ticks)
    ensures forall id :: Holds(q, id) ==> HoldsSent(q, id)
  {
    forall id | Holds(q, id) ensures HoldsSent(q, id) {
      var r :| r in q && r.id == id;
      assert IsSent(catalog, r);
    }
  }
}
