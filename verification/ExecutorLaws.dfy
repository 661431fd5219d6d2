/** What one advance does to every action: its life, its custody, its order and its deadline. */
module ExecutorLaws {
  import opened Actions
  import opened History
  import opened Executor
  import opened Lifecycle

  function Find(q: Queue, id: ActionId): Option<ActionRecord> {
    if q == [] then None else if q[0].id == id then Some(q[0]) else Find(q[1..], id)
  }

  /** Ids strictly increase, within [lo, hi): submission order, and no id twice. */
  predicate Ascending(q: Queue, lo: nat, hi: nat) {
    q == [] || (lo <= q[0].id < hi && Ascending(q[1..], q[0].id + 1, hi))
  }

  function LifeOf(r: ActionRecord): Life {
    match r.status
    case Requested => Awaiting(r.action)
    case Validated => Approved(r.action)
    case Dispatched => Sent(r.action, r.dispatchedMs)
    case _ => Corrupt
  }

  function CustodyOf(r: ActionRecord, snap: Snapshot): Custody {
    match r.status
    case Requested => Traced(r.action)
    case Validated => Cleared(r.action, snap)
    case _ => Written(r.action)
  }

  /** A validated record carries the verifier of its catalog entry. */
  ghost predicate Bound(catalog: Catalog, r: ActionRecord) {
    !r.status.Requested? ==>
      Lookup(catalog, r.action.Kind()).Some? && r.verify == Some(Lookup(catalog, r.action.Kind()).value.verify)
  }

  predicate SameRequest(r: ActionRecord, s: ActionRecord) {
    r.id == s.id && r.action == s.action && r.actor == s.actor && r.at == s.at
  }

  /** The record agrees with the history, with its own catalog entry and with the life seen so far. */
  ghost predicate Consistent(rules: Rules, r: ActionRecord, snap: Snapshot, h: History, l: Life) {
    && InFlight(r) && Bound(rules.catalog, r)
    && l == LifeOf(r) && CustodyIn(rules.catalog, h, r.id) == CustodyOf(r, snap)
  }

  /** How the snapshot of an advance may settle an action as verified. */
  ghost predicate VerifiedBy(rules: Rules, r: ActionRecord, snap: Snapshot) {
    r.status.Dispatched? && snap.ms > r.dispatchedMs && Confirms(rules.catalog, r.action, snap)
  }

  // ---------- one stage ----------

  lemma StageFrame(rules: Rules, r: ActionRecord, snap: Snapshot, h: History, id: ActionId, l: Life)
    requires InFlight(r)
    ensures var t := Stage(rules, r, snap, h);
            && Trace(t.history) == Trace(h) && Seen(t.history) == Seen(h) && Past(h, t.history)
            && (forall e :: e in t.events ==> Concerns(e, r.id) && !e.ActionRequested? && e.ts == snap.ms)
            && (id != r.id ==> LifeFrom(l, t.events, id) == l
                               && CustodyIn(rules.catalog, t.history, id) == CustodyIn(rules.catalog, h, id))
  {
  }

  lemma AdmissibleOnPass(catalog: Catalog, action: CockpitAction, snap: Snapshot)
    requires Lookup(catalog, action.Kind()).Some?
    ensures Admissible(catalog, action, snap) <==>
            FirstFailure(Lookup(catalog, action.Kind()).value.preconditions, snap).None?
  {
    FirstFailureNone(Lookup(catalog, action.Kind()).value.preconditions, snap);
  }

  lemma ValidateLaw(rules: Rules, r: ActionRecord, snap: Snapshot, h: History)
    requires r.status.Requested? && CustodyIn(rules.catalog, h, r.id) == Traced(r.action)
    ensures var t := ValidateStage(rules, r, snap, h);
            var c := CustodyIn(rules.catalog, t.history, r.id);
            var l := LifeFrom(Awaiting(r.action), t.events, r.id);
            && t.done == []
            && if t.kept != []
               then |t.kept| == 1 && SameRequest(r, t.kept[0]) && t.kept[0].status.Validated? && InFlight(t.kept[0])
                    && Bound(rules.catalog, t.kept[0]) && l == Approved(r.action) && c == Cleared(r.action, snap)
               else l == Refused && !c.Breach?
  {
    if Lookup(rules.catalog, r.action.Kind()).Some? {
      AdmissibleOnPass(rules.catalog, r.action, snap);
    }
    LifeSnoc(Awaiting(r.action), [], ValidateStage(rules, r, snap, h).events[0], r.id);
  }

  lemma DispatchLaw(rules: Rules, r: ActionRecord, snap: Snapshot, h: History)
    requires r.status.Validated? && InFlight(r) && Bound(rules.catalog, r)
    requires CustodyIn(rules.catalog, h, r.id) == Cleared(r.action, snap)
    ensures var t := DispatchStage(rules, r, snap, h);
            var c := CustodyIn(rules.catalog, t.history, r.id);
            var l := LifeFrom(Approved(r.action), t.events, r.id);
            && t.done == [] && c == Written(r.action)
            && if t.kept != []
               then |t.kept| == 1 && SameRequest(r, t.kept[0]) && t.kept[0].status.Dispatched? && InFlight(t.kept[0])
                    && Bound(rules.catalog, t.kept[0]) && l == LifeOf(t.kept[0])
               else l == Unwritten
  {
  }

  lemma VerifyLaw(rules: Rules, r: ActionRecord, snap: Snapshot, h: History)
    requires r.status.Dispatched? && InFlight(r) && Bound(rules.catalog, r)
    ensures var t := VerifyStage(rules, r, snap, h);
            var l := LifeFrom(LifeOf(r), t.events, r.id);
            && t.history == h
            && (if t.kept != []
                then t.kept == [Aged(r, snap)] && l == LifeOf(r) && t.done == []
                else (l == Expired && t.done == []) || (l == Confirmed && t.done == [Outcome(r.id, Verified)]))
            && (l.Confirmed? ==> VerifiedBy(rules, r, snap))
  {
  }

  /** One stage, seen from the record it works on. */
  lemma StageLaw(rules: Rules, r: ActionRecord, snap: Snapshot, h: History)
    requires Consistent(rules, r, snap, h, LifeOf(r))
    ensures var t := Stage(rules, r, snap, h);
            var l := LifeFrom(LifeOf(r), t.events, r.id);
            && |t.kept| <= 1
            && (t.kept != [] ==>
                  SameRequest(r, t.kept[0]) && Consistent(rules, t.kept[0], snap, t.history, l) && t.done == [])
            && (t.kept == [] ==> Settled(l) && !CustodyIn(rules.catalog, t.history, r.id).Breach?)
            && (forall o :: o in t.done ==> o == Outcome(r.id, Verified) && l.Confirmed?)
            && (l.Confirmed? ==> t.done == [Outcome(r.id, Verified)] && VerifiedBy(rules, r, snap))
  {
    if r.status.Requested? { ValidateLaw(rules, r, snap, h); }
    else if r.status.Validated? { DispatchLaw(rules, r, snap, h); }
    else { VerifyLaw(rules, r, snap, h); }
  }

  // ---------- queues ----------

  lemma {:induction false} FindAbove(q: Queue, lo: nat, hi: nat, id: ActionId)
    requires Ascending(q, lo, hi) && (id < lo || hi <= id)
    ensures Find(q, id).None?
  {
    if q != [] { FindAbove(q[1..], q[0].id + 1, hi, id); }
  }

  lemma {:induction false} FindConcat(a: Queue, b: Queue, id: ActionId)
    ensures Find(a + b, id) == if Find(a, id).Some? then Find(a, id) else Find(b, id)
  {
    if a == [] {
      assert a + b == b;
    } else {
      assert (a + b)[1..] == a[1..] + b;
      FindConcat(a[1..], b, id);
    }
  }

  lemma {:induction false} FindMember(q: Queue, id: ActionId)
    ensures Find(q, id).Some? ==> Find(q, id).value in q && Find(q, id).value.id == id
  {
    if q != [] && q[0].id != id {
      FindMember(q[1..], id);
    }
  }

  lemma {:induction false} FindIsUnique(q: Queue, lo: nat, hi: nat, i: nat)
    requires Ascending(q, lo, hi) && i < |q|
    ensures lo <= q[i].id < hi && Find(q, q[i].id) == Some(q[i])
  {
    if i > 0 { FindIsUnique(q[1..], q[0].id + 1, hi, i - 1); }
  }

  lemma {:induction false} AscendingWider(q: Queue, lo: nat, hi: nat, lo': nat, hi': nat)
    requires Ascending(q, lo, hi) && lo' <= lo && hi <= hi'
    ensures Ascending(q, lo', hi')
  {
    if q != [] { AscendingWider(q[1..], q[0].id + 1, hi, q[0].id + 1, hi'); }
  }

  lemma {:induction false} AscendingConcat(a: Queue, b: Queue, lo: nat, mid: nat, hi: nat)
    requires Ascending(a, lo, mid) && Ascending(b, mid, hi) && lo <= mid <= hi
    ensures Ascending(a + b, lo, hi)
  {
    if a == [] {
      assert a + b == b;
      AscendingWider(b, mid, hi, lo, hi);
    } else {
      assert (a + b)[1..] == a[1..] + b;
      AscendingConcat(a[1..], b, a[0].id + 1, mid, hi);
    }
  }

  lemma KeptOrder(kept: Queue, r: ActionRecord, rest: Queue, lo: nat, hi: nat)
    requires |kept| <= 1 && (kept != [] ==> kept[0].id == r.id)
    requires lo <= r.id < hi && Ascending(rest, r.id + 1, hi)
    ensures Ascending(kept + rest, lo, hi)
  {
    AscendingWider(rest, r.id + 1, hi, lo, hi);
    if kept != [] {
      assert (kept + rest)[1..] == rest;
    } else {
      assert kept + rest == rest;
    }
  }

  // ---------- one pass ----------

  /** Everything a turn promises about one id, given its life before. */
  ghost predicate TurnLaw(rules: Rules, q: Queue, snap: Snapshot, h: History, t: Turn, id: ActionId, l: Life) {
    var before, after := Find(q, id), Find(t.kept, id);
    var l' := LifeFrom(l, t.events, id);
    && (before.None? ==> after.None? && l' == l && Outcome(id, Verified) !in t.done
                         && CustodyIn(rules.catalog, t.history, id) == CustodyIn(rules.catalog, h, id))
    && (after.Some? ==> before.Some? && SameRequest(before.value, after.value)
                        && Consistent(rules, after.value, snap, t.history, l') && Outcome(id, Verified) !in t.done)
    && (before.Some? && after.None? ==> Settled(l') && !CustodyIn(rules.catalog, t.history, id).Breach?)
    && (before.Some? ==> (Outcome(id, Verified) in t.done <==> l'.Confirmed?))
    && (before.Some? && l'.Confirmed? ==> Confirms(rules.catalog, before.value.action, snap))
  }

  ghost predicate QueueConsistent(rules: Rules, q: Queue, snap: Snapshot, h: History) {
    forall i :: 0 <= i < |q| ==> Consistent(rules, q[i], snap, h, LifeOf(q[i]))
  }

  lemma StageKeepsTail(rules: Rules, q: Queue, snap: Snapshot, h: History, lo: nat, hi: nat)
    requires q != [] && Ascending(q, lo, hi) && QueueConsistent(rules, q, snap, h)
    ensures QueueConsistent(rules, q[1..], snap, Stage(rules, q[0], snap, h).history)
  {
    var t := Stage(rules, q[0], snap, h);
    forall i | 0 <= i < |q[1..]|
      ensures Consistent(rules, q[1..][i], snap, t.history, LifeOf(q[1..][i]))
    {
      FindIsUnique(q[1..], q[0].id + 1, hi, i);
      StageFrame(rules, q[0], snap, h, q[i + 1].id, LifeOf(q[i + 1]));
    }
  }

  /** What a stage on the head of the queue promises about one id. */
  ghost predicate HeadLaw(rules: Rules, r: ActionRecord, snap: Snapshot, h: History, t: Turn, id: ActionId, l: Life) {
    var l' := LifeFrom(l, t.events, id);
    if id != r.id then
      && (forall k :: 0 <= k < |t.kept| ==> t.kept[k].id == r.id) && l' == l && Outcome(id, Verified) !in t.done
      && CustodyIn(rules.catalog, t.history, id) == CustodyIn(rules.catalog, h, id)
    else
      && (t.kept != [] ==>
                  SameRequest(r, t.kept[0]) && Consistent(rules, t.kept[0], snap, t.history, l') && t.done == [])
      && (t.kept == [] ==> Settled(l') && !CustodyIn(rules.catalog, t.history, id).Breach?)
      && (Outcome(id, Verified) in t.done <==> l'.Confirmed?)
      && (l'.Confirmed? ==> Confirms(rules.catalog, r.action, snap))
  }

  lemma StageHeadLaw(rules: Rules, r: ActionRecord, snap: Snapshot, h: History, id: ActionId, l: Life)
    requires Consistent(rules, r, snap, h, LifeOf(r)) && (id == r.id ==> l == LifeOf(r))
    ensures HeadLaw(rules, r, snap, h, Stage(rules, r, snap, h), id, l)
    ensures |Stage(rules, r, snap, h).kept| <= 1
    ensures Stage(rules, r, snap, h).kept != [] ==> Stage(rules, r, snap, h).kept[0].id == r.id
  {
    StageLaw(rules, r, snap, h);
    StageFrame(rules, r, snap, h, id, l);
  }

  /** The head's law and the tail's law make the queue's law. */
  lemma JoinLaw(rules: Rules, q: Queue, snap: Snapshot, h: History, t: Turn, rest: Turn, id: ActionId, l: Life)
    requires q != [] && |t.kept| <= 1 && HeadLaw(rules, q[0], snap, h, t, id, l)
    requires TurnLaw(rules, q[1..], snap, t.history, rest, id, LifeFrom(l, t.events, id))
    requires id == q[0].id ==> Find(q[1..], id).None?
    requires t.kept != [] ==> t.kept[0].id == q[0].id
    ensures TurnLaw(rules, q, snap, h, Join(t, rest), id, l)
  {
    LifeConcat(l, t.events, rest.events, id);
    FindConcat(t.kept, rest.kept, id);
    assert t.kept != [] ==> t.kept[1..] == [];
  }

  lemma {:induction false} PassLaw(
      rules: Rules, q: Queue, snap: Snapshot, h: History, lo: nat, hi: nat, id: ActionId, l: Life)
    requires AllInFlight(q) && Ascending(q, lo, hi) && QueueConsistent(rules, q, snap, h)
    requires Find(q, id).Some? ==> l == LifeOf(Find(q, id).value)
    ensures TurnLaw(rules, q, snap, h, Pass(rules, q, snap, h), id, l)
    ensures Ascending(Pass(rules, q, snap, h).kept, lo, hi)
    decreases |q|
  {
    if q != [] {
      var r := q[0];
      var t := Stage(rules, r, snap, h);
      var rest := Pass(rules, q[1..], snap, t.history);
      StageHeadLaw(rules, r, snap, h, id, l);
      StageKeepsTail(rules, q, snap, h, lo, hi);
      if id == r.id { FindAbove(q[1..], r.id + 1, hi, id); }
      PassLaw(rules, q[1..], snap, t.history, r.id + 1, hi, id, if id == r.id then LifeFrom(l, t.events, id) else l);
      assert Pass(rules, q, snap, h) == Join(t, rest);
      JoinLaw(rules, q, snap, h, t, rest, id, l);
      KeptOrder(t.kept, r, rest.kept, lo, hi);
    }
  }

  // ---------- the whole advance ----------

  lemma ConsistentAfterPass(rules: Rules, q: Queue, snap: Snapshot, h: History, lo: nat, hi: nat)
    requires AllInFlight(q) && Ascending(q, lo, hi) && QueueConsistent(rules, q, snap, h)
    ensures var t := Pass(rules, q, snap, h);
            AllInFlight(t.kept) && Ascending(t.kept, lo, hi) && QueueConsistent(rules, t.kept, snap, t.history)
  {
    var t := Pass(rules, q, snap, h);
    PassLaw(rules, q, snap, h, lo, hi, lo, if Find(q, lo).Some? then LifeOf(Find(q, lo).value) else Corrupt);
    forall i | 0 <= i < |t.kept|
      ensures Consistent(rules, t.kept[i], snap, t.history, LifeOf(t.kept[i]))
    {
      var id := t.kept[i].id;
      FindIsUnique(t.kept, lo, hi, i);
      PassLaw(rules, q, snap, h, lo, hi, id, if Find(q, id).Some? then LifeOf(Find(q, id).value) else Corrupt);
    }
  }

  /** The law of one turn followed by the law of the next is the law of both. */
  lemma ChainLaw(rules: Rules, q: Queue, snap: Snapshot, h: History, a: Turn, b: Turn, id: ActionId, l: Life)
    requires TurnLaw(rules, q, snap, h, a, id, l)
    requires TurnLaw(rules, a.kept, snap, a.history, b, id, LifeFrom(l, a.events, id))
    ensures TurnLaw(rules, q, snap, h, Chain(a, b), id, l)
  {
    LifeConcat(l, a.events, b.events, id);
  }

  lemma {:induction false} PassesLaw(
      rules: Rules, q: Queue, snap: Snapshot, h: History, lo: nat, hi: nat, id: ActionId, l: Life)
    requires AllInFlight(q) && Ascending(q, lo, hi) && QueueConsistent(rules, q, snap, h)
    requires Find(q, id).Some? ==> l == LifeOf(Find(q, id).value)
    ensures TurnLaw(rules, q, snap, h, Passes(rules, q, snap, h), id, l)
    ensures Ascending(Passes(rules, q, snap, h).kept, lo, hi)
    decreases Rank(q)
  {
    var t := Pass(rules, q, snap, h);
    PassLaw(rules, q, snap, h, lo, hi, id, l);
    if t.progressed && t.kept != [] {
      PassLowersRank(rules, q, snap, h);
      ConsistentAfterPass(rules, q, snap, h, lo, hi);
      PassesLaw(rules, t.kept, snap, t.history, lo, hi, id, LifeFrom(l, t.events, id));
      ChainLaw(rules, q, snap, h, t, Passes(rules, t.kept, snap, t.history), id, l);
    }
  }

  /** A record pending at the start of an advance is still pending at its end, with no terminal event among the
      advance's, or it is gone, with exactly one, the last of its own. */
  lemma AdvanceSettlesEach(rules: Rules, q: Queue, snap: Snapshot, h: History, lo: nat, hi: nat, id: ActionId)
    requires AllInFlight(q) && Ascending(q, lo, hi) && QueueConsistent(rules, q, snap, h) && Find(q, id).Some?
    ensures var t := Passes(rules, q, snap, h);
            var w := Word(t.events, id);
            if Find(t.kept, id).Some? then forall i :: 0 <= i < |w| ==> !IsTerminalLetter(w[i])
            else w != [] && forall i :: 0 <= i < |w| ==> (IsTerminalLetter(w[i]) <==> i == |w| - 1)
  {
    var t := Passes(rules, q, snap, h);
    var l := LifeOf(Find(q, id).value);
    FindMember(q, id);
    FindMember(t.kept, id);
    PassesLaw(rules, q, snap, h, lo, hi, id, l);
    SettlesOnce(l, LifeFrom(l, t.events, id), t.events, id);
  }

  lemma {:induction false} SettlesOnce(l: Life, l': Life, events: seq<TraceEvent>, id: ActionId)
    requires (l.Awaiting? || l.Approved? || l.Sent?) && l' == LifeFrom(l, events, id) && !l'.Corrupt?
    ensures var w := Word(events, id);
            if Settled(l') then w != [] && forall i :: 0 <= i < |w| ==> (IsTerminalLetter(w[i]) <==> i == |w| - 1)
            else forall i :: 0 <= i < |w| ==> !IsTerminalLetter(w[i])
  {
    WordFrom(l, events, id);
    var before, all, w := WordSoFar(l), WordSoFar(l'), Word(events, id);
    var last := |before| - 1;
    assert all[last] == before[last];
    TerminalInWord(l, last);
    TerminalInWord(l', last);
    forall i | 0 <= i < |w| ensures IsTerminalLetter(w[i]) <==> Settled(l') && i == |w| - 1 {
      assert w[i] == all[|before| + i];
      TerminalInWord(l', |before| + i);
    }
  }

  /** What an advance adds to the history and to the events, whatever the ids. */
  ghost predicate TurnFrame(snap: Snapshot, h: History, t: Turn) {
    && Trace(t.history) == Trace(h) && Seen(t.history) == Seen(h) && Past(h, t.history)
    && (forall e :: e in t.events ==> e.IsAction() && !e.ActionRequested? && e.ts == snap.ms)
    && (forall o :: o in t.done ==> o.status == Verified)
  }

  lemma {:induction false} PassFrame(rules: Rules, q: Queue, snap: Snapshot, h: History)
    requires AllInFlight(q)
    ensures TurnFrame(snap, h, Pass(rules, q, snap, h))
  {
    if q != [] {
      var t := Stage(rules, q[0], snap, h);
      StageFrame(rules, q[0], snap, h, q[0].id, Corrupt);
      PassFrame(rules, q[1..], snap, t.history);
      PastTransitive(h, t.history, Pass(rules, q[1..], snap, t.history).history);
    }
  }

  lemma {:induction false} PassesFrame(rules: Rules, q: Queue, snap: Snapshot, h: History)
    requires AllInFlight(q)
    ensures TurnFrame(snap, h, Passes(rules, q, snap, h))
    decreases Rank(q)
  {
    var t := Pass(rules, q, snap, h);
    PassFrame(rules, q, snap, h);
    if t.progressed && t.kept != [] {
      PassLowersRank(rules, q, snap, h);
      PassesFrame(rules, t.kept, snap, t.history);
      PastTransitive(h, t.history, Passes(rules, t.kept, snap, t.history).history);
    }
  }

  // ---------- quiescence and the deadline ----------

  predicate AllDispatched(q: Queue) {
    forall i :: 0 <= i < |q| ==> q[i].status.Dispatched? && q[i].verify.Some?
  }

  /** A pass without progress found only dispatched records, aged them, and did nothing else. */
  lemma {:induction false} QuietPass(rules: Rules, q: Queue, snap: Snapshot, h: History)
    requires AllInFlight(q) && !Pass(rules, q, snap, h).progressed
    ensures var t := Pass(rules, q, snap, h);
            && AllDispatched(q) && AllDispatched(t.kept)
            && t.events == [] && t.done == [] && t.history == h
  {
    if q != [] {
      var t := Stage(rules, q[0], snap, h);
      QuietPass(rules, q[1..], snap, t.history);
    }
  }

  /** Whatever survives an advance has been dispatched. */
  lemma {:induction false} SurvivorsAreDispatched(rules: Rules, q: Queue, snap: Snapshot, h: History)
    requires AllInFlight(q)
    ensures AllDispatched(Passes(rules, q, snap, h).kept)
    decreases Rank(q)
  {
    var t := Pass(rules, q, snap, h);
    if !t.progressed {
      QuietPass(rules, q, snap, h);
    } else if t.kept != [] {
      PassLowersRank(rules, q, snap, h);
      SurvivorsAreDispatched(rules, t.kept, snap, t.history);
    }
  }

  /** One stage moves a kept record on by exactly one step; a dispatched one only ages. */
  ghost predicate MovedOn(rules: Rules, r: ActionRecord, s: ActionRecord, snap: Snapshot) {
    && (r.status.Requested? ==> s.status.Validated?)
    && (r.status.Validated? ==> s.status.Dispatched? && s.ticks == 0 && s.dispatchedMs == snap.ms)
    && (r.status.Dispatched? ==> s == Aged(r, snap) && (!snap.sim.Paused? ==> s.ticks < rules.deadline))
  }

  lemma StageMoves(rules: Rules, r: ActionRecord, snap: Snapshot, h: History)
    requires InFlight(r)
    ensures var kept := Stage(rules, r, snap, h).kept;
            |kept| <= 1 && (kept != [] ==> kept[0].id == r.id && MovedOn(rules, r, kept[0], snap))
  {
  }

  lemma {:induction false} PassMoves(rules: Rules, q: Queue, snap: Snapshot, h: History, lo: nat, hi: nat, id: ActionId)
    requires AllInFlight(q) && Ascending(q, lo, hi)
    ensures var s := Find(Pass(rules, q, snap, h).kept, id);
            && (s.Some? ==> Find(q, id).Some? && MovedOn(rules, Find(q, id).value, s.value, snap))
            && Ascending(Pass(rules, q, snap, h).kept, lo, hi)
  {
    if q != [] {
      var t := Stage(rules, q[0], snap, h);
      var rest := Pass(rules, q[1..], snap, t.history);
      StageMoves(rules, q[0], snap, h);
      PassMoves(rules, q[1..], snap, t.history, q[0].id + 1, hi, id);
      FindConcat(t.kept, rest.kept, id);
      KeptOrder(t.kept, q[0], rest.kept, lo, hi);
      if id == q[0].id { FindAbove(rest.kept, q[0].id + 1, hi, id); }
      assert Pass(rules, q, snap, h) == Join(t, rest);
    }
  }

  function TicksUsed(r: ActionRecord): nat {
    if r.status.Dispatched? then r.ticks else 0
  }

  /** When a record that survives an advance was dispatched: before, or on the advance's own snapshot. */
  function DispatchTime(r: ActionRecord, snap: Snapshot): nat {
    if r.status.Dispatched? then r.dispatchedMs else snap.ms
  }

  /** What an advance does to the budget of a surviving record: nothing while paused, at least one tick
      otherwise, and never up to the deadline. */
  lemma {:induction false} BudgetAfterAdvance(
      rules: Rules, q: Queue, snap: Snapshot, h: History, lo: nat, hi: nat, id: ActionId)
    requires AllInFlight(q) && Ascending(q, lo, hi)
    ensures var s := Find(Passes(rules, q, snap, h).kept, id);
            && Ascending(Passes(rules, q, snap, h).kept, lo, hi)
            && (s.Some? ==>
                  && Find(q, id).Some? && s.value.status.Dispatched?
                  && s.value.dispatchedMs == DispatchTime(Find(q, id).value, snap)
                  && (snap.sim.Paused? ==> s.value.ticks == TicksUsed(Find(q, id).value))
                  && (!snap.sim.Paused? ==> TicksUsed(Find(q, id).value) < s.value.ticks < rules.deadline))
    decreases Rank(q)
  {
    var t := Pass(rules, q, snap, h);
    PassMoves(rules, q, snap, h, lo, hi, id);
    FindMember(q, id);
    FindMember(Passes(rules, q, snap, h).kept, id);
    SurvivorsAreDispatched(rules, q, snap, h);
    if t.progressed && t.kept != [] {
      PassLowersRank(rules, q, snap, h);
      BudgetAfterAdvance(rules, t.kept, snap, t.history, lo, hi, id);
    } else if t.kept != [] {
      QuietPass(rules, q, snap, h);
    }
  }
}
