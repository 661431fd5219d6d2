/** The verification deadline: what an advance costs an action, and when it counts once as documented. */
module DeadlineLaws {
  import opened Actions
  import opened History
  import opened Executor
  import opened ExecutorLaws

  // ---------- how many ticks one advance costs ----------

  /** Waiting quietly: verification would only age the record. */
  predicate Waits(rules: Rules, r: ActionRecord, snap: Snapshot) {
    && r.status.Dispatched? && r.verify.Some? && Verdict(rules, Aged(r, snap), snap) != Some(true)
    && (snap.sim.Paused? || Aged(r, snap).ticks < rules.deadline)
  }

  predicate AllWait(rules: Rules, q: Queue, snap: Snapshot) {
    forall i :: 0 <= i < |q| ==> Waits(rules, q[i], snap)
  }

  /** A pass makes no progress exactly when every record of the queue waits quietly. */
  lemma {:induction false} QuietIff(rules: Rules, q: Queue, snap: Snapshot, h: History)
    requires AllInFlight(q)
    ensures !Pass(rules, q, snap, h).progressed <==> AllWait(rules, q, snap)
  {
    if q != [] {
      var t := Stage(rules, q[0], snap, h);
      QuietIff(rules, q[1..], snap, t.history);
      assert q == [q[0]] + q[1..];
      assert Pass(rules, q, snap, h) == Join(t, Pass(rules, q[1..], snap, t.history));
    }
  }

  /** How many passes an advance makes. */
  function PassCount(rules: Rules, q: Queue, snap: Snapshot, h: History): nat
    requires AllInFlight(q)
    decreases Rank(q)
  {
    var t := Pass(rules, q, snap, h);
    if !t.progressed || t.kept == [] then 1
    else
      PassLowersRank(rules, q, snap, h);
      1 + PassCount(rules, t.kept, snap, t.history)
  }

  /** The passes a record spends on its way to being dispatched. */
  function PassesToDispatch(r: ActionRecord): nat {
    if r.status.Requested? then 2 else if r.status.Validated? then 1 else 0
  }

  /** The exact cost of an unpaused advance: one tick for every pass behind the record's dispatch. */
  lemma {:induction false} TicksArePasses(
      rules: Rules, q: Queue, snap: Snapshot, h: History, lo: nat, hi: nat, id: ActionId)
    requires AllInFlight(q) && Ascending(q, lo, hi) && !snap.sim.Paused?
    requires Find(Passes(rules, q, snap, h).kept, id).Some?
    ensures Find(q, id).Some?
    ensures var r := Find(q, id).value;
            Find(Passes(rules, q, snap, h).kept, id).value.ticks + PassesToDispatch(r) ==
            TicksUsed(r) + PassCount(rules, q, snap, h)
    decreases Rank(q)
  {
    var t := Pass(rules, q, snap, h);
    PassMoves(rules, q, snap, h, lo, hi, id);
    FindMember(q, id);
    if t.progressed && t.kept != [] {
      PassLowersRank(rules, q, snap, h);
      TicksArePasses(rules, t.kept, snap, t.history, lo, hi, id);
    } else {
      SurvivorsAreDispatched(rules, q, snap, h);
      FindMember(t.kept, id);
      if t.kept != [] { QuietPass(rules, q, snap, h); }
    }
  }

  // ---------- where a pass leaves its records ----------

  /** One pass of a dispatched record: it waits on, one tick older unless paused, or it is gone. */
  lemma {:induction false} PassKeepsWaiting(
      rules: Rules, q: Queue, snap: Snapshot, h: History, lo: nat, hi: nat, id: ActionId)
    requires AllInFlight(q) && Ascending(q, lo, hi) && Find(q, id).Some? && Find(q, id).value.status.Dispatched?
    ensures var r := Find(q, id).value;
            Find(Pass(rules, q, snap, h).kept, id) == if Waits(rules, r, snap) then Some(Aged(r, snap)) else None
  {
    var t := Stage(rules, q[0], snap, h);
    var rest := Pass(rules, q[1..], snap, t.history);
    PassMoves(rules, q[1..], snap, t.history, q[0].id + 1, hi, id);
    FindConcat(t.kept, rest.kept, id);
    if q[0].id == id {
      FindAbove(rest.kept, q[0].id + 1, hi, id);
    } else {
      StageMoves(rules, q[0], snap, h);
      PassKeepsWaiting(rules, q[1..], snap, t.history, q[0].id + 1, hi, id);
    }
  }

  /** What may come out of a pass, seen from the record that went in. */
  ghost predicate CameFrom(rules: Rules, x: ActionRecord, y: ActionRecord, snap: Snapshot) {
    && MovedOn(rules, x, y, snap) && InFlight(x) && InFlight(y) && (x.status.Dispatched? ==> Waits(rules, x, snap))
  }

  /** Everything left by a pass comes from a record of the queue, and every waiting record is left, aged. */
  lemma {:induction false} PassContents(rules: Rules, q: Queue, snap: Snapshot, h: History)
    requires AllInFlight(q)
    ensures var kept := Pass(rules, q, snap, h).kept;
            && (forall y :: y in kept ==> exists x :: x in q && CameFrom(rules, x, y, snap))
            && (forall x :: x in q && Waits(rules, x, snap) ==> Aged(x, snap) in kept)
  {
    if q != [] {
      var t := Stage(rules, q[0], snap, h);
      var rest := Pass(rules, q[1..], snap, t.history);
      PassContents(rules, q[1..], snap, t.history);
      StageMoves(rules, q[0], snap, h);
      StageLowersRank(rules, q[0], snap, h);
      assert q == [q[0]] + q[1..];
      forall y | y in t.kept ensures CameFrom(rules, q[0], y, snap) {
        assert y == t.kept[0];
      }
    }
  }

  /** Between advances no record stands half-way: each is fresh or dispatched. */
  predicate Resting(q: Queue) {
    forall i :: 0 <= i < |q| ==> !q[i].status.Validated?
  }

  /** No unconfirmed dispatched record runs into its deadline at the third tick from now. */
  predicate NoneDueThird(rules: Rules, q: Queue, snap: Snapshot) {
    forall i :: 0 <= i < |q| ==> !DueThird(rules, q[i], snap)
  }

  predicate DueThird(rules: Rules, r: ActionRecord, snap: Snapshot) {
    r.status.Dispatched? && r.verify.Some? && Verdict(rules, r, snap) != Some(true) && r.ticks + 3 == rules.deadline
  }

  /** A record two passes on. */
  lemma TwicePassed(rules: Rules, q: Queue, snap: Snapshot, h: History, y: ActionRecord)
    requires AllInFlight(q) && Resting(q) && !snap.sim.Paused? && 1 < rules.deadline
    requires AllInFlight(Pass(rules, q, snap, h).kept) && NoneDueThird(rules, q, snap)
    requires var a := Pass(rules, q, snap, h); y in Pass(rules, a.kept, snap, a.history).kept
    ensures Waits(rules, y, snap)
  {
    var a := Pass(rules, q, snap, h);
    PassContents(rules, q, snap, h);
    PassContents(rules, a.kept, snap, a.history);
    var x' :| x' in a.kept && CameFrom(rules, x', y, snap);
    var x :| x in q && CameFrom(rules, x, x', snap);
    var i :| 0 <= i < |q| && q[i] == x;
    assert !DueThird(rules, x, snap);
    assert !x.status.Validated?;
  }

  /** After two unpaused passes all that is left waits quietly, just when none of the queue is due at its third tick. */
  lemma SecondPassIff(rules: Rules, q: Queue, snap: Snapshot, h: History)
    requires AllInFlight(q) && Resting(q) && !snap.sim.Paused? && 1 < rules.deadline
    ensures AllInFlight(Pass(rules, q, snap, h).kept)
    ensures var a := Pass(rules, q, snap, h);
            AllWait(rules, Pass(rules, a.kept, snap, a.history).kept, snap) <==> NoneDueThird(rules, q, snap)
  {
    var a := Pass(rules, q, snap, h);
    PassLowersRank(rules, q, snap, h);
    var b := Pass(rules, a.kept, snap, a.history);
    if NoneDueThird(rules, q, snap) {
      forall i | 0 <= i < |b.kept| ensures Waits(rules, b.kept[i], snap) {
        TwicePassed(rules, q, snap, h, b.kept[i]);
      }
    } else {
      var i :| 0 <= i < |q| && DueThird(rules, q[i], snap);
      var x := q[i];
      PassContents(rules, q, snap, h);
      PassContents(rules, a.kept, snap, a.history);
      assert Waits(rules, x, snap) && Waits(rules, Aged(x, snap), snap);
      var y := Aged(Aged(x, snap), snap);
      var j :| 0 <= j < |b.kept| && b.kept[j] == y;
      assert !Waits(rules, b.kept[j], snap);
    }
  }

  // ---------- when an advance counts once ----------

  /** What an unpaused advance should make of a dispatched record that it counts once: one tick older, or gone if
      confirmed or at its deadline. */
  function CountedOnce(rules: Rules, r: ActionRecord, snap: Snapshot): Option<ActionRecord> {
    if Waits(rules, r, snap) then Some(Aged(r, snap)) else None
  }

  /** Deadlines are counted per advance, as promised, exactly when nothing in the queue moves: an unpaused advance
      counts once for a dispatched action if and only if that action is confirmed or at its deadline anyway, or every
      record of the queue is dispatched, not confirmed by the snapshot, and within its deadline. */
  lemma CountedOnceIff(rules: Rules, q: Queue, snap: Snapshot, h: History, lo: nat, hi: nat, id: ActionId)
    requires AllInFlight(q) && Ascending(q, lo, hi) && !snap.sim.Paused?
    requires Find(q, id).Some? && Find(q, id).value.status.Dispatched?
    ensures var r := Find(q, id).value;
            Find(Passes(rules, q, snap, h).kept, id) == CountedOnce(rules, r, snap)
            <==> (Waits(rules, r, snap) ==> AllWait(rules, q, snap))
  {
    var t := Pass(rules, q, snap, h);
    var r := Find(q, id).value;
    PassKeepsWaiting(rules, q, snap, h, lo, hi, id);
    QuietIff(rules, q, snap, h);
    if t.progressed && t.kept != [] {
      PassMoves(rules, q, snap, h, lo, hi, id);
      PassLowersRank(rules, q, snap, h);
      BudgetAfterAdvance(rules, t.kept, snap, t.history, lo, hi, id);
    }
  }

  /** The advance that dispatches a request costs it one tick, and not more, exactly when no unconfirmed action already
      dispatched is due at its third tick: the third pass then ends the advance. Without two ticks of budget the request
      is gone at once in any case. */
  lemma DispatchCountedOnceIff(rules: Rules, q: Queue, snap: Snapshot, h: History, lo: nat, hi: nat, id: ActionId)
    requires AllInFlight(q) && Ascending(q, lo, hi) && Resting(q) && !snap.sim.Paused?
    requires Find(q, id).Some? && Find(q, id).value.status.Requested?
    requires SaysDispatched(Passes(rules, q, snap, h).events, id)
    ensures var s := Find(Passes(rules, q, snap, h).kept, id);
            (if 1 < rules.deadline then s.Some? && s.value.ticks == 1 else s.None?)
            <==> (1 < rules.deadline ==> NoneDueThird(rules, q, snap))
  {
    var a := Pass(rules, q, snap, h);
    DispatchedInSecondPass(rules, q, snap, h, lo, hi, id);
    var b := Pass(rules, a.kept, snap, a.history);
    BudgetAfterAdvance(rules, q, snap, h, lo, hi, id);
    if 1 < rules.deadline {
      SecondPassIff(rules, q, snap, h);
      CountFromSecond(rules, q, snap, h, lo, hi, id);
    }
  }

  /** Once written by the second pass, the action is counted once if and only if the third pass is quiet. */
  lemma CountFromSecond(rules: Rules, q: Queue, snap: Snapshot, h: History, lo: nat, hi: nat, id: ActionId)
    requires AllInFlight(q) && Ascending(q, lo, hi) && !snap.sim.Paused? && 1 < rules.deadline
    requires Find(q, id).Some? && Find(q, id).value.status.Requested?
    requires AllInFlight(Pass(rules, q, snap, h).kept)
    requires var a := Pass(rules, q, snap, h); Find(Pass(rules, a.kept, snap, a.history).kept, id).Some?
    ensures var a := Pass(rules, q, snap, h);
            var s := Find(Passes(rules, q, snap, h).kept, id);
            (s.Some? && s.value.ticks == 1) <==> AllWait(rules, Pass(rules, a.kept, snap, a.history).kept, snap)
  {
    var a := Pass(rules, q, snap, h);
    var b := Pass(rules, a.kept, snap, a.history);
    PassMoves(rules, q, snap, h, lo, hi, id);
    PassMoves(rules, a.kept, snap, a.history, lo, hi, id);
    PassLowersRank(rules, q, snap, h);
    PassLowersRank(rules, a.kept, snap, a.history);
    NotQuiet(rules, q, snap, h, id);
    NotQuiet(rules, a.kept, snap, a.history, id);
    assert Find(Passes(rules, q, snap, h).kept, id) == Find(Passes(rules, b.kept, snap, b.history).kept, id);
    var d := Find(b.kept, id).value;
    FindMember(b.kept, id);
    assert d.ticks == 0 && Waits(rules, d, snap);
    CountedOnceIff(rules, b.kept, snap, b.history, lo, hi, id);
    QuietIff(rules, b.kept, snap, b.history);
    if Find(Passes(rules, b.kept, snap, b.history).kept, id).Some? {
      TicksArePasses(rules, b.kept, snap, b.history, lo, hi, id);
    }
  }

  /** A queue with a record not yet dispatched does not rest. */
  lemma NotQuiet(rules: Rules, q: Queue, snap: Snapshot, h: History, id: ActionId)
    requires AllInFlight(q) && Find(q, id).Some? && !Find(q, id).value.status.Dispatched?
    ensures Pass(rules, q, snap, h).progressed
  {
    FindMember(q, id);
    QuietIff(rules, q, snap, h);
  }

  // ---------- the event of the dispatch ----------

  predicate SaysDispatched(events: seq<TraceEvent>, id: ActionId) {
    exists e :: e in events && e.ActionDispatched? && e.id == id
  }

  lemma SaysConcat(a: seq<TraceEvent>, b: seq<TraceEvent>, id: ActionId)
    ensures SaysDispatched(a + b, id) <==> SaysDispatched(a, id) || SaysDispatched(b, id)
  {
    if SaysDispatched(a, id) {
      var e :| e in a && e.ActionDispatched? && e.id == id;
      assert e in a + b;
    }
    if SaysDispatched(b, id) {
      var e :| e in b && e.ActionDispatched? && e.id == id;
      assert e in a + b;
    }
  }

  /** A pass tells of a dispatch just when it turns a validated record into a dispatched one. */
  lemma {:induction false} PassSays(
      rules: Rules, q: Queue, snap: Snapshot, h: History, lo: nat, hi: nat, id: ActionId)
    requires AllInFlight(q) && Ascending(q, lo, hi)
    ensures SaysDispatched(Pass(rules, q, snap, h).events, id) ==>
              && Find(q, id).Some? && Find(q, id).value.status.Validated?
              && Find(Pass(rules, q, snap, h).kept, id).Some?
  {
    if q != [] {
      var r := q[0];
      var t := Stage(rules, r, snap, h);
      var rest := Pass(rules, q[1..], snap, t.history);
      PassSays(rules, q[1..], snap, t.history, r.id + 1, hi, id);
      SaysConcat(t.events, rest.events, id);
      FindConcat(t.kept, rest.kept, id);
      StageSays(rules, r, snap, h, id);
      FindAbove(q[1..], r.id + 1, hi, r.id);
    }
  }

  lemma StageSays(rules: Rules, r: ActionRecord, snap: Snapshot, h: History, id: ActionId)
    requires InFlight(r)
    ensures var t := Stage(rules, r, snap, h);
            SaysDispatched(t.events, id) ==>
              r.id == id && r.status.Validated? && Find(t.kept, id).Some?
  {
  }

  /** A queue of dispatched records tells of no dispatch any more. */
  lemma {:induction false} NoneSaidLater(
      rules: Rules, q: Queue, snap: Snapshot, h: History, lo: nat, hi: nat, id: ActionId)
    requires AllInFlight(q) && Ascending(q, lo, hi) && (Find(q, id).Some? ==> Find(q, id).value.status.Dispatched?)
    ensures !SaysDispatched(Passes(rules, q, snap, h).events, id)
    decreases Rank(q)
  {
    var t := Pass(rules, q, snap, h);
    PassSays(rules, q, snap, h, lo, hi, id);
    PassMoves(rules, q, snap, h, lo, hi, id);
    if t.progressed && t.kept != [] {
      PassLowersRank(rules, q, snap, h);
      NoneSaidLater(rules, t.kept, snap, t.history, lo, hi, id);
      SaysConcat(t.events, Passes(rules, t.kept, snap, t.history).events, id);
    }
  }

  /** A fresh request that the advance dispatches is dispatched by its second pass. */
  lemma DispatchedInSecondPass(rules: Rules, q: Queue, snap: Snapshot, h: History, lo: nat, hi: nat, id: ActionId)
    requires AllInFlight(q) && Ascending(q, lo, hi)
    requires Find(q, id).Some? && Find(q, id).value.status.Requested?
    requires SaysDispatched(Passes(rules, q, snap, h).events, id)
    ensures AllInFlight(Pass(rules, q, snap, h).kept)
    ensures var a := Pass(rules, q, snap, h); Find(Pass(rules, a.kept, snap, a.history).kept, id).Some?
  {
    var a := Pass(rules, q, snap, h);
    PassSays(rules, q, snap, h, lo, hi, id);
    PassMoves(rules, q, snap, h, lo, hi, id);
    PassLowersRank(rules, q, snap, h);
    if a.progressed && a.kept != [] {
      SaysConcat(a.events, Passes(rules, a.kept, snap, a.history).events, id);
      var b := Pass(rules, a.kept, snap, a.history);
      PassSays(rules, a.kept, snap, a.history, lo, hi, id);
      PassMoves(rules, a.kept, snap, a.history, lo, hi, id);
      PassLowersRank(rules, a.kept, snap, a.history);
      if b.progressed && b.kept != [] {
        SaysConcat(b.events, Passes(rules, b.kept, snap, b.history).events, id);
        NoneSaidLater(rules, b.kept, snap, b.history, lo, hi, id);
      }
    }
  }

  /** Two ticks of budget and one unpaused advance: alone a dispatched action waits on with one tick used, but next to a
      fresh request it is dropped, although the snapshot counts once. */
  lemma CompanyCostsTicks(rules: Rules, r: ActionRecord, s: ActionRecord, snap: Snapshot, h: History)
    requires rules.deadline == 2 && !snap.sim.Paused? && r.id < s.id && s.status.Requested?
    requires r.status.Dispatched? && r.verify.Some? && r.ticks == 0 && r.verify.value(r.action, snap) != Some(true)
    ensures Passes(rules, [r], snap, h).kept == [r.(ticks := 1)]
    ensures Find(Passes(rules, [r, s], snap, h).kept, r.id).None?
  {
    AloneStep(rules, r, snap, h);
    var q := [r, s];
    assert q[1..] == [s] && [s][1..] == [];
    assert Ascending(q, 0, s.id + 1);
    QuietIff(rules, q, snap, h);
    assert !AllWait(rules, q, snap) by { assert !Waits(rules, q[1], snap); }
    assert Find(q, r.id) == Some(r);
    BudgetAfterAdvance(rules, q, snap, h, 0, s.id + 1, r.id);
    CountedOnceIff(rules, q, snap, h, 0, s.id + 1, r.id);
    if Find(Passes(rules, q, snap, h).kept, r.id).Some? {
      TicksArePasses(rules, q, snap, h, 0, s.id + 1, r.id);
    }
  }

  // ---------- many advances ----------

  function Unpaused(snaps: seq<Snapshot>): nat {
    if snaps == [] then 0
    else (if snaps[|snaps| - 1].sim.Paused? then 0 else 1) + Unpaused(snaps[..|snaps| - 1])
  }

  /** A run of advances as the runtime makes it: newly committed requests join the queue before each one. */
  ghost predicate AdvanceRun(
      rules: Rules, queues: seq<Queue>, arrivals: seq<Queue>, snaps: seq<Snapshot>, hs: seq<History>) {
    && |queues| == |snaps| + 1 && |arrivals| == |hs| == |snaps|
    && forall k :: 0 <= k < |snaps| ==> OneAdvance(rules, queues[k], arrivals[k], snaps[k], hs[k], queues[k + 1])
  }

  ghost predicate OneAdvance(rules: Rules, q: Queue, arrived: Queue, snap: Snapshot, h: History, q': Queue) {
    && AllInFlight(q + arrived) && (exists hi :: Ascending(q + arrived, 0, hi))
    && q' == Passes(rules, q + arrived, snap, h).kept
  }

  /** The condition under which an advance counts once for an action of the queue: paused, or, the action dispatched,
      everything waits, or, the action still a request, nothing is due at its third tick. */
  predicate CountsOnce(rules: Rules, q: Queue, arrived: Queue, snap: Snapshot, id: ActionId) {
    snap.sim.Paused? ||
    (Find(q, id).Some? && if Find(q, id).value.status.Dispatched? then AllWait(rules, q + arrived, snap)
                          else NoneDueThird(rules, q + arrived, snap))
  }

  /** It holds of every advance of the run. */
  predicate AllCountOnce(rules: Rules, queues: seq<Queue>, arrivals: seq<Queue>, snaps: seq<Snapshot>, id: ActionId)
    requires |queues| == |snaps| + 1 && |arrivals| == |snaps|
  {
    forall k :: 0 <= k < |snaps| ==> CountsOnce(rules, queues[k], arrivals[k], snaps[k], id)
  }

  /** Nothing half-way is in the queue at the beginning, nor arrives later. */
  predicate RestingRun(queues: seq<Queue>, arrivals: seq<Queue>)
    requires queues != []
  {
    Resting(queues[0]) && forall k :: 0 <= k < |arrivals| ==> Resting(arrivals[k])
  }

  lemma AdvanceRunPrefix(
      rules: Rules, queues: seq<Queue>, arrivals: seq<Queue>, snaps: seq<Snapshot>, hs: seq<History>, id: ActionId)
    requires AdvanceRun(rules, queues, arrivals, snaps, hs) && snaps != []
    ensures var n := |snaps| - 1;
            && AdvanceRun(rules, queues[..n + 1], arrivals[..n], snaps[..n], hs[..n])
            && (RestingRun(queues, arrivals) ==> RestingRun(queues[..n + 1], arrivals[..n]))
            && (AllCountOnce(rules, queues, arrivals, snaps, id) <==>
                  AllCountOnce(rules, queues[..n + 1], arrivals[..n], snaps[..n], id)
                  && CountsOnce(rules, queues[n], arrivals[n], snaps[n], id))
  {
    var n := |snaps| - 1;
    forall k | 0 <= k < n
      ensures queues[..n + 1][k] == queues[k] && arrivals[..n][k] == arrivals[k]
      ensures snaps[..n][k] == snaps[k] && hs[..n][k] == hs[k]
    {
    }
  }

  /** One advance from the action's point of view. */
  lemma AdvanceCost(rules: Rules, q: Queue, arrived: Queue, snap: Snapshot, h: History, q': Queue, id: ActionId)
    requires OneAdvance(rules, q, arrived, snap, h, q') && Find(arrived, id).None? && Find(q', id).Some?
    ensures Find(q, id).Some? && Find(q', id).value.status.Dispatched?
    ensures var used, after := TicksUsed(Find(q, id).value), Find(q', id).value.ticks;
            && (snap.sim.Paused? ==> after == used)
            && (!snap.sim.Paused? ==> used < after < rules.deadline)
            && (Resting(q + arrived) ==>
                  (CountsOnce(rules, q, arrived, snap, id) <==> after == used + if snap.sim.Paused? then 0 else 1))
  {
    var all := q + arrived;
    var hi :| Ascending(all, 0, hi);
    BudgetAfterAdvance(rules, all, snap, h, 0, hi, id);
    FindConcat(q, arrived, id);
    if !snap.sim.Paused? && Resting(all) { SurvivorCost(rules, all, snap, h, hi, id); }
  }

  /** What an unpaused advance costs a survivor, in terms of the queue it began with. */
  lemma SurvivorCost(rules: Rules, q: Queue, snap: Snapshot, h: History, hi: nat, id: ActionId)
    requires AllInFlight(q) && Ascending(q, 0, hi) && Resting(q) && !snap.sim.Paused?
    requires Find(Passes(rules, q, snap, h).kept, id).Some?
    ensures Find(q, id).Some?
    ensures var r, after := Find(q, id).value, Find(Passes(rules, q, snap, h).kept, id).value.ticks;
            after == TicksUsed(r) + 1 <==>
            if r.status.Dispatched? then AllWait(rules, q, snap) else NoneDueThird(rules, q, snap)
  {
    BudgetAfterAdvance(rules, q, snap, h, 0, hi, id);
    TicksArePasses(rules, q, snap, h, 0, hi, id);
    FindMember(q, id);
    var a := Pass(rules, q, snap, h);
    PassMoves(rules, q, snap, h, 0, hi, id);
    if Find(q, id).value.status.Dispatched? {
      QuietIff(rules, q, snap, h);
      if a.progressed { assert a.kept != []; }
    } else {
      SurvivesTwoPasses(rules, q, snap, h, hi, id);
      SecondPassIff(rules, q, snap, h);
      CountFromSecond(rules, q, snap, h, 0, hi, id);
    }
  }

  lemma SurvivesTwoPasses(rules: Rules, q: Queue, snap: Snapshot, h: History, hi: nat, id: ActionId)
    requires AllInFlight(q) && Ascending(q, 0, hi) && Find(q, id).Some? && Find(q, id).value.status.Requested?
    requires Find(Passes(rules, q, snap, h).kept, id).Some?
    ensures AllInFlight(Pass(rules, q, snap, h).kept)
    ensures var a := Pass(rules, q, snap, h); Find(Pass(rules, a.kept, snap, a.history).kept, id).Some?
  {
    var a := Pass(rules, q, snap, h);
    NotQuiet(rules, q, snap, h, id);
    PassLowersRank(rules, q, snap, h);
    PassMoves(rules, q, snap, h, 0, hi, id);
    assert a.kept != [];
    BudgetAfterAdvance(rules, a.kept, snap, a.history, 0, hi, id);
    NotQuiet(rules, a.kept, snap, a.history, id);
    PassLowersRank(rules, a.kept, snap, a.history);
    var b := Pass(rules, a.kept, snap, a.history);
    PassMoves(rules, a.kept, snap, a.history, 0, hi, id);
    assert b.kept != [];
    BudgetAfterAdvance(rules, b.kept, snap, b.history, 0, hi, id);
  }

  lemma RestingTogether(rules: Rules, q: Queue, arrived: Queue)
    requires Resting(q) && Resting(arrived)
    ensures Resting(q + arrived)
  {
  }

  /** An action present at the first advance of a run and still queued after the last has seen fewer unpaused advances
      than the deadline (none at all if the deadline is zero). Where requests arrive fresh, its count is the number of
      those advances if and only if none of them found anything in the queue that cost it more. */
  lemma {:induction false} DeadlineBound(
      rules: Rules, queues: seq<Queue>, arrivals: seq<Queue>, snaps: seq<Snapshot>, hs: seq<History>, id: ActionId)
    requires AdvanceRun(rules, queues, arrivals, snaps, hs)
    requires snaps != [] && Find(queues[0], id).Some? && Find(queues[|snaps|], id).Some?
    requires forall k :: 0 <= k < |snaps| ==> Find(arrivals[k], id).None?
    ensures Find(queues[|snaps|], id).value.status.Dispatched?
    ensures Find(queues[|snaps|], id).value.ticks >= TicksUsed(Find(queues[0], id).value) + Unpaused(snaps)
    ensures Unpaused(snaps) == 0 || TicksUsed(Find(queues[0], id).value) + Unpaused(snaps) < rules.deadline
    ensures RestingRun(queues, arrivals) ==>
              (Find(queues[|snaps|], id).value.ticks == TicksUsed(Find(queues[0], id).value) + Unpaused(snaps)
               <==> AllCountOnce(rules, queues, arrivals, snaps, id))
  {
    var n := |snaps| - 1;
    assert OneAdvance(rules, queues[n], arrivals[n], snaps[n], hs[n], queues[n + 1]);
    AdvanceCost(rules, queues[n], arrivals[n], snaps[n], hs[n], queues[n + 1], id);
    AdvanceRunPrefix(rules, queues, arrivals, snaps, hs, id);
    if RestingRun(queues, arrivals) { QueueRests(rules, queues, arrivals, snaps, hs, n); }
    if n > 0 {
      DeadlineBound(rules, queues[..n + 1], arrivals[..n], snaps[..n], hs[..n], id);
    } else {
      assert snaps[..0] == [];
    }
  }

  lemma QueueRests(
      rules: Rules, queues: seq<Queue>, arrivals: seq<Queue>, snaps: seq<Snapshot>, hs: seq<History>, k: nat)
    requires AdvanceRun(rules, queues, arrivals, snaps, hs) && RestingRun(queues, arrivals) && k < |snaps|
    ensures Resting(queues[k] + arrivals[k])
  {
    if k > 0 {
      assert OneAdvance(rules, queues[k - 1], arrivals[k - 1], snaps[k - 1], hs[k - 1], queues[k]);
      SurvivorsAreDispatched(rules, queues[k - 1] + arrivals[k - 1], snaps[k - 1], hs[k - 1]);
    }
    RestingTogether(rules, queues[k], arrivals[k]);
  }

  // ---------- an action alone ----------

  /** Successive advances of one queue with nothing arriving. */
  function Feed(rules: Rules, q: Queue, snaps: seq<Snapshot>, h: History): Queue
    requires AllInFlight(q)
    decreases |snaps|
  {
    if snaps == [] then q
    else
      SurvivorsAreDispatched(rules, q, snaps[0], h);
      var t := Passes(rules, q, snaps[0], h);
      Feed(rules, t.kept, snaps[1..], t.history)
  }

  lemma {:induction false} UnpausedConcat(a: seq<Snapshot>, b: seq<Snapshot>)
    ensures Unpaused(a + b) == Unpaused(a) + Unpaused(b)
    decreases |b|
  {
    if b == [] {
      assert a + b == a;
    } else {
      var n := |b| - 1;
      assert (a + b)[..|a + b| - 1] == a + b[..n];
      UnpausedConcat(a, b[..n]);
    }
  }

  lemma UnpausedFirst(snaps: seq<Snapshot>)
    requires snaps != []
    ensures Unpaused(snaps) == (if snaps[0].sim.Paused? then 0 else 1) + Unpaused(snaps[1..])
  {
    assert snaps == [snaps[0]] + snaps[1..];
    UnpausedConcat([snaps[0]], snaps[1..]);
    assert [snaps[0]][..0] == [];
  }

  /** What `n` unpaused advances leave of a dispatched record that nothing confirms. */
  function Left(rules: Rules, r: ActionRecord, n: nat): Queue {
    if n == 0 || r.ticks + n < rules.deadline then [r.(ticks := r.ticks + n)] else []
  }

  /** Alone in the queue and unconfirmed, a dispatched action is dropped by the very advance that uses up its budget. */
  lemma {:induction false} AloneDispatched(rules: Rules, r: ActionRecord, snaps: seq<Snapshot>, h: History)
    requires r.status.Dispatched? && r.verify.Some?
    requires forall s :: s in snaps ==> Verdict(rules, r, s) != Some(true)
    ensures Feed(rules, [r], snaps, h) == Left(rules, r, Unpaused(snaps))
    decreases |snaps|
  {
    if snaps != [] {
      var s := snaps[0];
      assert s in snaps;
      var t := Passes(rules, [r], s, h);
      UnpausedFirst(snaps);
      AloneStep(rules, r, s, h);
      if t.kept != [] {
        forall x | x in snaps[1..] ensures Verdict(rules, Aged(r, s), x) != Some(true) {
          assert Verdict(rules, Aged(r, s), x) == Verdict(rules, r, x);
        }
        AloneDispatched(rules, Aged(r, s), snaps[1..], t.history);
      } else {
        EmptyFeed(rules, snaps[1..], t.history);
      }
    }
  }

  lemma AloneStep(rules: Rules, r: ActionRecord, s: Snapshot, h: History)
    requires r.status.Dispatched? && r.verify.Some? && Verdict(rules, r, s) != Some(true)
    ensures Passes(rules, [r], s, h).kept ==
            if s.sim.Paused? || Aged(r, s).ticks < rules.deadline then [Aged(r, s)] else []
  {
    assert [r][1..] == [];
    assert Pass(rules, [r], s, h) == Join(Stage(rules, r, s, h), Idle(Stage(rules, r, s, h).history));
  }

  lemma {:induction false} EmptyFeed(rules: Rules, snaps: seq<Snapshot>, h: History)
    ensures Feed(rules, [], snaps, h) == []
    decreases |snaps|
  {
    if snaps != [] {
      EmptyFeed(rules, snaps[1..], Passes(rules, [], snaps[0], h).history);
    }
  }

  /** The record of a request once it has been validated and written on this snapshot. */
  function Dispatching(r: ActionRecord, verify: Verifier, snap: Snapshot): ActionRecord {
    r.(status := Dispatched, verify := Some(verify), ticks := 0, dispatchedMs := snap.ms)
  }

  /** The first advance of a request alone in the queue validates it, writes it and already looks for its
      post-condition, all on one snapshot. */
  lemma AloneFirst(rules: Rules, r: ActionRecord, snap: Snapshot, h: History)
    requires r.status.Requested?
    ensures var (answer, h1) := Validate(rules, r, snap, h);
            Passes(rules, [r], snap, h).kept ==
              if answer.Err? || rules.execute(h1, r.action).Some? then []
              else if snap.sim.Paused? then [Dispatching(r, answer.value, snap)]
              else if 1 < rules.deadline then [Dispatching(r, answer.value, snap).(ticks := 1)] else []
  {
    var (answer, h1) := Validate(rules, r, snap, h);
    OnePass(rules, r, snap, h);
    if answer.Ok? {
      var v := r.(status := Validated, verify := Some(answer.value));
      OnePass(rules, v, snap, h1);
      PassLowersRank(rules, [r], snap, h);
      PassLowersRank(rules, [v], snap, h1);
      var problem := rules.execute(h1, r.action);
      if problem.None? {
        AloneStep(rules, Dispatching(r, answer.value, snap), snap, After(h1, Wrote(r.id, r.action, snap, problem)));
      }
    }
  }

  lemma OnePass(rules: Rules, r: ActionRecord, snap: Snapshot, h: History)
    requires InFlight(r)
    ensures var t, u := Stage(rules, r, snap, h), Pass(rules, [r], snap, h);
            u.kept == t.kept && u.progressed == t.progressed && u.history == t.history
  {
    assert [r][1..] == [];
  }

  /** From request to deadline: alone in the queue, validated, written and never confirmed, an action is dropped by just
      the advance that makes its unpaused ones as many as the deadline, the one that dispatched it included. */
  lemma AloneDeadlineIsExact(rules: Rules, r: ActionRecord, snaps: seq<Snapshot>, h: History)
    requires r.status.Requested? && snaps != []
    requires var (answer, h1) := Validate(rules, r, snaps[0], h);
             && answer.Ok? && rules.execute(h1, r.action).None?
             && forall s :: s in snaps ==> Verdict(rules, Dispatching(r, answer.value, snaps[0]), s) != Some(true)
    ensures var verify := Validate(rules, r, snaps[0], h).0.value;
            Feed(rules, [r], snaps, h) == Left(rules, Dispatching(r, verify, snaps[0]), Unpaused(snaps))
  {
    UnpausedFirst(snaps);
    AloneFirst(rules, r, snaps[0], h);
    var d := Dispatching(r, Validate(rules, r, snaps[0], h).0.value, snaps[0]);
    var t := Passes(rules, [r], snaps[0], h);
    if t.kept != [] {
      forall x | x in snaps[1..] ensures Verdict(rules, t.kept[0], x) != Some(true) {
        assert Verdict(rules, t.kept[0], x) == Verdict(rules, d, x);
      }
      AloneDispatched(rules, t.kept[0], snaps[1..], t.history);
    } else {
      EmptyFeed(rules, snaps[1..], t.history);
    }
  }
}
