/** The action pipeline: a two-phase queue advanced by passes until no action makes progress. */
module Executor {
  import opened Actions
  import opened History

  datatype ActionRecord = ActionRecord(
    id: ActionId, action: CockpitAction, actor: Actor, at: nat,
    status: ActionStatus, verify: Option<Verifier>, ticks: nat, dispatchedMs: nat)

  type Queue = seq<ActionRecord>

  datatype Exec = Exec(staged: Queue, pending: Queue, completed: seq<Outcome>, nextId: ActionId)

  /** What stays fixed for the life of an executor: the adapter's answers, the catalog and the deadline. */
  datatype Rules = Rules(
    capability: (History, CockpitAction) -> Capability, execute: (History, CockpitAction) -> Option<string>,
    catalog: Catalog, deadline: nat)

  function RulesOf(env: Env, catalog: Catalog, deadline: nat): Rules {
    Rules(env.capability, env.execute, catalog, deadline)
  }

  /** The result of one stage, one pass or one whole advance. */
  datatype Turn = Turn(kept: Queue, done: seq<Outcome>, events: seq<TraceEvent>, progressed: bool, history: History)

  function NewRecord(id: ActionId, action: CockpitAction, actor: Actor, at: nat): ActionRecord {
    ActionRecord(id, action, actor, at, Requested, None, 0, 0)
  }

  /** Still in the pipeline, and carrying its verifier once validated. */
  predicate InFlight(r: ActionRecord) {
    r.status.Requested? || ((r.status.Validated? || r.status.Dispatched?) && r.verify.Some?)
  }

  predicate AllInFlight(q: Queue) {
    forall i :: 0 <= i < |q| ==> InFlight(q[i])
  }

  // ---------- one record, one stage ----------

  function Refusal(capability: Capability): RejectionReason {
    if capability.Unsupported? then UnsupportedByAdapter else AdapterUnavailable
  }

  /** Catalog membership, then capability, then preconditions: the first failure is the answer. */
  function Validate(
      rules: Rules, r: ActionRecord, snap: Snapshot, h: History): (Result<Verifier, RejectionReason>, History) {
    match Lookup(rules.catalog, r.action.Kind())
    case None => (Err(UnknownAction), h)
    case Some(entry) =>
      var capability := rules.capability(h, r.action);
      var h' := After(h, Asked(r.id, r.action, snap, capability));
      if capability.BlocksDispatch() then (Err(Refusal(capability)), h')
      else match FirstFailure(entry.preconditions, snap)
        case Some(detail) => (Err(PreconditionFailed(detail)), h')
        case None => (Ok(entry.verify), h')
  }

  function ValidateStage(rules: Rules, r: ActionRecord, snap: Snapshot, h: History): Turn {
    var (answer, h') := Validate(rules, r, snap, h);
    match answer
    case Ok(verify) =>
      Turn([r.(status := Validated, verify := Some(verify))], [],
           [ActionValidated(PLACEHOLDER, snap.ms, r.id)], true, h')
    case Err(reason) =>
      Turn([], [], [ActionRejected(PLACEHOLDER, snap.ms, r.id, reason)], true, h')
  }

  function DispatchStage(rules: Rules, r: ActionRecord, snap: Snapshot, h: History): Turn {
    var problem := rules.execute(h, r.action);
    var h' := After(h, Wrote(r.id, r.action, snap, problem));
    match problem
    case None =>
      Turn([r.(status := Dispatched, ticks := 0, dispatchedMs := snap.ms)], [],
           [ActionDispatched(PLACEHOLDER, snap.ms, r.id)], true, h')
    case Some(detail) =>
      Turn([], [], [ActionFailed(PLACEHOLDER, snap.ms, r.id, WriteFailed(detail))], true, h')
  }

  predicate ChannelsOk(catalog: Catalog, action: CockpitAction, snap: Snapshot) {
    match Lookup(catalog, action.Kind())
    case None => true
    case Some(entry) => ChannelsFresh(entry, snap)
  }

  /** The verifier's answer, or None when the snapshot is not admissible evidence. */
  function Verdict(rules: Rules, r: ActionRecord, snap: Snapshot): Option<bool>
    requires r.verify.Some?
  {
    if snap.ms > r.dispatchedMs && ChannelsOk(rules.catalog, r.action, snap)
    then r.verify.value(r.action, snap) else None
  }

  function Aged(r: ActionRecord, snap: Snapshot): ActionRecord {
    if snap.sim.Paused? then r else r.(ticks := r.ticks + 1)
  }

  function VerifyStage(rules: Rules, r: ActionRecord, snap: Snapshot, h: History): Turn
    requires r.verify.Some?
  {
    var aged := Aged(r, snap);
    if Verdict(rules, aged, snap) == Some(true) then
      Turn([], [Outcome(r.id, Verified)], [ActionVerified(PLACEHOLDER, snap.ms, r.id)], true, h)
    else if !snap.sim.Paused? && aged.ticks >= rules.deadline then
      Turn([], [], [ActionFailed(PLACEHOLDER, snap.ms, r.id, VerificationTimeout)], true, h)
    else
      Turn([aged], [], [], false, h)
  }

  function Stage(rules: Rules, r: ActionRecord, snap: Snapshot, h: History): Turn
    requires InFlight(r)
  {
    if r.status.Requested? then ValidateStage(rules, r, snap, h)
    else if r.status.Validated? then DispatchStage(rules, r, snap, h)
    else VerifyStage(rules, r, snap, h)
  }

  // ---------- one pass, all passes ----------

  /** `a` happened, then `b`. */
  function Join(a: Turn, b: Turn): Turn {
    Turn(a.kept + b.kept, a.done + b.done, a.events + b.events, a.progressed || b.progressed, b.history)
  }

  function Idle(h: History): Turn {
    Turn([], [], [], false, h)
  }

  /** Every record of the queue goes through one stage, in order. */
  function Pass(rules: Rules, q: Queue, snap: Snapshot, h: History): Turn
    requires AllInFlight(q)
  {
    if q == [] then Idle(h)
    else
      var t := Stage(rules, q[0], snap, h);
      Join(t, Pass(rules, q[1..], snap, t.history))
  }

  function StageRank(r: ActionRecord): nat {
    if r.status.Requested? then 3 else if r.status.Validated? then 2 else 1
  }

  function Rank(q: Queue): nat {
    if q == [] then 0 else StageRank(q[0]) + Rank(q[1..])
  }

  lemma {:induction false} RankConcat(a: Queue, b: Queue)
    ensures Rank(a + b) == Rank(a) + Rank(b)
  {
    if a == [] {
      assert a + b == b;
    } else {
      assert (a + b)[1..] == a[1..] + b;
      RankConcat(a[1..], b);
    }
  }

  /** A stage keeps at most its own record, and a stage that progressed moved it on or dropped it. */
  lemma StageLowersRank(rules: Rules, r: ActionRecord, snap: Snapshot, h: History)
    requires InFlight(r)
    ensures var t := Stage(rules, r, snap, h);
            && AllInFlight(t.kept)
            && Rank(t.kept) <= StageRank(r)
            && (t.progressed ==> Rank(t.kept) < StageRank(r))
  {
  }

  /** A pass never raises the rank, and lowers it whenever it makes progress. */
  lemma {:induction false} PassLowersRank(rules: Rules, q: Queue, snap: Snapshot, h: History)
    requires AllInFlight(q)
    ensures AllInFlight(Pass(rules, q, snap, h).kept)
    ensures Rank(Pass(rules, q, snap, h).kept) <= Rank(q)
    ensures Pass(rules, q, snap, h).progressed ==> Rank(Pass(rules, q, snap, h).kept) < Rank(q)
  {
    if q != [] {
      StageLowersRank(rules, q[0], snap, h);
      var t := Stage(rules, q[0], snap, h);
      var rest := Pass(rules, q[1..], snap, t.history);
      PassLowersRank(rules, q[1..], snap, t.history);
      RankConcat(t.kept, rest.kept);
      assert Pass(rules, q, snap, h) == Join(t, rest);
    }
  }

  /** Results of an earlier pass put before those of the later ones; the queue is the last one's. */
  function Chain(a: Turn, b: Turn): Turn {
    Turn(b.kept, a.done + b.done, a.events + b.events, b.progressed, b.history)
  }

  /** Passes repeat while one of them progressed and something is left. */
  function Passes(rules: Rules, q: Queue, snap: Snapshot, h: History): Turn
    requires AllInFlight(q)
    decreases Rank(q)
  {
    var t := Pass(rules, q, snap, h);
    if !t.progressed || t.kept == [] then t
    else
      PassLowersRank(rules, q, snap, h);
      Chain(t, Passes(rules, t.kept, snap, t.history))
  }

  // ---------- the executor ----------

  function SubmitSpec(x: Exec, action: CockpitAction, actor: Actor, at: nat): Exec {
    x.(staged := x.staged + [NewRecord(x.nextId, action, actor, at)], nextId := x.nextId + 1)
  }

  function CommitSpec(x: Exec): Exec {
    x.(pending := x.pending + x.staged, staged := [])
  }

  function AdvanceSpec(rules: Rules, x: Exec, snap: Snapshot, h: History): (Exec, seq<TraceEvent>, History)
    requires AllInFlight(x.pending)
  {
    var t := Passes(rules, x.pending, snap, h);
    (x.(pending := t.kept, completed := x.completed + t.done), t.events, t.history)
  }

  lemma JoinAssociative(a: Turn, b: Turn, c: Turn)
    ensures Join(Join(a, b), c) == Join(a, Join(b, c))
  {
  }

  lemma ChainAssociative(a: Turn, b: Turn, c: Turn)
    ensures Chain(Chain(a, b), c) == Chain(a, Chain(b, c))
  {
  }

  /** `whole` is what the passes still to come make of what has been done so far. */
  ghost predicate Remains(rules: Rules, q: Queue, snap: Snapshot, h: History, sofar: Turn, whole: Turn) {
    AllInFlight(q) && Chain(sofar, Passes(rules, q, snap, h)) == whole
  }

  /** What one more pass leaves to do. */
  lemma PassesStep(rules: Rules, q: Queue, snap: Snapshot, h: History, sofar: Turn, whole: Turn)
    requires Remains(rules, q, snap, h, sofar, whole)
    ensures var t := Pass(rules, q, snap, h);
            && AllInFlight(t.kept)
            && (t.progressed && t.kept != [] ==>
                  Rank(t.kept) < Rank(q) && Remains(rules, t.kept, snap, t.history, Chain(sofar, t), whole))
            && (!(t.progressed && t.kept != []) ==> Chain(sofar, t) == whole)
  {
    var t := Pass(rules, q, snap, h);
    PassLowersRank(rules, q, snap, h);
    if t.progressed && t.kept != [] {
      var rest := Passes(rules, t.kept, snap, t.history);
      assert Passes(rules, q, snap, h) == Chain(t, rest);
      ChainAssociative(sofar, t, rest);
    }
  }

  class ActionExecutor {
    var staged: Queue
    var pending: Queue
    var completed: seq<Outcome>
    var nextId: ActionId
    const deadline: nat

    ghost function State(): Exec
      reads this
    {
      Exec(staged, pending, completed, nextId)
    }

    constructor (deadline: nat)
      ensures this.deadline == deadline && State() == Exec([], [], [], 0)
    {
      staged, pending, completed, nextId := [], [], [], 0;
      this.deadline := deadline;
    }

    method Submit(action: CockpitAction, actor: Actor, at: nat, seqNo: nat) returns (id: ActionId, event: TraceEvent)
      modifies this
      ensures State() == SubmitSpec(old(State()), action, actor, at)
      ensures id == old(nextId) && event == ActionRequested(seqNo, at, action, actor, id)
    {
      id := nextId;
      nextId := nextId + 1;
      event := ActionRequested(seqNo, at, action, actor, id);
      staged := staged + [NewRecord(id, action, actor, at)];
    }

    method Commit()
      modifies this
      ensures State() == CommitSpec(old(State()))
    {
      pending := pending + staged;
      staged := [];
    }

    method TakeCompleted() returns (taken: seq<Outcome>)
      modifies this
      ensures taken == old(completed) && State() == old(State()).(completed := [])
    {
      taken := completed;
      completed := [];
    }

    method StepValidate(r: ActionRecord, catalog: Catalog, outside: Outside, snap: Snapshot)
      returns (answer: Result<Verifier, RejectionReason>)
      modifies outside
      ensures (answer, outside.history) ==
              Validate(RulesOf(outside.env, catalog, deadline), r, snap, old(outside.history))
    {
      var found := Lookup(catalog, r.action.Kind());
      if found.None? {
        return Err(UnknownAction);
      }
      var capability := outside.Ask(r.id, r.action, snap);
      if capability.BlocksDispatch() {
        return Err(if capability.Unsupported? then UnsupportedByAdapter else AdapterUnavailable);
      }
      var preconditions := found.value.preconditions;
      for i := 0 to |preconditions|
        invariant FirstFailure(preconditions, snap) == FirstFailure(preconditions[i..], snap)
        invariant outside.history == After(old(outside.history), Asked(r.id, r.action, snap, capability))
      {
        var failure := preconditions[i].check(snap);
        if failure.Some? {
          return Err(PreconditionFailed(preconditions[i].id + ": " + failure.value));
        }
        assert preconditions[i..][1..] == preconditions[i + 1..];
      }
      answer := Ok(found.value.verify);
    }

    /** One record through its current stage; `kept` is empty when the action became terminal. */
    method RunStage(r: ActionRecord, catalog: Catalog, outside: Outside, snap: Snapshot) returns (t: Turn)
      requires InFlight(r) && outside != this as object
      modifies outside
      ensures t == Stage(RulesOf(outside.env, catalog, deadline), r, snap, old(outside.history))
      ensures outside.history == t.history
    {
      if r.status.Requested? {
        var answer := StepValidate(r, catalog, outside, snap);
        if answer.Ok? {
          t := Turn([r.(status := Validated, verify := Some(answer.value))], [],
                    [ActionValidated(PLACEHOLDER, snap.ms, r.id)], true, outside.history);
        } else {
          t := Turn([], [], [ActionRejected(PLACEHOLDER, snap.ms, r.id, answer.error)], true, outside.history);
        }
      } else if r.status.Validated? {
        var problem := outside.Execute(r.id, r.action, snap);
        if problem.None? {
          t := Turn([r.(status := Dispatched, ticks := 0, dispatchedMs := snap.ms)], [],
                    [ActionDispatched(PLACEHOLDER, snap.ms, r.id)], true, outside.history);
        } else {
          t := Turn([], [], [ActionFailed(PLACEHOLDER, snap.ms, r.id, WriteFailed(problem.value))],
                    true, outside.history);
        }
      } else {
        var paused := snap.sim == Paused;
        var rec := r;
        if !paused {
          rec := rec.(ticks := rec.ticks + 1);
        }
        var verdict := Verdict(RulesOf(outside.env, catalog, deadline), rec, snap);
        if verdict == Some(true) {
          t := Turn([], [Outcome(r.id, Verified)], [ActionVerified(PLACEHOLDER, snap.ms, r.id)], true, outside.history);
        } else if !paused && rec.ticks >= deadline {
          t := Turn([], [], [ActionFailed(PLACEHOLDER, snap.ms, r.id, VerificationTimeout)], true, outside.history);
        } else {
          t := Turn([rec], [], [], false, outside.history);
        }
      }
    }

    /** One pass: drains `pending` and puts back what stays. */
    method RunPass(
        catalog: Catalog, outside: Outside, snap: Snapshot) returns (events: seq<TraceEvent>, progressed: bool)
      requires AllInFlight(pending) && outside != this as object
      modifies this, outside
      ensures var t := Pass(RulesOf(outside.env, catalog, deadline), old(pending), snap, old(outside.history));
              && State() == old(State()).(pending := t.kept, completed := old(completed) + t.done)
              && events == t.events && progressed == t.progressed && outside.history == t.history
    {
      ghost var rules := RulesOf(outside.env, catalog, deadline);
      ghost var whole := Pass(rules, pending, snap, outside.history);
      ghost var sofar := Idle(outside.history);
      var keep: Queue := [];
      events, progressed := [], false;
      while pending != []
        invariant AllInFlight(pending)
        invariant sofar == Turn(keep, sofar.done, events, progressed, outside.history)
        invariant staged == old(staged) && nextId == old(nextId) && completed == old(completed) + sofar.done
        invariant Join(sofar, Pass(rules, pending, snap, outside.history)) == whole
        decreases |pending|
      {
        ghost var before, rest := outside.history, pending;
        var r := pending[0];
        pending := pending[1..];
        var t := RunStage(r, catalog, outside, snap);
        JoinAssociative(sofar, t, Pass(rules, rest[1..], snap, t.history));
        keep := keep + t.kept;
        completed := completed + t.done;
        events := events + t.events;
        progressed := progressed || t.progressed;
        sofar := Join(sofar, t);
      }
      pending := keep;
    }

    /** One turn of the advance loop: a pass, and whether another one is due. */
    method AnotherPass(catalog: Catalog, outside: Outside, snap: Snapshot, ghost sofar: Turn, ghost whole: Turn)
      returns (events: seq<TraceEvent>, again: bool, ghost total: Turn)
      requires outside != this as object
      requires Remains(RulesOf(outside.env, catalog, deadline), pending, snap, outside.history, sofar, whole)
      modifies this, outside
      ensures staged == old(staged) && nextId == old(nextId) && AllInFlight(pending)
      ensures total.events == sofar.events + events
      ensures exists done :: total.done == sofar.done + done && completed == old(completed) + done
      ensures again ==> Rank(pending) < old(Rank(pending))
                        && Remains(RulesOf(outside.env, catalog, deadline), pending, snap,
                                   outside.history, total, whole)
      ensures !again ==> total == whole && pending == whole.kept && outside.history == whole.history
    {
      ghost var rules := RulesOf(outside.env, catalog, deadline);
      ghost var t := Pass(rules, pending, snap, outside.history);
      PassesStep(rules, pending, snap, outside.history, sofar, whole);
      var progressed: bool;
      events, progressed := RunPass(catalog, outside, snap);
      total := Chain(sofar, t);
      assert total.done == sofar.done + t.done && completed == old(completed) + t.done;
      again := progressed && pending != [];
    }

    /** Passes until none makes progress or nothing is left. */
    method Advance(catalog: Catalog, outside: Outside, snap: Snapshot) returns (events: seq<TraceEvent>)
      requires AllInFlight(pending) && outside != this as object
      modifies this, outside
      ensures (State(), events, outside.history) ==
              AdvanceSpec(RulesOf(outside.env, catalog, deadline), old(State()), snap, old(outside.history))
    {
      ghost var rules := RulesOf(outside.env, catalog, deadline);
      ghost var whole := Passes(rules, pending, snap, outside.history);
      ghost var sofar := Idle(outside.history);
      events := [];
      var running := true;
      while running
        invariant AllInFlight(pending)
        invariant sofar.events == events && completed == old(completed) + sofar.done
        invariant staged == old(staged) && nextId == old(nextId)
        invariant running ==> Remains(rules, pending, snap, outside.history, sofar, whole)
        invariant !running ==> sofar == whole && pending == whole.kept && outside.history == whole.history
        decreases running, Rank(pending)
      {
        var more, again;
        more, again, sofar := AnotherPass(catalog, outside, snap, sofar, whole);
        events := events + more;
        running := again;
      }
    }
  }
}
