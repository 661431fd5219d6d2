/** The runtime's trace vocabulary and the record of everything it exchanges with the outside. */
module History {
  import opened Actions

  datatype EventSource = Simulator | Replay | Derived

  /** The events the runtime appends, each carrying its sequence number. */
  datatype TraceEvent =
    | SessionStart(seqNo: nat, sessionId: nat)
    | SessionEnd(seqNo: nat)
    | StateDelta(seqNo: nat, ts: nat, source: EventSource, changed: seq<nat>)
    | PhaseChange(seqNo: nat, ts: nat, fromPhase: string, toPhase: string, confidence: string, evidence: string)
    | SimStateChanged(seqNo: nat, ts: nat, fromState: SimState, toState: SimState)
    | ActionRequested(seqNo: nat, ts: nat, action: CockpitAction, actor: Actor, id: ActionId)
    | ActionValidated(seqNo: nat, ts: nat, id: ActionId)
    | ActionDispatched(seqNo: nat, ts: nat, id: ActionId)
    | ActionVerified(seqNo: nat, ts: nat, id: ActionId)
    | ActionRejected(seqNo: nat, ts: nat, id: ActionId, refusal: RejectionReason)
    | ActionFailed(seqNo: nat, ts: nat, id: ActionId, failure: ActionFailure)
    | FlowStarted(seqNo: nat, ts: nat, flow: string)
    | StepReady(seqNo: nat, ts: nat, flow: string, step: string)
    | StepWaiting(seqNo: nat, ts: nat, flow: string, step: string)
    | StepActionRequested(seqNo: nat, ts: nat, flow: string, step: string, action: CockpitAction)
    | StepVerified(seqNo: nat, ts: nat, flow: string, step: string)
    | StepFailed(seqNo: nat, ts: nat, flow: string, step: string, cause: ActionStatus)
    | FlowCompleted(seqNo: nat, ts: nat, flow: string)
    | FlowFailed(seqNo: nat, ts: nat, flow: string)
  {
    function WithSeq(n: nat): TraceEvent {
      this.(seqNo := n)
    }

    predicate IsAction() {
      ActionRequested? || ActionValidated? || ActionDispatched? || ActionVerified? || ActionRejected? || ActionFailed?
    }
  }

  /** Sequence number of an event that has not been stamped yet. */
  const PLACEHOLDER: nat := 0xFFFF_FFFF_FFFF_FFFF

  /** One exchange with the adapter or with the trace sink. The adapter itself is handed only the
      action; the id and the snapshot say on whose behalf and on what evidence the runtime called it. */
  datatype Effect =
    | Connected(problem: Option<string>)
    | Polled(answer: Result<seq<Snapshot>, string>)
    | Asked(id: ActionId, action: CockpitAction, at: Snapshot, capability: Capability)
    | Wrote(id: ActionId, action: CockpitAction, at: Snapshot, problem: Option<string>)
    | Appended(event: TraceEvent)
    | AppendFailed(event: TraceEvent, error: string)
    | Closed(problem: Option<string>)

  /** All effects so far, latest outermost. */
  datatype History = Empty | After(past: History, last: Effect)

  /** The events that reached the trace. */
  function Trace(h: History): seq<TraceEvent> {
    match h
    case Empty => []
    case After(past, last) => if last.Appended? then Trace(past) + [last.event] else Trace(past)
  }

  /** Every snapshot a poll has delivered. */
  ghost function Seen(h: History): set<Snapshot> {
    match h
    case Empty => {}
    case After(past, last) =>
      if last.Polled? && last.answer.Ok? then Seen(past) + (set s | s in last.answer.value) else Seen(past)
  }

  /** `p` is `h` at some earlier moment, or `h` itself. */
  ghost predicate Past(p: History, h: History) {
    p == h || (h.After? && Past(p, h.past))
  }

  /** The adapter and the sink as an adversary: each answer may depend on everything that happened before. */
  datatype Env = Env(
    connect: History -> Option<string>,
    connected: History -> bool,
    poll: History -> Result<seq<Snapshot>, string>,
    capability: (History, CockpitAction) -> Capability,
    execute: (History, CockpitAction) -> Option<string>,
    append: (History, TraceEvent) -> Option<string>,
    close: History -> Option<string>)

  lemma {:induction false} PastTransitive(a: History, b: History, c: History)
    requires Past(a, b) && Past(b, c)
    ensures Past(a, c)
  {
    if b != c { PastTransitive(a, b, c.past); }
  }

  lemma {:induction false} PastTrace(p: History, h: History)
    requires Past(p, h)
    ensures Trace(p) <= Trace(h)
    ensures Seen(p) <= Seen(h)
  {
    if p != h { PastTrace(p, h.past); }
  }

  /** The adapter and the trace sink, reached through one object so that the order of their calls is kept. */
  class Outside {
    const env: Env
    var history: History

    constructor (env: Env)
      ensures this.env == env && history == Empty
    {
      this.env := env;
      history := Empty;
    }

    method Connect() returns (problem: Option<string>)
      modifies this
      ensures problem == env.connect(old(history)) && history == After(old(history), Connected(problem))
    {
      problem := env.connect(history);
      history := After(history, Connected(problem));
    }

    method Poll() returns (answer: Result<seq<Snapshot>, string>)
      modifies this
      ensures answer == env.poll(old(history)) && history == After(old(history), Polled(answer))
    {
      answer := env.poll(history);
      history := After(history, Polled(answer));
    }

    method Ask(id: ActionId, action: CockpitAction, at: Snapshot) returns (capability: Capability)
      modifies this
      ensures capability == env.capability(old(history), action)
      ensures history == After(old(history), Asked(id, action, at, capability))
    {
      capability := env.capability(history, action);
      history := After(history, Asked(id, action, at, capability));
    }

    method Execute(id: ActionId, action: CockpitAction, at: Snapshot) returns (problem: Option<string>)
      modifies this
      ensures problem == env.execute(old(history), action)
      ensures history == After(old(history), Wrote(id, action, at, problem))
    {
      problem := env.execute(history, action);
      history := After(history, Wrote(id, action, at, problem));
    }

    method Append(event: TraceEvent) returns (error: Option<string>)
      modifies this
      ensures (error, history) == AppendSpec(env, old(history), event)
    {
      error := env.append(history, event);
      history := After(history, if error.None? then Appended(event) else AppendFailed(event, error.value));
    }

    method Close() returns (problem: Option<string>)
      modifies this
      ensures problem == env.close(old(history)) && history == After(old(history), Closed(problem))
    {
      problem := env.close(history);
      history := After(history, Closed(problem));
    }
  }

  function AppendSpec(env: Env, h: History, event: TraceEvent): (Option<string>, History) {
    match env.append(h, event)
    case None => (None, After(h, Appended(event)))
    case Some(error) => (Some(error), After(h, AppendFailed(event, error)))
  }
}
