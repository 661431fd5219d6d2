/** The life of one action as its trace events tell it, and its custody as the whole history tells it. */
module Lifecycle {
  import opened Actions
  import opened History

  /** How far the events of one id have come. `since` is the simulator time of the dispatch. */
  datatype Life =
    | NotRequested
    | Awaiting(action: CockpitAction)
    | Approved(action: CockpitAction)
    | Sent(action: CockpitAction, since: nat)
    | Refused
    | Unwritten
    | Confirmed
    | Expired
    | Corrupt

  predicate Settled(l: Life) {
    l.Refused? || l.Unwritten? || l.Confirmed? || l.Expired?
  }

  predicate Concerns(e: TraceEvent, id: ActionId) {
    e.IsAction() && e.id == id
  }

  /** An event out of order, or a confirmation not strictly newer than the dispatch, is corruption. */
  function LifeStep(l: Life, e: TraceEvent, id: ActionId): Life {
    if !Concerns(e, id) then l
    else match e
      case ActionRequested(_, _, action, _, _) => if l.NotRequested? then Awaiting(action) else Corrupt
      case ActionValidated(_, _, _) => if l.Awaiting? then Approved(l.action) else Corrupt
      case ActionRejected(_, _, _, _) => if l.Awaiting? then Refused else Corrupt
      case ActionDispatched(_, ts, _) => if l.Approved? then Sent(l.action, ts) else Corrupt
      case ActionVerified(_, ts, _) => if l.Sent? && ts > l.since then Confirmed else Corrupt
      case ActionFailed(_, _, _, failure) =>
        if failure.WriteFailed? then (if l.Approved? then Unwritten else Corrupt)
        else (if l.Sent? then Expired else Corrupt)
      case _ => l
  }

  function LifeFrom(l: Life, events: seq<TraceEvent>, id: ActionId): Life
    decreases |events|
  {
    if events == [] then l else LifeFrom(LifeStep(l, events[0], id), events[1..], id)
  }

  function LifeIn(trace: seq<TraceEvent>, id: ActionId): Life {
    LifeFrom(NotRequested, trace, id)
  }

  lemma {:induction false} LifeConcat(l: Life, a: seq<TraceEvent>, b: seq<TraceEvent>, id: ActionId)
    ensures LifeFrom(l, a + b, id) == LifeFrom(LifeFrom(l, a, id), b, id)
    decreases |a|
  {
    if a == [] {
      assert a + b == b;
    } else {
      assert (a + b)[1..] == a[1..] + b;
      LifeConcat(LifeStep(l, a[0], id), a[1..], b, id);
    }
  }

  lemma LifeSnoc(l: Life, a: seq<TraceEvent>, e: TraceEvent, id: ActionId)
    ensures LifeFrom(l, a + [e], id) == LifeStep(LifeFrom(l, a, id), e, id)
  {
    LifeConcat(l, a, [e], id);
    assert [e][1..] == [];
  }

  /** Events that do not concern the id leave its life alone. */
  lemma {:induction false} LifeUnconcerned(l: Life, events: seq<TraceEvent>, id: ActionId)
    requires forall e :: e in events ==> !Concerns(e, id)
    ensures LifeFrom(l, events, id) == l
    decreases |events|
  {
    if events != [] {
      assert events[0] in events;
      LifeUnconcerned(l, events[1..], id);
    }
  }

  // ---------- the four words ----------

  datatype Letter = Req | Val | Rej | Dis | Ver | WriteFail | Timeout

  function LetterOf(e: TraceEvent): Letter
    requires e.IsAction()
  {
    if e.ActionRequested? then Req
    else if e.ActionValidated? then Val
    else if e.ActionRejected? then Rej
    else if e.ActionDispatched? then Dis
    else if e.ActionVerified? then Ver
    else if e.failure.WriteFailed? then WriteFail
    else Timeout
  }

  /** The kinds of the events of one id, in trace order. */
  function Word(trace: seq<TraceEvent>, id: ActionId): seq<Letter> {
    if trace == [] then []
    else (if Concerns(trace[0], id) then [LetterOf(trace[0])] else []) + Word(trace[1..], id)
  }

  const REJECTED_WORD: seq<Letter> := [Req, Rej]
  const UNWRITTEN_WORD: seq<Letter> := [Req, Val, WriteFail]
  const VERIFIED_WORD: seq<Letter> := [Req, Val, Dis, Ver]
  const TIMEOUT_WORD: seq<Letter> := [Req, Val, Dis, Timeout]

  predicate IsFullWord(w: seq<Letter>) {
    w == REJECTED_WORD || w == UNWRITTEN_WORD || w == VERIFIED_WORD || w == TIMEOUT_WORD
  }

  predicate IsLifecyclePrefix(w: seq<Letter>) {
    w <= REJECTED_WORD || w <= UNWRITTEN_WORD || w <= VERIFIED_WORD || w <= TIMEOUT_WORD
  }

  predicate IsTerminalLetter(x: Letter) {
    x == Rej || x == WriteFail || x == Ver || x == Timeout
  }

  function WordSoFar(l: Life): seq<Letter>
    requires !l.Corrupt?
  {
    match l
    case NotRequested => []
    case Awaiting(_) => [Req]
    case Approved(_) => [Req, Val]
    case Sent(_, _) => [Req, Val, Dis]
    case Refused => REJECTED_WORD
    case Unwritten => UNWRITTEN_WORD
    case Confirmed => VERIFIED_WORD
    case Expired => TIMEOUT_WORD
  }

  lemma TerminalInWord(l: Life, i: nat)
    requires !l.Corrupt? && i < |WordSoFar(l)|
    ensures IsTerminalLetter(WordSoFar(l)[i]) <==> Settled(l) && i == |WordSoFar(l)| - 1
  {
  }

  lemma {:induction false} CorruptStays(events: seq<TraceEvent>, id: ActionId)
    ensures LifeFrom(Corrupt, events, id) == Corrupt
  {
    if events != [] { CorruptStays(events[1..], id); }
  }

  lemma {:induction false} WordFrom(l: Life, events: seq<TraceEvent>, id: ActionId)
    requires !l.Corrupt? && !LifeFrom(l, events, id).Corrupt?
    ensures WordSoFar(l) + Word(events, id) == WordSoFar(LifeFrom(l, events, id))
    decreases |events|
  {
    if events != [] {
      var e := events[0];
      var l' := LifeStep(l, e, id);
      if l'.Corrupt? {
        CorruptStays(events[1..], id);
      } else {
        WordFrom(l', events[1..], id);
        assert WordSoFar(l') == WordSoFar(l) + (if Concerns(e, id) then [LetterOf(e)] else []);
      }
    }
  }

  /** A life that is not corrupt spells a prefix of exactly one of the four words, and all of it once settled. */
  lemma LifeSpellsWord(trace: seq<TraceEvent>, id: ActionId)
    requires !LifeIn(trace, id).Corrupt?
    ensures Word(trace, id) == WordSoFar(LifeIn(trace, id))
    ensures IsLifecyclePrefix(Word(trace, id))
    ensures IsFullWord(Word(trace, id)) <==> Settled(LifeIn(trace, id))
  {
    WordFrom(NotRequested, trace, id);
    assert [] + Word(trace, id) == Word(trace, id);
  }

  /** No prefix of a lifecycle has anything after a terminal letter, so at most one letter is terminal. */
  lemma TerminalLetterIsLast(w: seq<Letter>, i: nat)
    requires IsLifecyclePrefix(w) && i < |w| && IsTerminalLetter(w[i])
    ensures i == |w| - 1 && IsFullWord(w)
  {
  }

  lemma LifeOfPrefix(trace: seq<TraceEvent>, whole: seq<TraceEvent>, id: ActionId)
    requires trace <= whole && !LifeIn(whole, id).Corrupt?
    ensures !LifeIn(trace, id).Corrupt?
  {
    assert whole == trace + whole[|trace|..];
    LifeConcat(NotRequested, trace, whole[|trace|..], id);
    if LifeIn(trace, id).Corrupt? { CorruptStays(whole[|trace|..], id); }
  }

  /** A confirmed id was dispatched earlier in the trace, at a strictly smaller simulator time. */
  lemma {:induction false} ConfirmedWasDispatched(trace: seq<TraceEvent>, id: ActionId, k: nat)
    requires !LifeIn(trace, id).Corrupt?
    requires k < |trace| && trace[k].ActionVerified? && trace[k].id == id
    ensures exists j :: 0 <= j < k && trace[j].ActionDispatched? && trace[j].id == id && trace[j].ts < trace[k].ts
  {
    var before := trace[..k];
    assert trace[..k + 1] == before + [trace[k]];
    LifeOfPrefix(trace[..k + 1], trace, id);
    LifeSnoc(NotRequested, before, trace[k], id);
    var j := SentWasDispatched(before, id);
    assert trace[j] == before[j];
  }

  lemma {:induction false} SentWasDispatched(trace: seq<TraceEvent>, id: ActionId) returns (j: nat)
    requires LifeIn(trace, id).Sent?
    ensures j < |trace| && trace[j].ActionDispatched? && trace[j].id == id && trace[j].ts == LifeIn(trace, id).since
  {
    var n := |trace| - 1;
    assert trace == trace[..n] + [trace[n]];
    LifeSnoc(NotRequested, trace[..n], trace[n], id);
    if Concerns(trace[n], id) {
      j := n;
    } else {
      j := SentWasDispatched(trace[..n], id);
    }
  }

  // ---------- custody of the write ----------

  /** Where an id stands with respect to the one write it may cause. */
  datatype Custody =
    | Untraced
    | Traced(action: CockpitAction)
    | Barred
    | Cleared(action: CockpitAction, on: Snapshot)
    | Written(action: CockpitAction)
    | Breach

  ghost function CustodyStep(catalog: Catalog, c: Custody, e: Effect, id: ActionId): Custody {
    if e.Appended? && e.event.ActionRequested? && e.event.id == id then
      if c.Untraced? then Traced(e.event.action) else Breach
    else if e.Asked? && e.id == id then
      if c != Traced(e.action) then Breach
      else if e.capability.BlocksDispatch() || !Admissible(catalog, e.action, e.at) then Barred
      else Cleared(e.action, e.at)
    else if e.Wrote? && e.id == id then
      if c == Cleared(e.action, e.at) then Written(e.action) else Breach
    else c
  }

  ghost function CustodyIn(catalog: Catalog, h: History, id: ActionId): Custody {
    match h
    case Empty => Untraced
    case After(past, e) => CustodyStep(catalog, CustodyIn(catalog, past, id), e, id)
  }

  /** The request of the id reached the trace, for this action. */
  ghost predicate RequestTraced(h: History, id: ActionId, action: CockpitAction) {
    exists e :: e in Trace(h) && e.ActionRequested? && e.id == id && e.action == action
  }

  /** The adapter was asked about the action on this very snapshot and did not object. */
  ghost predicate CapabilityGranted(h: History, id: ActionId, action: CockpitAction, at: Snapshot) {
    exists p :: Past(p, h) && p.After? && p.last.Asked? && p.last.id == id && p.last.action == action
                && p.last.at == at && !p.last.capability.BlocksDispatch()
  }

  ghost predicate WroteBefore(h: History, id: ActionId) {
    exists p :: Past(p, h) && p.After? && p.last.Wrote? && p.last.id == id
  }

  lemma {:induction false} BreachStays(catalog: Catalog, p: History, h: History, id: ActionId)
    requires Past(p, h) && CustodyIn(catalog, p, id).Breach?
    ensures CustodyIn(catalog, h, id).Breach?
  {
    if p != h { BreachStays(catalog, p, h.past, id); }
  }

  lemma {:induction false} NoBreachBefore(catalog: Catalog, p: History, h: History, id: ActionId)
    requires Past(p, h) && !CustodyIn(catalog, h, id).Breach?
    ensures !CustodyIn(catalog, p, id).Breach?
  {
    if CustodyIn(catalog, p, id).Breach? { BreachStays(catalog, p, h, id); }
  }

  /** What each custody state says about the history that led to it. */
  lemma {:induction false} CustodyMeaning(catalog: Catalog, h: History, id: ActionId)
    requires !CustodyIn(catalog, h, id).Breach?
    ensures var c := CustodyIn(catalog, h, id);
            && (c.Traced? ==> RequestTraced(h, id, c.action))
            && (c.Cleared? ==> RequestTraced(h, id, c.action) && CapabilityGranted(h, id, c.action, c.on)
                               && Admissible(catalog, c.action, c.on))
            && (c.Written? ==> RequestTraced(h, id, c.action))
            && (WroteBefore(h, id) ==> c.Written?)
  {
    if h.After? {
      var c, c' := CustodyIn(catalog, h.past, id), CustodyIn(catalog, h, id);
      NoBreachBefore(catalog, h.past, h, id);
      CustodyMeaning(catalog, h.past, id);
      PastTrace(h.past, h);
      if c.Traced? || c.Cleared? || c.Written? {
        var e :| e in Trace(h.past) && e.ActionRequested? && e.id == id && e.action == c.action;
        assert e in Trace(h);
      }
      if c.Cleared? {
        var p :| Past(p, h.past) && p.After? && p.last.Asked? && p.last.id == id && p.last.action == c.action
                 && p.last.at == c.on && !p.last.capability.BlocksDispatch();
        assert Past(p, h);
      }
      if c'.Cleared? && !c.Cleared? { assert Past(h, h); }
      if c'.Traced? && !c.Traced? { assert h.last.event in Trace(h); }
    }
  }

  /** Every write in a history without breach: traced request first, cleared on the same snapshot, and only once. */
  lemma WriteIsLawful(catalog: Catalog, h: History, p: History, id: ActionId)
    requires !CustodyIn(catalog, h, id).Breach?
    requires Past(p, h) && p.After? && p.last.Wrote? && p.last.id == id
    ensures RequestTraced(p.past, id, p.last.action)
    ensures CapabilityGranted(p.past, id, p.last.action, p.last.at)
    ensures Admissible(catalog, p.last.action, p.last.at)
    ensures !WroteBefore(p.past, id)
  {
    NoBreachBefore(catalog, p, h, id);
    NoBreachBefore(catalog, p.past, p, id);
    CustodyMeaning(catalog, p.past, id);
  }
}
