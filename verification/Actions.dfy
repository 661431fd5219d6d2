/** Closed cockpit actions, their catalog, and the simulator snapshots they are checked against. */
module Actions {

  datatype Option<+T> = None | Some(value: T)

  datatype Result<+T, +E> = Ok(value: T) | Err(error: E)

  type ActionId = nat

  datatype SwitchPosition = On | Off

  datatype NavLogoMode = LogoOff | Sys1 | Sys2

  datatype ActionKind = BeaconKind | NavLogoKind

  datatype CockpitAction = SetBeacon(position: SwitchPosition) | SetNavLogo(mode: NavLogoMode) {
    function Kind(): ActionKind {
      match this
      case SetBeacon(_) => BeaconKind
      case SetNavLogo(_) => NavLogoKind
    }
  }

  datatype Actor = User | RuntimeActor

  datatype RejectionReason =
    | UnknownAction
    | UnsupportedByAdapter
    | AdapterUnavailable
    | PreconditionFailed(detail: string)

  datatype ActionFailure = WriteFailed(detail: string) | VerificationTimeout

  datatype ActionStatus =
    | Requested
    | Validated
    | Dispatched
    | Verified
    | Rejected(reason: RejectionReason)
    | TimedOut
    | Failed(failure: ActionFailure)

  /** A terminal action outcome as the executor hands it to the flow engine. */
  datatype Outcome = Outcome(id: ActionId, status: ActionStatus)

  /** What the adapter says about an action; an unknown capability does not block dispatch. */
  datatype Capability = Supported | Unsupported | Unavailable | UnknownCapability {
    predicate BlocksDispatch() {
      Unsupported? || Unavailable?
    }
  }

  datatype SimState = Running | Paused | UnknownState

  datatype DataQuality = Fresh | WarmingUp | Stale | Missing | Invalid

  /** One observation. `quality` annotates only channels that are not fresh; `fields` holds every
      other measured value, an absent key being unknown. */
  datatype Snapshot = Snapshot(ms: nat, sim: SimState, quality: map<nat, DataQuality>, fields: map<string, real>)

  /** Whether a snapshot shows the effect of an action; no answer when the snapshot cannot tell. */
  type Verifier = (CockpitAction, Snapshot) -> Option<bool>

  /** `check` answers with the reason when the precondition does not hold. */
  datatype Precondition = Precondition(id: string, check: Snapshot -> Option<string>)

  datatype CatalogEntry = CatalogEntry(
    kind: ActionKind, preconditions: seq<Precondition>, verify: Verifier, channels: seq<nat>)

  type Catalog = seq<CatalogEntry>

  function Lookup(catalog: Catalog, kind: ActionKind): Option<CatalogEntry> {
    if catalog == [] then None
    else if catalog[0].kind == kind then Some(catalog[0])
    else Lookup(catalog[1..], kind)
  }

  /** The first precondition that fails on the snapshot, with its message. */
  function FirstFailure(preconditions: seq<Precondition>, snap: Snapshot): Option<string> {
    if preconditions == [] then None
    else match preconditions[0].check(snap)
      case Some(reason) => Some(preconditions[0].id + ": " + reason)
      case None => FirstFailure(preconditions[1..], snap)
  }

  /** The catalog knows the action and every precondition holds on the snapshot. */
  ghost predicate Admissible(catalog: Catalog, action: CockpitAction, snap: Snapshot) {
    exists e :: Lookup(catalog, action.Kind()) == Some(e) &&
                forall p :: p in e.preconditions ==> p.check(snap).None?
  }

  /** No verification channel of the entry is annotated with anything but Fresh. */
  predicate ChannelsFresh(entry: CatalogEntry, snap: Snapshot) {
    forall c :: c in entry.channels && c in snap.quality ==> snap.quality[c] == Fresh
  }

  /** The snapshot is admissible evidence that the action's post-condition holds. */
  ghost predicate Confirms(catalog: Catalog, action: CockpitAction, snap: Snapshot) {
    exists e :: Lookup(catalog, action.Kind()) == Some(e) &&
                ChannelsFresh(e, snap) && e.verify(action, snap) == Some(true)
  }

  lemma {:induction false} FirstFailureNone(preconditions: seq<Precondition>, snap: Snapshot)
    ensures FirstFailure(preconditions, snap).None? <==>
            forall p :: p in preconditions ==> p.check(snap).None?
  {
    if preconditions != [] {
      FirstFailureNone(preconditions[1..], snap);
      assert preconditions == [preconditions[0]] + preconditions[1..];
    }
  }
}
