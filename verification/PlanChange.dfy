/** Flight-plan change classification: what one observed revision of the primary plan says about the next. */
module PlanChange {
  import opened Actions

  datatype Entry = Entry(
    kind: nat, id: Option<string>, lat: Option<real>, lon: Option<real>,
    altitudeConstraint: Option<int>, navRefResolved: bool)

  datatype Plan = Plan(entries: seq<Entry>, destination: Option<nat>)

  datatype Change =
    | WaypointInserted(index: nat)
    | WaypointRemoved(index: nat)
    | ActiveLegChanged(from: Option<nat>, to: Option<nat>)
    | DestinationChanged(fromId: Option<string>, toId: Option<string>)
    | PlanCleared
    | PlanReplaced

  // ---------- the classification ----------

  /** Index of the first entry, below both lengths, in which the plans differ. */
  function FirstDiff(a: seq<Entry>, b: seq<Entry>): (d: Option<nat>)
    ensures d.Some? ==> d.value < |a| && d.value < |b| && a[d.value] != b[d.value] && a[..d.value] == b[..d.value]
    ensures d.None? ==> if |a| <= |b| then a == b[..|a|] else b == a[..|b|]
  {
    if a == [] || b == [] then None
    else if a[0] != b[0] then Some(0)
    else
      var d := FirstDiff(a[1..], b[1..]);
      assert d.Some? ==> a[..d.value + 1] == [a[0]] + a[1..][..d.value];
      assert d.Some? ==> b[..d.value + 1] == [b[0]] + b[1..][..d.value];
      assert |a| <= |b| ==> a == [a[0]] + a[1..] && b[..|a|] == [b[0]] + b[1..][..|a| - 1];
      assert |b| <= |a| ==> b == [b[0]] + b[1..] && a[..|b|] == [a[0]] + a[1..][..|b| - 1];
      if d.Some? then Some(d.value + 1) else None
  }

  function EntryChange(prev: seq<Entry>, next: seq<Entry>): seq<Change> {
    var p, n := |prev|, |next|;
    match FirstDiff(prev, next)
    case None => if p == n then [] else if n > p then [WaypointInserted(p)] else [WaypointRemoved(n)]
    case Some(i) =>
      if n == p + 1 && prev[i..] == next[i + 1..] then [WaypointInserted(i)]
      else if n + 1 == p && prev[i + 1..] == next[i..] then [WaypointRemoved(i)]
      else [PlanReplaced]
  }

  function IdAt(entries: seq<Entry>, at: Option<nat>): Option<string> {
    if at.Some? && at.value < |entries| then entries[at.value].id else None
  }

  function LegChange(prev: seq<Entry>, prevDest: Option<nat>, next: Plan): seq<Change> {
    if prevDest == next.destination then []
    else
      var from, to := IdAt(prev, prevDest), IdAt(next.entries, next.destination);
      [ActiveLegChanged(prevDest, next.destination)] + (if from != to then [DestinationChanged(from, to)] else [])
  }

  function Classified(prev: Option<(seq<Entry>, Option<nat>)>, next: Plan): seq<Change> {
    match prev
    case None => if next.entries == [] then [] else [PlanReplaced]
    case Some((entries, dest)) =>
      if next.entries == [] && entries != [] then [PlanCleared]
      else LegChange(entries, dest, next) + EntryChange(entries, next.entries)
  }

  predicate IsEntryChange(c: Change) {
    c.WaypointInserted? || c.WaypointRemoved? || c.PlanReplaced? || c.PlanCleared?
  }

  /** At most one verdict on the entries, and it is the last change; before it the leg, and then perhaps the
      destination; a cleared plan is all that is said. So no change occurs twice. */
  predicate WellFormed(out: seq<Change>) {
    && (forall i :: 0 <= i < |out| && IsEntryChange(out[i]) ==> i == |out| - 1)
    && (forall i :: 0 <= i < |out| && out[i].ActiveLegChanged? ==> i == 0)
    && (forall i :: 0 <= i < |out| && out[i].DestinationChanged? ==> i == 1 && out[0].ActiveLegChanged?)
    && (forall i :: 0 <= i < |out| && out[i].PlanCleared? ==> |out| == 1)
  }

  lemma WellFormedIsUnique(out: seq<Change>, i: nat, j: nat)
    requires WellFormed(out) && i < j < |out|
    ensures out[i] != out[j] && !(IsEntryChange(out[i]) && IsEntryChange(out[j]))
  {
  }

  lemma ClassifiedIsWellFormed(prev: Option<(seq<Entry>, Option<nat>)>, next: Plan)
    ensures WellFormed(Classified(prev, next))
    ensures prev.None? ==> Classified(prev, next) == if next.entries == [] then [] else [PlanReplaced]
    ensures prev.Some? ==>
              (PlanCleared in Classified(prev, next) <==> next.entries == [] && prev.value.0 != [])
  {
    if prev.Some? && !(next.entries == [] && prev.value.0 != []) {
      var legs, own := LegChange(prev.value.0, prev.value.1, next), EntryChange(prev.value.0, next.entries);
      assert forall c :: c in own ==> !c.PlanCleared?;
      assert forall c :: c in legs ==> !c.PlanCleared?;
    }
  }

  method Classify(prev: Option<(seq<Entry>, Option<nat>)>, next: Plan) returns (out: seq<Change>)
    ensures out == Classified(prev, next)
    ensures prev.None? && next.entries == [] ==> out == []
    ensures prev.None? && next.entries != [] ==> out == [PlanReplaced]
    ensures WellFormed(out)
    ensures prev.Some? ==> (PlanCleared in out <==> next.entries == [] && prev.value.0 != [])
  {
    ClassifiedIsWellFormed(prev, next);
    out := [];
    if prev.None? {
      if next.entries != [] {
        out := [PlanReplaced];
      }
      return;
    }
    var (entries, prevDest) := prev.value;
    if next.entries == [] && entries != [] {
      return [PlanCleared];
    }
    if prevDest != next.destination {
      var from, to := IdAt(entries, prevDest), IdAt(next.entries, next.destination);
      out := out + [ActiveLegChanged(prevDest, next.destination)];
      if from != to {
        out := out + [DestinationChanged(from, to)];
      }
    }
    ghost var legs := out;
    var diff := FindFirstDiff(entries, next.entries);
    var p, n := |entries|, |next.entries|;
    if diff.None? {
      if n > p {
        out := out + [WaypointInserted(p)];
      } else if n < p {
        out := out + [WaypointRemoved(n)];
      }
    } else if n == p + 1 && entries[diff.value..] == next.entries[diff.value + 1..] {
      out := out + [WaypointInserted(diff.value)];
    } else if n + 1 == p && entries[diff.value + 1..] == next.entries[diff.value..] {
      out := out + [WaypointRemoved(diff.value)];
    } else {
      out := out + [PlanReplaced];
    }
    assert out == legs + EntryChange(entries, next.entries);
  }

  method FindFirstDiff(a: seq<Entry>, b: seq<Entry>) returns (d: Option<nat>)
    ensures d == FirstDiff(a, b)
  {
    var common := if |a| < |b| then |a| else |b|;
    for i := 0 to common
      invariant a[..i] == b[..i]
    {
      if a[i] != b[i] {
        FirstDiffUnique(a, b, i);
        return Some(i);
      }
    }
    d := None;
  }

  lemma {:induction false} FirstDiffUnique(a: seq<Entry>, b: seq<Entry>, i: nat)
    requires i < |a| && i < |b| && a[i] != b[i] && a[..i] == b[..i]
    ensures FirstDiff(a, b) == Some(i)
    decreases i
  {
    if i > 0 {
      assert a[0] == a[..i][0] && b[0] == b[..i][0];
      assert a[1..][..i - 1] == a[..i][1..] && b[1..][..i - 1] == b[..i][1..];
      FirstDiffUnique(a[1..], b[1..], i - 1);
    }
  }

  // ---------- what the verdicts mean ----------

  /** `long` is `short` with one stretch put in at i. */
  predicate PutIn(short: seq<Entry>, long: seq<Entry>, i: nat) {
    |short| < |long| && i <= |short| && short == long[..i] + long[i + (|long| - |short|)..]
  }

  /** One entry put in somewhere, or any number put in at the end. */
  predicate Explained(short: seq<Entry>, long: seq<Entry>, i: nat) {
    PutIn(short, long, i) && (|long| == |short| + 1 || i == |short|)
  }

  /** An explanation leaves the entries before it alone, and from the first difference on there is none. */
  lemma {:induction false} ExplainedBelow(short: seq<Entry>, long: seq<Entry>, i: nat, d: nat)
    requires Explained(short, long, i) && d < |short| && d < |long|
    requires short[d] != long[d] && short[..d] == long[..d]
    ensures i <= d
    ensures |long| == |short| + 1 && PutIn(short, long, d)
  {
    assert short[d..] == long[d + 1..] by {
      forall k | d <= k < |short| ensures short[k] == long[k + 1] {
        assert short[k] == (long[..i] + long[i + 1..])[k];
      }
    }
    assert short == short[..d] + short[d..];
  }

  /** The entries are judged to have grown exactly when an explanation exists, at the greatest index that is one. */
  lemma {:induction false} InsertedIff(prev: seq<Entry>, next: seq<Entry>, i: nat)
    ensures WaypointInserted(i) in EntryChange(prev, next) <==>
            Explained(prev, next, i) && forall j: nat :: Explained(prev, next, j) ==> j <= i
  {
    var d := FirstDiff(prev, next);
    if d.None? && |next| > |prev| {
      assert next[|prev| + (|next| - |prev|)..] == [];
      assert Explained(prev, next, |prev|);
    }
    if d.Some? {
      assert prev == prev[..d.value] + prev[d.value..];
      if WaypointInserted(d.value) in EntryChange(prev, next) {
        assert Explained(prev, next, d.value);
      }
      if exists j: nat :: Explained(prev, next, j) {
        var j: nat :| Explained(prev, next, j);
        ExplainedBelow(prev, next, j, d.value);
        assert prev[d.value..] == next[d.value + 1..];
        forall k: nat | Explained(prev, next, k) ensures k <= d.value { ExplainedBelow(prev, next, k, d.value); }
        assert Explained(prev, next, d.value);
      }
    }
  }

  lemma {:induction false} FirstDiffSymmetric(a: seq<Entry>, b: seq<Entry>)
    ensures FirstDiff(a, b) == FirstDiff(b, a)
  {
    var d := FirstDiff(a, b);
    if d.Some? {
      FirstDiffUnique(b, a, d.value);
    } else {
      var e := FirstDiff(b, a);
      if e.Some? { FirstDiffUnique(a, b, e.value); }
    }
  }

  /** Removal is insertion seen from the other side. */
  lemma {:induction false} EntryDuality(prev: seq<Entry>, next: seq<Entry>, i: nat)
    ensures WaypointInserted(i) in EntryChange(prev, next) <==> WaypointRemoved(i) in EntryChange(next, prev)
    ensures PlanReplaced in EntryChange(prev, next) <==> PlanReplaced in EntryChange(next, prev)
  {
    FirstDiffSymmetric(prev, next);
  }

  /** Nothing else counts as a small change: the plan is judged replaced exactly when the entries differ and neither
      side explains the other. */
  lemma {:induction false} ReplacedIff(prev: seq<Entry>, next: seq<Entry>)
    ensures PlanReplaced in EntryChange(prev, next) <==>
            prev != next && forall i: nat :: !Explained(prev, next, i) && !Explained(next, prev, i)
  {
    FirstDiffSymmetric(prev, next);
    forall i: nat
      ensures PlanReplaced in EntryChange(prev, next) ==> !Explained(prev, next, i) && !Explained(next, prev, i)
    {
      if Explained(prev, next, i) { GreatestExplanation(prev, next, i); }
      if Explained(next, prev, i) { GreatestExplanation(next, prev, i); EntryDuality(next, prev, i); }
    }
    if PlanReplaced !in EntryChange(prev, next) && prev != next {
      if c: nat :| WaypointInserted(c) in EntryChange(prev, next) {
        InsertedIff(prev, next, c);
      } else {
        var r: nat :| WaypointRemoved(r) in EntryChange(prev, next);
        EntryDuality(next, prev, r);
        InsertedIff(next, prev, r);
      }
    }
  }

  /** Where there is an explanation the verdict is not a replacement. */
  lemma {:induction false} GreatestExplanation(short: seq<Entry>, long: seq<Entry>, i: nat)
    requires Explained(short, long, i)
    ensures PlanReplaced !in EntryChange(short, long) && PlanReplaced !in EntryChange(long, short)
  {
    FirstDiffSymmetric(short, long);
    var d := FirstDiff(short, long);
    if d.Some? {
      ExplainedBelow(short, long, i, d.value);
      assert short == short[..d.value] + short[d.value..];
      assert short[d.value..] == long[d.value + 1..] by {
        assert long[d.value + 1..] == (long[..d.value] + long[d.value + 1..])[d.value..];
      }
    }
  }

  // ---------- main results ----------

  /** With a previous observation and an unchanged destination, nothing is reported exactly when the entries are equal.
      */
  lemma {:induction false} SilentIffEqual(prev: seq<Entry>, next: Plan)
    ensures Classified(Some((prev, next.destination)), next) == [] <==> prev == next.entries
  {
  }

  /** An insertion is reported exactly when one explains the new plan, and then at the greatest index that does,
      whatever became of the destination. */
  lemma {:induction false} InsertionReported(prev: seq<Entry>, dest: Option<nat>, next: Plan, i: nat)
    ensures WaypointInserted(i) in Classified(Some((prev, dest)), next) <==>
            Explained(prev, next.entries, i) && forall j: nat :: Explained(prev, next.entries, j) ==> j <= i
  {
    InsertedIff(prev, next.entries, i);
  }

  /** Likewise for removals, unless everything was removed: that is reported as a cleared plan instead. */
  lemma {:induction false} RemovalReported(prev: seq<Entry>, dest: Option<nat>, next: Plan, i: nat)
    ensures WaypointRemoved(i) in Classified(Some((prev, dest)), next) <==>
            && next.entries != [] && Explained(next.entries, prev, i)
            && forall j: nat :: Explained(next.entries, prev, j) ==> j <= i
    ensures PlanCleared in Classified(Some((prev, dest)), next) <==> next.entries == [] && prev != []
  {
    EntryDuality(next.entries, prev, i);
    InsertedIff(next.entries, prev, i);
  }

  /** Inserted one way is removed the other way exactly when the shorter plan is not empty. */
  lemma {:induction false} Duality(prev: Plan, next: Plan, i: nat)
    requires WaypointInserted(i) in Classified(Some((prev.entries, prev.destination)), next)
    ensures WaypointRemoved(i) in Classified(Some((next.entries, next.destination)), prev) <==> prev.entries != []
  {
    EntryDuality(prev.entries, next.entries, i);
    InsertedIff(prev.entries, next.entries, i);
  }

  /** And removed one way is always inserted the other way. */
  lemma {:induction false} RemovedIsInserted(prev: Plan, next: Plan, i: nat)
    requires WaypointRemoved(i) in Classified(Some((prev.entries, prev.destination)), next)
    ensures WaypointInserted(i) in Classified(Some((next.entries, next.destination)), prev)
  {
    EntryDuality(next.entries, prev.entries, i);
    InsertedIff(next.entries, prev.entries, i);
  }

  /** A first observation, and a change no single edit explains, are reported as a replacement, and nothing else is. */
  lemma {:induction false} ReplacementReported(prev: Option<(seq<Entry>, Option<nat>)>, next: Plan)
    ensures PlanReplaced in Classified(prev, next) <==>
            match prev
            case None => next.entries != []
            case Some((entries, _)) =>
              && !(next.entries == [] && entries != []) && entries != next.entries
              && forall i: nat :: !Explained(entries, next.entries, i) && !Explained(next.entries, entries, i)
  {
    if prev.Some? { ReplacedIff(prev.value.0, next.entries); }
  }

  /** Put in at the end: the shorter list is a beginning of the longer one. */
  lemma PutAtEnd(short: seq<Entry>, long: seq<Entry>)
    requires |short| < |long|
    ensures PutIn(short, long, |short|) <==> short <= long
  {
    assert long[|short| + (|long| - |short|)..] == [];
  }

  /** The promise that larger rewrites are replacements holds, for a change of more than one entry in length that does
      not clear the plan, exactly when neither plan is a beginning of the other. */
  lemma {:induction false} LargerRewriteReplacedIff(prev: seq<Entry>, dest: Option<nat>, next: Plan)
    requires |prev| + 1 < |next.entries| || (next.entries != [] && |next.entries| + 1 < |prev|)
    ensures PlanReplaced in Classified(Some((prev, dest)), next) <==> !(prev <= next.entries) && !(next.entries <= prev)
  {
    ReplacementReported(Some((prev, dest)), next);
    if |prev| < |next.entries| {
      PutAtEnd(prev, next.entries);
      assert Explained(prev, next.entries, |prev|) <==> prev <= next.entries;
    } else {
      PutAtEnd(next.entries, prev);
      assert Explained(next.entries, prev, |next.entries|) <==> next.entries <= prev;
    }
  }

  /** Two entries appended at once: reported as one insertion, and not as a replacement. */
  lemma TwoAppendedAreOneInsertion(a: Entry, b: Entry, c: Entry)
    ensures Classified(Some(([a], None)), Plan([a, b, c], None)) == [WaypointInserted(1)]
  {
    assert [a][1..] == [] && [a, b, c][1..] == [b, c];
  }

  /** A changed destination index is reported whenever the plan was not cleared, with the old and the new one, and
      exactly when the names at the two indices differ so are the names: the old plan's at the old index and the new
      plan's at the new one. */
  lemma {:induction false} DestinationReported(prev: seq<Entry>, dest: Option<nat>, next: Plan)
    ensures var out := Classified(Some((prev, dest)), next);
            var kept := !(next.entries == [] && prev != []);
            var moved := kept && dest != next.destination;
            && (forall a, b :: ActiveLegChanged(a, b) in out <==> moved && a == dest && b == next.destination)
            && (forall a, b :: DestinationChanged(a, b) in out <==>
                  moved && a == IdAt(prev, dest) && b == IdAt(next.entries, next.destination) && a != b)
  {
    var from, to := IdAt(prev, dest), IdAt(next.entries, next.destination);
    if !(next.entries == [] && prev != []) && dest != next.destination {
      assert LegChange(prev, dest, next)[0] == ActiveLegChanged(dest, next.destination);
      if from != to { assert LegChange(prev, dest, next)[1] == DestinationChanged(from, to); }
    }
  }
}
