/** Progress of the flow engine: an acyclic flow whose observations hold and whose actions succeed completes
    within as many rounds as it has steps. */
module FlowProgress {
  import opened Actions
  import opened Flow
  import opened FlowLaws

  // ---------- the dependency graph ----------

  /** Step i names step j among its dependencies. */
  predicate DependsOn(def: FlowDef, i: nat, j: nat) {
    i < |def.steps| && exists d :: d in def.steps[i].dependsOn && Position(def.steps, d) == Some(j)
  }

  predicate DepsResolve(def: FlowDef) {
    forall i :: 0 <= i < |def.steps| ==> forall d :: d in def.steps[i].dependsOn ==> Position(def.steps, d).Some?
  }

  /** Each step of the path depends on the next one. */
  predicate IsPath(def: FlowDef, p: seq<nat>) {
    forall k :: 0 <= k < |p| - 1 ==> DependsOn(def, p[k], p[k + 1])
  }

  /** No chain of dependencies returns to where it began. */
  ghost predicate Acyclic(def: FlowDef) {
    forall p: seq<nat> :: |p| >= 2 && IsPath(def, p) ==> p[0] != p[|p| - 1]
  }

  predicate DependsInto(def: FlowDef, i: nat, s: set<nat>) {
    exists j :: j in s && DependsOn(def, i, j)
  }

  /** Every member of the set depends on a member of the set. */
  ghost predicate NeverLeaves(def: FlowDef, s: set<nat>) {
    forall i {:trigger DependsInto(def, i, s)} :: i in s ==> DependsInto(def, i, s)
  }

  /** A sequence longer than the set its elements come from repeats one of them. */
  lemma {:induction false} Pigeonhole(p: seq<nat>, s: set<nat>) returns (a: nat, b: nat)
    requires |p| > |s| && forall k :: 0 <= k < |p| ==> p[k] in s
    ensures a < b < |p| && p[a] == p[b]
    decreases |p|
  {
    var n := |p| - 1;
    if k :| 0 <= k < n && p[k] == p[n] {
      a, b := k, n;
    } else {
      a, b := Pigeonhole(p[..n], s - {p[n]});
    }
  }

  /** If no member of the set can leave it, dependencies can be followed inside it for ever. */
  lemma {:induction false} Walk(def: FlowDef, s: set<nat>, start: nat, len: nat) returns (p: seq<nat>)
    requires start in s && NeverLeaves(def, s)
    ensures |p| == len + 1 && IsPath(def, p) && forall k :: 0 <= k < |p| ==> p[k] in s
    decreases len
  {
    if len == 0 {
      p := [start];
    } else {
      var q := Walk(def, s, start, len - 1);
      assert DependsInto(def, q[|q| - 1], s);
      var j :| j in s && DependsOn(def, q[|q| - 1], j);
      p := q + [j];
    }
  }

  /** A set that no dependency chain can leave contains a cycle. */
  lemma CycleInside(def: FlowDef, s: set<nat>) returns (cycle: seq<nat>)
    requires s != {} && NeverLeaves(def, s)
    ensures |cycle| >= 2 && IsPath(def, cycle) && cycle[0] == cycle[|cycle| - 1]
  {
    var start :| start in s;
    var p := Walk(def, s, start, |s|);
    var a, b := Pigeonhole(p, s);
    cycle := p[a..b + 1];
    forall k | 0 <= k < |cycle| - 1 ensures DependsOn(def, cycle[k], cycle[k + 1]) {
      assert DependsOn(def, p[a + k], p[a + k + 1]);
    }
  }

  /** In an acyclic flow every nonempty set of steps has a member that depends on none of them. */
  lemma MinimalStep(def: FlowDef, s: set<nat>) returns (m: nat)
    requires Acyclic(def) && s != {}
    ensures m in s && !DependsInto(def, m, s)
  {
    if NeverLeaves(def, s) {
      var cycle := CycleInside(def, s);
      assert false;
    }
    m :| m in s && !DependsInto(def, m, s);
  }

  // ---------- one round ----------

  /** A pass, the ids handed to its requests, and the outcomes reported before the next pass. */
  datatype Round = Round(snap: Snapshot, ids: seq<ActionId>, outcomes: seq<Outcome>)

  function AssignAll(f: Flow, requests: seq<StepRequest>, ids: seq<ActionId>): (g: Flow)
    requires Shaped(f) && |ids| == |requests|
    ensures Shaped(g) && g.def == f.def && g.status == f.status && g.started == f.started
  {
    if requests == [] then f
    else
      var n := |requests| - 1;
      AssignSpec(AssignAll(f, requests[..n], ids[..n]), requests[n].stepId, ids[n])
  }

  function AfterPass(f: Flow, r: Round): (g: Flow)
    requires Shaped(f) && |r.ids| == |ProcessSpec(f, r.snap).2|
    ensures Shaped(g) && g.def == f.def
  {
    ApplyShaped(f, ProcessOp(r.snap));
    AssignAll(ProcessSpec(f, r.snap).0, ProcessSpec(f, r.snap).2, r.ids)
  }

  function AfterRound(f: Flow, r: Round): (g: Flow)
    requires Shaped(f) && |r.ids| == |ProcessSpec(f, r.snap).2|
    ensures Shaped(g) && g.def == f.def
  {
    ApplyShaped(AfterPass(f, r), ReportOp(r.outcomes));
    ReportSpec(AfterPass(f, r), r.outcomes).0
  }

  /** Every condition holds on the snapshot, and every waiting action is reported verified; nothing else is reported. */
  ghost predicate Cooperates(f: Flow, r: Round)
    requires Shaped(f)
  {
    && |r.ids| == |ProcessSpec(f, r.snap).2|
    && (forall i :: 0 <= i < |f.def.steps| && f.def.steps[i].kind.Observe? ==>
          f.def.steps[i].kind.condition(r.snap).Yes?)
    && (forall o :: o in r.outcomes ==> o.status == Verified)
    && (var g := AfterPass(f, r);
        forall i :: 0 <= i < |g.steps| && g.steps[i].status.WaitingStep? && g.steps[i].actionId.Some? ==>
                      Outcome(g.steps[i].actionId.value, Verified) in r.outcomes)
  }

  /** Between cooperative rounds every step is either still pending or verified. */
  predicate Settled(f: Flow) {
    forall i :: 0 <= i < |f.steps| ==> f.steps[i].status.PendingStep? || f.steps[i].status.VerifiedStep?
  }

  lemma {:induction false} AssignAllKeeps(f: Flow, requests: seq<StepRequest>, ids: seq<ActionId>, i: nat)
    requires Shaped(f) && |ids| == |requests| && i < |f.steps|
    ensures var g := AssignAll(f, requests, ids);
            && g.steps[i].status == f.steps[i].status && g.steps[i].waitingEmitted == f.steps[i].waitingEmitted
            && (f.steps[i].actionId.Some? ==> g.steps[i].actionId.Some?)
    decreases |requests|
  {
    if requests != [] {
      AssignAllKeeps(f, requests[..|requests| - 1], ids[..|requests| - 1], i);
    }
  }

  /** A step whose request is in the list ends up with an id. */
  lemma {:induction false} AssignAllReaches(f: Flow, requests: seq<StepRequest>, ids: seq<ActionId>, i: nat, k: nat)
    requires Shaped(f) && UniqueIds(f.def) && |ids| == |requests| && i < |f.steps|
    requires k < |requests| && requests[k].stepId == f.def.steps[i].id
    ensures AssignAll(f, requests, ids).steps[i].actionId.Some?
    decreases |requests|
  {
    var n := |requests| - 1;
    if k < n {
      AssignAllReaches(f, requests[..n], ids[..n], i, k);
    } else {
      PositionIsUnique(f.def, i);
    }
  }

  lemma {:induction false} RequestListed(f: Flow, snap: Snapshot, k: nat, i: nat) returns (at: nat)
    requires Shaped(f) && i < k <= |f.steps| && PassAt(f, snap, i).requests != []
    ensures at < |PassRequests(f, snap, k)| && PassRequests(f, snap, k)[at].stepId == f.def.steps[i].id
    decreases k
  {
    var before := PassRequests(f, snap, k - 1);
    if i == k - 1 {
      at := |before|;
    } else {
      at := RequestListed(f, snap, k - 1, i);
      assert PassRequests(f, snap, k)[at] == before[at];
    }
  }

  lemma {:induction false} VerifiedOutcomesResolve(f: Flow, outcomes: seq<Outcome>, i: nat)
    requires Shaped(f) && i < |f.steps| && f.steps[i].status.WaitingStep? && f.steps[i].actionId.Some?
    requires forall o :: o in outcomes ==> o.status == Verified
    ensures var s := ReportAll(f, outcomes).0.steps[i];
            if Outcome(f.steps[i].actionId.value, Verified) in outcomes
            then s == f.steps[i].(status := VerifiedStep) else s == f.steps[i]
    decreases |outcomes|
  {
    if outcomes != [] {
      var n := |outcomes| - 1;
      assert outcomes == outcomes[..n] + [outcomes[n]];
      VerifiedOutcomesResolve(f, outcomes[..n], i);
    }
  }

  lemma {:induction false} ReportLeavesOthers(f: Flow, outcomes: seq<Outcome>, i: nat)
    requires Shaped(f) && i < |f.steps| && !f.steps[i].status.WaitingStep?
    ensures ReportAll(f, outcomes).0.steps[i] == f.steps[i]
    decreases |outcomes|
  {
    if outcomes != [] { ReportLeavesOthers(f, outcomes[..|outcomes| - 1], i); }
  }

  /** What a cooperative pass makes of one step of a settled running flow. */
  lemma PassOnStep(f: Flow, r: Round, i: nat)
    requires Shaped(f) && UniqueIds(f.def) && Settled(f) && !Closed(f) && Cooperates(f, r) && i < |f.steps|
    ensures var b := Begin(f);
            var m := PassSteps(b, r.snap);
            && DepsOk(b, i) == DepsOk(f, i)
            && (m.steps[i].status.VerifiedStep? || m.steps[i].status.WaitingStep? || m.steps[i].status.PendingStep?)
            && ((m.steps[i].status.VerifiedStep? || m.steps[i].status.WaitingStep?) <==>
                (f.steps[i].status.VerifiedStep? || DepsOk(f, i)))
            && (m.steps[i].status.WaitingStep? ==>
                  AssignAll(m, PassRequests(b, r.snap, |b.steps|), r.ids).steps[i].actionId.Some?)
  {
    var b := Begin(f);
    var m := PassSteps(b, r.snap);
    assert b.steps == f.steps && b.def == f.def;
    DepsOkSame(f, b, i);
    if m.steps[i].status.WaitingStep? {
      var at := RequestListed(b, r.snap, |b.steps|, i);
      AssignAllReaches(m, PassRequests(b, r.snap, |b.steps|), r.ids, i, at);
    }
  }

  lemma DepsOkSame(f: Flow, g: Flow, i: nat)
    requires Shaped(f) && Shaped(g) && f.def == g.def && f.steps == g.steps && i < |f.steps|
    ensures DepsOk(f, i) == DepsOk(g, i)
  {
    forall d | d in f.def.steps[i].dependsOn
      ensures var p := Position(f.def.steps, d); p.Some? ==> IsVerified(f, p.value) == IsVerified(g, p.value)
    {
    }
  }

  lemma AfterRoundOnStep(f: Flow, r: Round, i: nat)
    requires Shaped(f) && UniqueIds(f.def) && Settled(f) && !Closed(f) && Cooperates(f, r) && i < |f.steps|
    requires !AfterPass(f, r).status.CompletedFlow? && !AfterPass(f, r).status.FailedFlow?
    ensures var g := ReportAll(AfterPass(f, r), r.outcomes).0;
            if f.steps[i].status.VerifiedStep? || DepsOk(f, i) then g.steps[i].status.VerifiedStep?
            else g.steps[i].status.PendingStep?
  {
    var b := Begin(f);
    var m := PassSteps(b, r.snap);
    var requests := PassRequests(b, r.snap, |b.steps|);
    var g := AfterPass(f, r);
    NoFailureInPass(f, r);
    assert Recheck(m).0 == m;
    PassOnStep(f, r, i);
    AssignAllKeeps(m, requests, r.ids, i);
    if g.steps[i].status.WaitingStep? {
      VerifiedOutcomesResolve(g, r.outcomes, i);
    } else {
      ReportLeavesOthers(g, r.outcomes, i);
    }
  }

  /** After a cooperative pass nothing has failed, so the recheck can only complete the flow or leave it alone. */
  lemma NoFailureInPass(f: Flow, r: Round)
    requires Shaped(f) && UniqueIds(f.def) && Settled(f) && !Closed(f) && Cooperates(f, r)
    ensures var m := PassSteps(Begin(f), r.snap);
            && (forall i :: 0 <= i < |m.steps| ==> !m.steps[i].status.FailedStep?)
            && (Recheck(m).0 == m || Recheck(m).0 == m.(status := CompletedFlow))
  {
    var m := PassSteps(Begin(f), r.snap);
    forall i | 0 <= i < |m.steps| ensures !m.steps[i].status.FailedStep? {
      PassOnStep(f, r, i);
    }
  }

  predicate AllVerified(f: Flow) {
    forall i :: 0 <= i < |f.steps| ==> f.steps[i].status.VerifiedStep?
  }

  /** A flow between cooperative rounds, not yet completed. */
  predicate Underway(f: Flow) {
    Shaped(f) && Settled(f) && (f.status.NotStarted? || f.status.RunningFlow?) && (f.started <==> f.status.RunningFlow?)
  }

  /** A round whose pass already verifies the last step. */
  lemma RoundAtOnce(f: Flow, r: Round)
    requires Underway(f) && UniqueIds(f.def) && Cooperates(f, r) && AfterPass(f, r).status.CompletedFlow?
    ensures AfterRound(f, r).status.CompletedFlow?
    ensures forall i :: 0 <= i < |f.steps| ==>
              AfterRound(f, r).steps[i].status.VerifiedStep? && (f.steps[i].status.VerifiedStep? || DepsOk(f, i))
  {
    var p := AfterPass(f, r);
    NoFailureInPass(f, r);
    forall i | 0 <= i < |f.steps|
      ensures p.steps[i].status.VerifiedStep? && (f.steps[i].status.VerifiedStep? || DepsOk(f, i))
    {
      PassOnStep(f, r, i);
      AssignAllKeeps(ProcessSpec(f, r.snap).0, ProcessSpec(f, r.snap).2, r.ids, i);
    }
    NothingWaiting(p, r.outcomes);
  }

  /** After a round exactly those steps are verified that were, or whose dependencies all were; the flow is
      completed exactly when that is all of them. */
  lemma RoundLaw(f: Flow, r: Round)
    requires Underway(f) && UniqueIds(f.def) && Cooperates(f, r)
    ensures var g := AfterRound(f, r);
            && (forall i :: 0 <= i < |f.steps| ==>
                  (g.steps[i].status.VerifiedStep? <==> f.steps[i].status.VerifiedStep? || DepsOk(f, i)))
            && if AllVerified(g) then g.status.CompletedFlow? else Underway(g)
  {
    var p := AfterPass(f, r);
    NoFailureInPass(f, r);
    if p.status.CompletedFlow? {
      RoundAtOnce(f, r);
    } else {
      forall i | 0 <= i < |f.steps|
        ensures var s := ReportAll(p, r.outcomes).0.steps[i].status;
                if f.steps[i].status.VerifiedStep? || DepsOk(f, i) then s.VerifiedStep? else s.PendingStep?
      {
        AfterRoundOnStep(f, r, i);
      }
    }
  }

  function VerifiedSet(f: Flow): set<nat> {
    set i: nat | 0 <= i < |f.steps| && f.steps[i].status.VerifiedStep?
  }

  function Indices(n: nat): (s: set<nat>)
    ensures |s| == n && forall i :: i in s <==> 0 <= i < n
  {
    if n == 0 then {} else Indices(n - 1) + {n - 1}
  }

  lemma {:induction false} SmallerSet(a: set<nat>, b: set<nat>)
    requires a < b
    ensures |a| < |b|
  {
    assert !(b <= a);
    var x :| x in b && x !in a;
    SubsetSize(a, b - {x});
  }

  lemma {:induction false} SubsetSize(a: set<nat>, b: set<nat>)
    requires a <= b
    ensures |a| <= |b|
    decreases |b|
  {
    if a != {} {
      var x :| x in a;
      SubsetSize(a - {x}, b - {x});
    }
  }

  /** Some step of an unfinished acyclic flow is not verified while all that it depends on is. */
  lemma NextStep(f: Flow) returns (m: nat)
    requires Shaped(f) && DepsResolve(f.def) && Acyclic(f.def) && !AllVerified(f)
    ensures m < |f.steps| && !f.steps[m].status.VerifiedStep? && DepsOk(f, m)
  {
    var missing := Indices(|f.steps|) - VerifiedSet(f);
    var i :| 0 <= i < |f.steps| && !f.steps[i].status.VerifiedStep?;
    assert i in missing;
    m := MinimalStep(f.def, missing);
    forall d | d in f.def.steps[m].dependsOn
      ensures var p := Position(f.def.steps, d); p.Some? && IsVerified(f, p.value)
    {
      var j := Position(f.def.steps, d).value;
      assert DependsOn(f.def, m, j);
      assert j !in missing;
    }
  }

  /** Each round verifies at least one more step. */
  lemma RoundGrows(f: Flow, r: Round)
    requires Underway(f) && UniqueIds(f.def) && DepsResolve(f.def) && Acyclic(f.def) && Cooperates(f, r)
    requires !AllVerified(f)
    ensures |VerifiedSet(AfterRound(f, r))| > |VerifiedSet(f)|
  {
    var g := AfterRound(f, r);
    RoundLaw(f, r);
    var m := NextStep(f);
    assert m in VerifiedSet(g) && m !in VerifiedSet(f);
    assert VerifiedSet(f) <= VerifiedSet(g);
    SmallerSet(VerifiedSet(f), VerifiedSet(g));
  }

  lemma NotAllVerified(f: Flow)
    requires !AllVerified(f)
    ensures |VerifiedSet(f)| < |f.steps|
  {
    var i :| 0 <= i < |f.steps| && !f.steps[i].status.VerifiedStep?;
    assert VerifiedSet(f) <= Indices(|f.steps|) - {i};
    SubsetSize(VerifiedSet(f), Indices(|f.steps|) - {i});
  }

  /** The flow after some rounds; rounds that do not fit the flow's requests are skipped. */
  function AfterRounds(def: FlowDef, rounds: seq<Round>): (f: Flow)
    ensures Shaped(f) && f.def == def
  {
    if rounds == [] then NewFlow(def)
    else
      var n := |rounds| - 1;
      var f := AfterRounds(def, rounds[..n]);
      if |rounds[n].ids| == |ProcessSpec(f, rounds[n].snap).2| then AfterRound(f, rounds[n]) else f
  }

  ghost predicate AllCooperate(def: FlowDef, rounds: seq<Round>) {
    forall k :: 0 <= k < |rounds| ==> Cooperates(AfterRounds(def, rounds[..k]), rounds[k])
  }

  /** Completed, or n rounds old with at least n steps verified and more to come. */
  predicate Counted(f: Flow, n: nat) {
    f.status.CompletedFlow? || (Underway(f) && |VerifiedSet(f)| >= n && (n > 0 ==> !AllVerified(f)))
  }

  lemma CountStep(f: Flow, r: Round, n: nat)
    requires Shaped(f) && Counted(f, n) && Cooperates(f, r)
    requires UniqueIds(f.def) && DepsResolve(f.def) && Acyclic(f.def)
    ensures Counted(AfterRound(f, r), n + 1)
  {
    if f.status.CompletedFlow? {
      CompletedRests(f, r);
    } else {
      RoundLaw(f, r);
      if !AllVerified(f) { RoundGrows(f, r); }
    }
  }

  lemma CooperatePrefix(def: FlowDef, rounds: seq<Round>)
    requires rounds != [] && AllCooperate(def, rounds)
    ensures AllCooperate(def, rounds[..|rounds| - 1])
    ensures Cooperates(AfterRounds(def, rounds[..|rounds| - 1]), rounds[|rounds| - 1])
  {
    var n := |rounds| - 1;
    forall k | 0 <= k < n ensures Cooperates(AfterRounds(def, rounds[..n][..k]), rounds[..n][k]) {
      assert rounds[..n][..k] == rounds[..k];
    }
  }

  /** While the flow is not completed, every round so far has verified a step of its own. */
  lemma {:induction false} RoundsCount(def: FlowDef, rounds: seq<Round>)
    requires UniqueIds(def) && DepsResolve(def) && Acyclic(def) && AllCooperate(def, rounds)
    ensures Counted(AfterRounds(def, rounds), |rounds|)
    decreases |rounds|
  {
    if rounds != [] {
      var n := |rounds| - 1;
      CooperatePrefix(def, rounds);
      RoundsCount(def, rounds[..n]);
      CountStep(AfterRounds(def, rounds[..n]), rounds[n], n);
    }
  }

  lemma CompletedRests(f: Flow, r: Round)
    requires Shaped(f) && f.status.CompletedFlow? && |r.ids| == |ProcessSpec(f, r.snap).2|
    ensures AfterRound(f, r).status.CompletedFlow?
  {
  }

  /** An acyclic flow with unique step ids completes within max(1, number of steps) cooperative rounds. */
  lemma FlowCompletes(def: FlowDef, rounds: seq<Round>)
    requires UniqueIds(def) && DepsResolve(def) && Acyclic(def) && AllCooperate(def, rounds)
    requires |rounds| >= 1 && |rounds| >= |def.steps|
    ensures AfterRounds(def, rounds).status.CompletedFlow?
  {
    RoundsCount(def, rounds);
    var f := AfterRounds(def, rounds);
    if !f.status.CompletedFlow? { NotAllVerified(f); }
  }
}
