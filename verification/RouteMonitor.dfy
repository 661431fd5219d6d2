/** Route monitoring: which leg a sequence of positions has reached, and when the route is complete. */
module RouteMonitor {
  import opened Actions
  import opened Recording

  /** The earth: distances and cross-track errors are whatever the geodesy makes of them. */
  datatype Geodesy = Geodesy(
    distance: (Position, Position) -> Float, crossTrack: (Position, Position, Position) -> Float)

  datatype Source = OpenAirac | XPlaneFms | Operator | Scenario | UnknownSource

  datatype RouteState = RouteState(source: Source, waypoints: seq<Position>) {
    predicate IsUsable() {
      !source.UnknownSource? && |waypoints| >= 2
    }
  }

  datatype Observation = Observation(
    activeLeg: Option<nat>, toWaypoint: Option<Float>, crossTrack: Option<Float>, remaining: Option<Float>,
    complete: bool, toDestination: Option<Float>)

  const NOTHING: Observation := Observation(None, None, None, None, false, None)

  const CAPTURE_RADIUS: Float := Fin(2.5)

  // ---------- progress along the route ----------

  datatype Progress = Progress(leg: nat, complete: bool)

  const AT_START: Progress := Progress(0, false)

  predicate InRange(wps: seq<Position>, p: Progress) {
    p.leg < |wps| && (p.complete ==> p.leg + 1 == |wps|)
  }

  /** The end of leg `leg` has been captured, or, unless it is the last, passed abeam. */
  predicate Passed(geo: Geodesy, wps: seq<Position>, leg: nat, at: Position)
    requires leg + 1 < |wps|
  {
    var next := geo.distance(at, wps[leg + 1]);
    next.Le(CAPTURE_RADIUS) || (leg + 2 != |wps| && next.Lt(geo.distance(at, wps[leg])))
  }

  /** The leg reached from `leg`: the first one whose end has not been passed. */
  ghost predicate Reached(geo: Geodesy, wps: seq<Position>, leg: nat, at: Position, to: nat)
    requires leg < |wps|
  {
    && leg <= to < |wps|
    && (forall k :: leg <= k < to ==> Passed(geo, wps, k, at))
    && (to + 1 < |wps| ==> !Passed(geo, wps, to, at))
  }

  function FirstUnpassed(geo: Geodesy, wps: seq<Position>, leg: nat, at: Position): (to: nat)
    requires leg < |wps|
    ensures Reached(geo, wps, leg, at, to)
    decreases |wps| - leg
  {
    if leg + 1 < |wps| && Passed(geo, wps, leg, at) then FirstUnpassed(geo, wps, leg + 1, at) else leg
  }

  function Advanced(geo: Geodesy, wps: seq<Position>, p: Progress, at: Position): (q: Progress)
    requires InRange(wps, p)
    ensures InRange(wps, q)
  {
    if |wps| < 2 || p.complete then p
    else
      var leg := FirstUnpassed(geo, wps, p.leg, at);
      Progress(leg, leg + 1 == |wps|)
  }

  /** Length of the legs between two waypoints of the route. */
  function LegsBetween(geo: Geodesy, wps: seq<Position>, from: nat, to: nat): Float
    requires from <= to < |wps|
  {
    if from == to then Fin(0.0)
    else LegsBetween(geo, wps, from, to - 1).Plus(geo.distance(wps[to - 1], wps[to]))
  }

  function Observed(geo: Geodesy, wps: seq<Position>, p: Progress, at: Position): Observation
    requires InRange(wps, p)
  {
    if |wps| < 2 then NOTHING
    else
      var destination := Some(geo.distance(at, wps[|wps| - 1]));
      if p.leg + 1 == |wps| then Observation(None, None, None, Some(Fin(0.0)), true, destination)
      else
        var to := geo.distance(at, wps[p.leg + 1]);
        Observation(Some(p.leg), Some(to), Some(geo.crossTrack(wps[p.leg], wps[p.leg + 1], at)),
                    Some(to.Plus(LegsBetween(geo, wps, p.leg + 1, |wps| - 1))), false, destination)
  }

  // ---------- what an observation means ----------

  /** Length of the path through these points. */
  function PathLength(geo: Geodesy, points: seq<Position>): Float {
    var n := |points|;
    if n < 2 then Fin(0.0)
    else PathLength(geo, points[..n - 1]).Plus(geo.distance(points[n - 2], points[n - 1]))
  }

  lemma PlusAssociative(a: Float, b: Float, c: Float)
    ensures a.Plus(b).Plus(c) == a.Plus(b.Plus(c))
    ensures Fin(0.0).Plus(a) == a && a.Plus(Fin(0.0)) == a
  {
  }

  /** The way to the next waypoint and the legs behind it make the path through every waypoint still ahead. */
  lemma {:induction false} WayAhead(geo: Geodesy, wps: seq<Position>, at: Position, first: nat, last: nat)
    requires first <= last < |wps|
    ensures geo.distance(at, wps[first]).Plus(LegsBetween(geo, wps, first, last)) ==
            PathLength(geo, [at] + wps[first..last + 1])
    decreases last
  {
    var way := geo.distance(at, wps[first]);
    LastApart(at, wps, first, last);
    PathSnoc(geo, [at] + wps[first..last], wps[last]);
    if first == last {
      assert [at] + wps[first..last] == [at];
      PlusAssociative(way, Fin(0.0), Fin(0.0));
    } else {
      WayAhead(geo, wps, at, first, last - 1);
      PlusAssociative(way, LegsBetween(geo, wps, first, last - 1), geo.distance(wps[last - 1], wps[last]));
    }
  }

  lemma LastApart<T>(x: T, xs: seq<T>, first: nat, last: nat)
    requires first <= last < |xs|
    ensures [x] + xs[first..last + 1] == [x] + xs[first..last] + [xs[last]]
    ensures var front := [x] + xs[first..last]; front[|front| - 1] == if first == last then x else xs[last - 1]
  {
  }

  lemma PathSnoc(geo: Geodesy, points: seq<Position>, next: Position)
    requires points != []
    ensures PathLength(geo, points + [next]) ==
            PathLength(geo, points).Plus(geo.distance(points[|points| - 1], next))
  {
    assert (points + [next])[..|points|] == points;
  }

  /** On the way: the leg reached, the way to its end, the path through all that lies ahead, the cross-track error of
      the leg from its start to its end, and the way to the destination. */
  predicate EnRoute(geo: Geodesy, wps: seq<Position>, leg: nat, at: Position, seen: Observation)
    requires leg + 1 < |wps|
  {
    && seen.activeLeg == Some(leg) && !seen.complete
    && seen.toWaypoint == Some(geo.distance(at, wps[leg + 1]))
    && seen.toDestination == Some(geo.distance(at, wps[|wps| - 1]))
    && seen.crossTrack == Some(geo.crossTrack(wps[leg], wps[leg + 1], at))
    && seen.remaining == Some(PathLength(geo, [at] + wps[leg + 1..]))
    && (leg + 2 == |wps| ==> seen.remaining == seen.toWaypoint == seen.toDestination)
  }

  /** The end of the leg is more than 2.5 miles away, and no nearer than its start unless it is the destination. */
  predicate StillAhead(geo: Geodesy, wps: seq<Position>, leg: nat, at: Position)
    requires leg + 1 < |wps|
  {
    var next := geo.distance(at, wps[leg + 1]);
    !next.Le(Fin(2.5)) && (leg + 2 < |wps| ==> !next.Lt(geo.distance(at, wps[leg])))
  }

  /** Arrived: no leg is shown and nothing remains. */
  predicate AtEnd(geo: Geodesy, wps: seq<Position>, at: Position, seen: Observation)
    requires wps != []
  {
    && seen.activeLeg.None? && seen.toWaypoint.None? && seen.crossTrack.None?
    && seen.complete && seen.remaining == Some(Fin(0.0))
    && seen.toDestination == Some(geo.distance(at, wps[|wps| - 1]))
  }

  lemma ObservationMeans(geo: Geodesy, wps: seq<Position>, p: Progress, at: Position)
    requires |wps| >= 2 && InRange(wps, p)
    ensures if p.leg + 1 == |wps| then AtEnd(geo, wps, at, Observed(geo, wps, p, at))
            else EnRoute(geo, wps, p.leg, at, Observed(geo, wps, p, at))
  {
    if p.leg + 1 < |wps| {
      WayAhead(geo, wps, at, p.leg + 1, |wps| - 1);
      assert wps[p.leg + 1..|wps| - 1 + 1] == wps[p.leg + 1..];
      PlusAssociative(geo.distance(at, wps[p.leg + 1]), Fin(0.0), Fin(0.0));
    }
  }

  // ---------- the monitor ----------

  function LegLengths(geo: Geodesy, wps: seq<Position>): (lengths: seq<Float>)
    ensures |lengths| == if wps == [] then 0 else |wps| - 1
    ensures forall k :: 0 <= k < |lengths| ==> lengths[k] == geo.distance(wps[k], wps[k + 1])
  {
    seq(if wps == [] then 0 else |wps| - 1, k requires 0 <= k < |wps| - 1 => geo.distance(wps[k], wps[k + 1]))
  }

  class Monitor {
    const geo: Geodesy
    const waypoints: seq<Position>
    const lengths: seq<Float>
    var activeLeg: nat
    var routeComplete: bool

    ghost function State(): Progress
      reads this
    {
      Progress(activeLeg, routeComplete)
    }

    ghost predicate Valid()
      reads this
    {
      && (waypoints == [] ==> lengths == [])
      && (waypoints != [] ==> InRange(waypoints, State()) && |lengths| == |waypoints| - 1)
      && (|waypoints| >= 2 ==> (activeLeg + 1 == |waypoints| <==> routeComplete))
      && forall k :: 0 <= k < |lengths| ==> lengths[k] == geo.distance(waypoints[k], waypoints[k + 1])
    }

    constructor (geo: Geodesy, route: RouteState)
      ensures Valid() && this.geo == geo && waypoints == route.waypoints && State() == AT_START
    {
      this.geo, waypoints := geo, route.waypoints;
      lengths := LegLengths(geo, route.waypoints);
      activeLeg, routeComplete := 0, false;
    }

    /** Length of the legs after leg `leg`. */
    method Remaining(leg: nat) returns (sum: Float)
      requires Valid() && leg + 1 < |waypoints|
      ensures sum == LegsBetween(geo, waypoints, leg + 1, |waypoints| - 1)
    {
      sum := Fin(0.0);
      for k := leg + 1 to |lengths|
        invariant sum == LegsBetween(geo, waypoints, leg + 1, k)
      {
        sum := sum.Plus(lengths[k]);
      }
    }

    /** Moves on past every leg whose end has been passed. */
    method PassWaypoints(at: Position)
      requires Valid() && !routeComplete && |waypoints| >= 2
      modifies this
      ensures Valid() && State() == Advanced(geo, waypoints, old(State()), at)
      ensures !routeComplete ==> StillAhead(geo, waypoints, activeLeg, at)
    {
      var running := true;
      while running && activeLeg + 1 < |waypoints|
        invariant activeLeg < |waypoints| && !routeComplete && old(activeLeg) <= activeLeg
        invariant FirstUnpassed(geo, waypoints, activeLeg, at) == FirstUnpassed(geo, waypoints, old(activeLeg), at)
        invariant !running ==> FirstUnpassed(geo, waypoints, activeLeg, at) == activeLeg
        decreases running, |waypoints| - activeLeg
      {
        var next := geo.distance(at, waypoints[activeLeg + 1]);
        var current := geo.distance(at, waypoints[activeLeg]);
        var isFinal := activeLeg + 2 == |waypoints|;
        if next.Le(CAPTURE_RADIUS) || (!isFinal && next.Lt(current)) {
          activeLeg := activeLeg + 1;
        } else {
          running := false;
        }
      }
      if activeLeg + 1 == |waypoints| {
        routeComplete := true;
      }
    }

    method Update(at: Position) returns (seen: Observation)
      requires Valid()
      modifies this
      ensures Valid()
      ensures waypoints != [] ==> State() == Advanced(geo, waypoints, old(State()), at)
      ensures seen == if waypoints == [] then NOTHING else Observed(geo, waypoints, State(), at)
      ensures |waypoints| < 2 ==> seen == Observation(None, None, None, None, false, None)
      ensures |waypoints| >= 2 && !routeComplete ==>
                && activeLeg + 1 < |waypoints| && EnRoute(geo, waypoints, activeLeg, at, seen)
                && StillAhead(geo, waypoints, activeLeg, at)
      ensures |waypoints| >= 2 && routeComplete ==> AtEnd(geo, waypoints, at, seen)
    {
      if lengths == [] || |waypoints| < 2 {
        return NOTHING;
      }
      if !routeComplete {
        PassWaypoints(at);
      }
      ObservationMeans(geo, waypoints, State(), at);
      var destination := Some(geo.distance(at, waypoints[|waypoints| - 1]));
      if routeComplete {
        return Observation(None, None, None, Some(Fin(0.0)), true, destination);
      }
      var to := geo.distance(at, waypoints[activeLeg + 1]);
      var rest := Remaining(activeLeg);
      seen := Observation(Some(activeLeg), Some(to),
                          Some(geo.crossTrack(waypoints[activeLeg], waypoints[activeLeg + 1], at)),
                          Some(to.Plus(rest)), false, destination);
    }
  }

  // ---------- whole flights ----------

  /** Progress after a list of positions. */
  function Flown(geo: Geodesy, wps: seq<Position>, track: seq<Position>): (p: Progress)
    requires wps != []
    ensures InRange(wps, p)
  {
    if track == [] then AT_START
    else Advanced(geo, wps, Flown(geo, wps, track[..|track| - 1]), track[|track| - 1])
  }

  /** Once the position has stopped changing, so has everything else. */
  lemma SamePositionChangesNothing(geo: Geodesy, wps: seq<Position>, p: Progress, at: Position)
    requires wps != [] && InRange(wps, p)
    ensures var q := Advanced(geo, wps, p, at);
            Advanced(geo, wps, q, at) == q
  {
  }

  /** What has been passed determines the leg: the monitor's progress is on the one leg all of whose predecessors have
      been passed while its own end has not, and it is complete just when that leg is the last waypoint. */
  lemma {:induction false} ReachedIff(geo: Geodesy, wps: seq<Position>, p: Progress, at: Position, to: nat)
    requires |wps| >= 2 && InRange(wps, p) && !p.complete
    ensures Advanced(geo, wps, p, at) == Progress(to, to + 1 == |wps|) <==> Reached(geo, wps, p.leg, at, to)
  {
    if Reached(geo, wps, p.leg, at, to) { ReachedUnique(geo, wps, p.leg, at, to); }
  }

  lemma {:induction false} ReachedUnique(geo: Geodesy, wps: seq<Position>, leg: nat, at: Position, to: nat)
    requires leg < |wps| && Reached(geo, wps, leg, at, to)
    ensures to == FirstUnpassed(geo, wps, leg, at)
    decreases |wps| - leg
  {
    if leg < to { ReachedUnique(geo, wps, leg + 1, at, to); }
  }

  /** Over a flight the active leg never goes back, and completion, once reached, stays. */
  lemma {:induction false} NeverGoesBack(geo: Geodesy, wps: seq<Position>, track: seq<Position>, k: nat)
    requires wps != [] && k <= |track|
    ensures Flown(geo, wps, track[..k]).leg <= Flown(geo, wps, track).leg
    ensures Flown(geo, wps, track[..k]).complete ==> Flown(geo, wps, track).complete
    decreases |track|
  {
    if k == |track| {
      assert track[..k] == track;
    } else {
      var n := |track| - 1;
      assert track[..n][..k] == track[..k];
      NeverGoesBack(geo, wps, track[..n], k);
    }
  }

  /** A route is complete exactly when its last waypoint has been reached as a leg, and then some position of the flight
      lay within the capture radius of that waypoint: passing it abeam is not enough. */
  lemma {:induction false} CompleteMeansArrived(geo: Geodesy, wps: seq<Position>, track: seq<Position>)
    requires |wps| >= 2
    ensures var p := Flown(geo, wps, track);
            && (p.complete <==> p.leg + 1 == |wps|)
            && (p.complete ==>
                  exists k :: 0 <= k < |track| && geo.distance(track[k], wps[|wps| - 1]).Le(CAPTURE_RADIUS))
    decreases |track|
  {
    if track != [] {
      var n := |track| - 1;
      var before := Flown(geo, wps, track[..n]);
      CompleteMeansArrived(geo, wps, track[..n]);
      if before.complete {
        var k :| 0 <= k < n && geo.distance(track[..n][k], wps[|wps| - 1]).Le(CAPTURE_RADIUS);
        assert geo.distance(track[k], wps[|wps| - 1]).Le(CAPTURE_RADIUS);
      } else if Flown(geo, wps, track).complete {
        assert Reached(geo, wps, before.leg, track[n], |wps| - 1);
        assert Passed(geo, wps, |wps| - 2, track[n]);
      }
    }
  }

  /** No waypoint is skipped: whatever leg a flight has reached, each waypoint behind it was captured or passed abeam
      by some position of the flight. */
  lemma {:induction false} EveryWaypointPassed(geo: Geodesy, wps: seq<Position>, track: seq<Position>, leg: nat)
    requires |wps| >= 2 && leg < Flown(geo, wps, track).leg
    ensures exists k :: 0 <= k < |track| &&
              (|| geo.distance(track[k], wps[leg + 1]).Le(Fin(2.5))
               || (leg + 2 != |wps| && geo.distance(track[k], wps[leg + 1]).Lt(geo.distance(track[k], wps[leg]))))
    decreases |track|
  {
    var n := |track| - 1;
    var before := Flown(geo, wps, track[..n]);
    if leg < before.leg {
      EveryWaypointPassed(geo, wps, track[..n], leg);
      var k :| 0 <= k < n && Passed(geo, wps, leg, track[..n][k]);
      assert Passed(geo, wps, leg, track[k]);
    } else {
      assert Reached(geo, wps, before.leg, track[n], Flown(geo, wps, track).leg);
      assert Passed(geo, wps, leg, track[n]);
    }
  }

  /** An observation is empty exactly when there are fewer than two waypoints: the route's source plays no part. The
      documented promise that an unusable route is never observed therefore holds unless the source is unknown and there
      are two waypoints or more. */
  lemma UnusableRouteIsNotObservedIff(geo: Geodesy, route: RouteState, p: Progress, at: Position)
    requires InRange(route.waypoints, p)
    ensures Observed(geo, route.waypoints, p, at) == NOTHING <==> |route.waypoints| < 2
    ensures (!route.IsUsable() ==> Observed(geo, route.waypoints, p, at) == NOTHING)
            <==> !(route.source.UnknownSource? && |route.waypoints| >= 2)
  {
  }

  /** A route that is not usable and yet observed. */
  lemma UnknownSourceIsObserved(geo: Geodesy, at: Position)
    ensures var route := RouteState(UnknownSource, [Position(Fin(0.0), Fin(0.0)), Position(Fin(0.0), Fin(1.0))]);
            !route.IsUsable() && Observed(geo, route.waypoints, AT_START, at) != NOTHING
  {
  }
}
