/** The answer to an optimised trip, and what a client reads in it. */
module Answers {
  import opened Engine
  import opened Json
  import opened Reordering
  import opened Trip
  import opened TripJson
  import opened Wrappers

  /** The answer to a trip that was built: its waypoints in the engine's order, the
      engine's legs stitched onto them, and the engine's geometry. */
  ghost predicate IsAnswer(trip: seq<Waypoint>, engine: RoutingEngine, d: Degrees, ordered: seq<Waypoint>,
                           legs: seq<RouteLeg>, answer: Tree)
    requires |trip| > 0
  {
    var reply := engine.answer(Request(trip, engine.fix));
    && KeepsEnds(reply.waypointIndex, !Roundtrip(trip)) && |reply.waypointIndex| == OrderedCount(trip)
    && |reply.trips| == 1 && |reply.trips[0].legs| == |trip| - 1 > 0
    && ordered == Scatter(trip, reply.waypointIndex) && multiset(ordered) == multiset(trip)
    && |legs| == |trip| - 1
    && (forall i :: 0 <= i < |legs| ==> legs[i] == LegBetween(ordered[i], ordered[i + 1], reply.trips[0].legs[i]))
    && answer == OptimizedTree(ordered, legs, reply.trips[0].geometry, Shower(d))
  }

  /** The leg's document names the two waypoints and the engine's figures, cut to
      whole units. */
  ghost predicate ReadsAsLeg(leg: Tree, a: Waypoint, b: Waypoint, engineLeg: EngineLeg) {
    && GetText(leg, ["from_building"]) == Some(ShowInt(a.building.id))
    && GetText(leg, ["to_building"]) == Some(ShowInt(b.building.id))
    && GetText(leg, ["cost", "distance"]) == Some(ShowInt(Truncate(engineLeg.distance)))
    && GetText(leg, ["cost", "duration"]) == Some(ShowInt(Truncate(engineLeg.duration)))
  }

  lemma LegReads(a: Waypoint, b: Waypoint, engineLeg: EngineLeg)
    ensures ReadsAsLeg(LegTree(LegBetween(a, b, engineLeg)), a, b, engineLeg)
  {
    LegIsHeld(LegBetween(a, b, engineLeg));
  }

  /** What a client reads in such an answer: the trip in the engine's order, ... */
  lemma AnswerTellsTheTrip(trip: seq<Waypoint>, engine: RoutingEngine, d: Degrees, ordered: seq<Waypoint>,
                           legs: seq<RouteLeg>, answer: Tree)
    requires |trip| > 0 && IsAnswer(trip, engine, d, ordered, legs, answer) && d.RoundsOnce()
    ensures var reply := engine.answer(Request(trip, engine.fix));
            && TripFromTree(answer, Reader(d)) == Success(Mapped(Scatter(trip, reply.waypointIndex), Normal(d)))
            && GetText(answer, ["geometry"]) == Some(reply.trips[0].geometry)
  {
    var geometry := engine.answer(Request(trip, engine.fix)).trips[0].geometry;
    OptimizedReadsBack(ordered, legs, geometry, d);
    LegsAndGeometryAreHeld(ordered, legs, geometry, Shower(d));
  }

  /** ... and a leg from each waypoint to the next with the engine's figures. */
  lemma AnswerTellsTheLegs(trip: seq<Waypoint>, engine: RoutingEngine, d: Degrees, ordered: seq<Waypoint>,
                           legs: seq<RouteLeg>, answer: Tree)
    requires |trip| > 0 && IsAnswer(trip, engine, d, ordered, legs, answer)
    ensures var reply := engine.answer(Request(trip, engine.fix));
            var list := GetChild(answer, ["legs"]);
            && list.Some? && |list.value.children| == |trip| - 1
            && forall i :: 0 <= i < |trip| - 1 ==>
                 ReadsAsLeg(list.value.children[i].1, ordered[i], ordered[i + 1], reply.trips[0].legs[i])
  {
    var reply := engine.answer(Request(trip, engine.fix));
    LegsAndGeometryAreHeld(ordered, legs, reply.trips[0].geometry, Shower(d));
    forall i | 0 <= i < |legs| ensures ReadsAsLeg(LegTree(legs[i]), ordered[i], ordered[i + 1], reply.trips[0].legs[i]) {
      LegReads(ordered[i], ordered[i + 1], reply.trips[0].legs[i]);
    }
  }
}
