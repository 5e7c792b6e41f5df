/** The calls into the OSRM routing engine. The engine is an oracle: a function
    from a request to a reply, of which only its published promises are used. */
module Engine {
  import opened Wrappers
  import opened Reordering
  import opened Text
  import opened Trip

  datatype Destination = Any | Last

  /** A coordinate in the engine's own fixed-point form. */
  datatype Location = Location(lon: int, lat: int)

  datatype TripParameters = TripParameters(roundtrip: bool, destination: Destination, coordinates: seq<Location>)

  datatype EngineLeg = EngineLeg(distance: real, duration: real)

  datatype EngineTrip = EngineTrip(legs: seq<EngineLeg>, geometry: string)

  datatype EngineReply = EngineReply(
    statusOk: bool,
    code: string,
    message: string,
    waypointIndex: seq<nat>,
    trips: seq<EngineTrip>)

  /** `fix` is the engine's rounding of a degree to its own resolution. */
  datatype RoutingEngine = RoutingEngine(fix: int -> int, answer: TripParameters -> EngineReply)

  predicate Answered(reply: EngineReply) {
    reply.statusOk && IEquals(reply.code, "ok")
  }

  /** What the engine promises of a reply that holds a single trip: the waypoint
      indices permute the coordinates, the source stays first, a fixed
      destination stays last, and there is a leg per hop (closing the loop on a
      round trip). */
  ghost predicate KeepsPromises(p: TripParameters, reply: EngineReply) {
    Answered(reply) && |reply.trips| == 1 && |p.coordinates| > 0 ==>
      && |reply.waypointIndex| == |p.coordinates|
      && KeepsEnds(reply.waypointIndex, p.destination == Last)
      && |reply.trips[0].legs| == if p.roundtrip then |p.coordinates| else |p.coordinates| - 1
  }

  ghost predicate Honest(engine: RoutingEngine) {
    forall p :: KeepsPromises(p, engine.answer(p))
  }

  // ---------- the request ----------

  function Locate(w: Waypoint, fix: int -> int): Location {
    Location(fix(w.building.coords.longitude), fix(w.building.coords.latitude))
  }

  function Locations(trip: seq<Waypoint>, fix: int -> int): seq<Location> {
    seq(|trip|, i requires 0 <= i < |trip| => Locate(trip[i], fix))
  }

  /** The two ends of the trip are one place to the engine. */
  predicate EndsMeet(trip: seq<Waypoint>, fix: int -> int)
    requires |trip| > 0
  {
    Locate(trip[|trip| - 1], fix) == Locate(trip[0], fix)
  }

  /** The request sent: the closing waypoint of a round trip is dropped, but only
      when it repeats the starting point. */
  function Request(trip: seq<Waypoint>, fix: int -> int): TripParameters
    requires |trip| > 0
  {
    var sent := if Roundtrip(trip) && EndsMeet(trip, fix) then trip[..|trip| - 1] else trip;
    TripParameters(Roundtrip(trip), if Roundtrip(trip) then Any else Last, Locations(sent, fix))
  }

  method BuildRequest(trip: seq<Waypoint>, fix: int -> int) returns (p: TripParameters)
    requires |trip| >= 2
    ensures p == Request(trip, fix)
    ensures p.roundtrip <==> trip[0].building.id == trip[|trip| - 1].building.id
    ensures p.destination == if p.roundtrip then Any else Last
    ensures forall i :: 0 <= i < |p.coordinates| ==>
              && p.coordinates[i].lon == fix(trip[i].building.coords.longitude)
              && p.coordinates[i].lat == fix(trip[i].building.coords.latitude)
    ensures |p.coordinates| == if && trip[0].building.id == trip[|trip| - 1].building.id
                                  && fix(trip[0].building.coords.longitude) == fix(trip[|trip| - 1].building.coords.longitude)
                                  && fix(trip[0].building.coords.latitude) == fix(trip[|trip| - 1].building.coords.latitude)
                               then |trip| - 1 else |trip|
  {
    var destination := if Roundtrip(trip) then Any else Last;
    var coordinates: seq<Location> := [];
    for i := 0 to |trip|
      invariant coordinates == Locations(trip[..i], fix)
    {
      coordinates := coordinates + [Locate(trip[i], fix)];
    }
    assert trip[..|trip|] == trip;
    if && Roundtrip(trip)
       && coordinates[|coordinates| - 1].lat == coordinates[0].lat
       && coordinates[|coordinates| - 1].lon == coordinates[0].lon
    {
      coordinates := coordinates[..|coordinates| - 1];
      assert coordinates == Locations(trip[..|trip| - 1], fix);
    }
    p := TripParameters(Roundtrip(trip), destination, coordinates);
  }

  // ---------- the reply ----------

  /** static_cast<int> of a double: towards zero. */
  function Truncate(x: real): (n: int)
    ensures x >= 0.0 ==> n >= 0 && n as real <= x < n as real + 1.0
    ensures x <= 0.0 ==> n <= 0 && n as real - 1.0 < x <= n as real
  {
    if x >= 0.0 then x.Floor else -(-x).Floor
  }

  function TruncatedCosts(legs: seq<EngineLeg>): seq<TravelCost> {
    seq(|legs|, i requires 0 <= i < |legs| => TravelCost(Truncate(legs[i].distance), Truncate(legs[i].duration)))
  }

  method MapLegs(trips: seq<EngineTrip>) returns (r: Result<seq<RouteLeg>, TripError>)
    ensures r.Success? <==> |trips| == 1
    ensures r.Success? ==> |r.value| == |trips[0].legs| && Costs(r.value) == TruncatedCosts(trips[0].legs)
    ensures r.Success? ==> forall i :: 0 <= i < |r.value| ==>
              var leg := trips[0].legs[i];
              r.value[i] == RouteLeg(0, 0, TravelCost(Truncate(leg.distance), Truncate(leg.duration)))
    ensures r.Failure? ==> r.error == MultipartTrip
  {
    if |trips| != 1 {
      return Failure(MultipartTrip);
    }
    var legs := trips[0].legs;
    var output: seq<RouteLeg> := [];
    for i := 0 to |legs|
      invariant |output| == i
      invariant forall k :: 0 <= k < i ==>
        output[k] == RouteLeg(0, 0, TravelCost(Truncate(legs[k].distance), Truncate(legs[k].duration)))
    {
      output := output + [RouteLeg(0, 0, TravelCost(Truncate(legs[i].distance), Truncate(legs[i].duration)))];
    }
    return Success(output);
  }

  method MapWaypointsOrder(indices: seq<nat>) returns (order: seq<nat>)
    ensures order == indices
  {
    order := [];
    for i := 0 to |indices|
      invariant order == indices[..i]
    {
      order := order + [indices[i]];
    }
  }

  // ---------- optimising a trip ----------

  /** When a trip gets built: the engine found a single trip and, for a round
      trip, the ends are one place. */
  predicate Builds(trip: seq<Waypoint>, engine: RoutingEngine)
    requires |trip| > 0
  {
    var reply := engine.answer(Request(trip, engine.fix));
    Answered(reply) && |reply.trips| == 1 && (Roundtrip(trip) ==> EndsMeet(trip, engine.fix))
  }

  /** Why a trip was not built. */
  function EngineError(trip: seq<Waypoint>, engine: RoutingEngine): TripError
    requires |trip| > 0
  {
    var reply := engine.answer(Request(trip, engine.fix));
    if !Answered(reply) then EngineFailure(reply.message)
    else if |reply.trips| != 1 then MultipartTrip
    else IndexCountMismatch
  }

  /** The same, spelled out. */
  lemma BuildsIff(trip: seq<Waypoint>, engine: RoutingEngine)
    requires |trip| > 0
    ensures var reply, first, last := engine.answer(Request(trip, engine.fix)), trip[0].building, trip[|trip| - 1].building;
            Builds(trip, engine) <==>
              && reply.statusOk
              && |reply.code| == 2 && reply.code[0] in {'o', 'O'} && reply.code[1] in {'k', 'K'}
              && |reply.trips| == 1
              && (first.id == last.id ==>
                    && engine.fix(first.coords.latitude) == engine.fix(last.coords.latitude)
                    && engine.fix(first.coords.longitude) == engine.fix(last.coords.longitude))
  {
    OkIsOk(engine.answer(Request(trip, engine.fix)).code);
  }

  lemma OkIsOk(code: string)
    ensures IEquals(code, "ok") <==> |code| == 2 && code[0] in {'o', 'O'} && code[1] in {'k', 'K'}
  {
    IEqualsMeaning(code, "ok");
    assert |code| == 2 ==> (forall i :: 0 <= i < 2 ==> SameLetter(code[i], "ok"[i]))
                           == (SameLetter(code[0], 'o') && SameLetter(code[1], 'k'));
  }

  /** The leg connecting two waypoints, at the cost of the engine's. */
  function LegBetween(a: Waypoint, b: Waypoint, leg: EngineLeg): RouteLeg {
    RouteLeg(a.building.id, b.building.id, TravelCost(Truncate(leg.distance), Truncate(leg.duration)))
  }

  method OptimizeTrip(trip: seq<Waypoint>, engine: RoutingEngine) returns (r: Result<OptimizedTrip, TripError>)
    requires |trip| >= 2 && Honest(engine)
    ensures r.Success? <==> Builds(trip, engine)
    ensures var reply := engine.answer(Request(trip, engine.fix));
            r.Failure? ==> r.error == if !Answered(reply) then EngineFailure(reply.message)
                                      else if |reply.trips| != 1 then MultipartTrip
                                      else IndexCountMismatch
    ensures var reply := engine.answer(Request(trip, engine.fix));
            r.Success? ==>
              && KeepsEnds(reply.waypointIndex, !Roundtrip(trip))
              && |reply.waypointIndex| == OrderedCount(trip)
              && r.value.Valid() && fresh(r.value) && fresh(r.value.waypoints) && fresh(r.value.legs)
              && r.value.waypoints[..] == Scatter(trip, reply.waypointIndex)
              && multiset(r.value.waypoints[..]) == multiset(trip)
              && r.value.legs.Length == |reply.trips[0].legs|
              && (forall i :: 0 <= i < |reply.trips[0].legs| ==>
                    r.value.legs[i] == LegBetween(r.value.waypoints[i], r.value.waypoints[i + 1], reply.trips[0].legs[i]))
              && r.value.geometry == reply.trips[0].geometry
              && (Roundtrip(r.value.waypoints[..]) <==> Roundtrip(trip))
  {
    var params := BuildRequest(trip, engine.fix);
    var reply := engine.answer(params);
    assert KeepsPromises(params, reply);
    if !Answered(reply) {
      return Failure(EngineFailure(reply.message));
    }
    var order := MapWaypointsOrder(reply.waypointIndex);
    var legs := MapLegs(reply.trips);
    if legs.Failure? {
      return Failure(MultipartTrip);
    }
    r := OptimizedTrip.Create(trip, order, legs.value, reply.trips[0].geometry);
    if r.Success? {
      ScatterKeepsEnds(trip, order);
    }
  }

  /** One engine per region. */
  method OptimizeInRegion(instances: map<string, RoutingEngine>, trip: seq<Waypoint>, region: string)
    returns (r: Result<OptimizedTrip, TripError>)
    requires |trip| >= 2 && forall name :: name in instances ==> Honest(instances[name])
    ensures r.Success? <==> region in instances && Builds(trip, instances[region])
    ensures r.Failure? ==> r.error == if region in instances then EngineError(trip, instances[region]) else InvalidRegion
    ensures r.Success? ==>
              var engine := instances[region];
              var reply := engine.answer(Request(trip, engine.fix));
              && KeepsEnds(reply.waypointIndex, !Roundtrip(trip))
              && |reply.waypointIndex| == OrderedCount(trip)
              && r.value.Valid() && fresh(r.value) && fresh(r.value.waypoints) && fresh(r.value.legs)
              && r.value.waypoints[..] == Scatter(trip, reply.waypointIndex)
              && multiset(r.value.waypoints[..]) == multiset(trip)
              && r.value.legs.Length == |reply.trips[0].legs|
              && (forall i :: 0 <= i < |reply.trips[0].legs| ==>
                    r.value.legs[i] == LegBetween(r.value.waypoints[i], r.value.waypoints[i + 1], reply.trips[0].legs[i]))
              && r.value.geometry == reply.trips[0].geometry
              && (Roundtrip(r.value.waypoints[..]) <==> Roundtrip(trip))
  {
    if region !in instances {
      return Failure(InvalidRegion);
    }
    r := OptimizeTrip(trip, instances[region]);
  }

  // ---------- what the background worker gets ----------

  datatype Outcome = Throws | Refused | Accepted

  /** What becomes of a trip request of the queue, without running the loops. */
  function RouteOutcome(instances: map<string, RoutingEngine>, trip: seq<Waypoint>, region: string): Outcome
    requires |trip| > 0
  {
    if region !in instances || !Builds(trip, instances[region]) then Throws
    else if && |trip| >= 3 && !Roundtrip(trip)
            && instances[region].answer(Request(trip, instances[region].fix)).trips[0].geometry != ""
    then Accepted
    else Refused
  }

  /** Optimise, then wrap in a response: the two steps of the worker that run
      this code rather than a remote service. */
  method Route(instances: map<string, RoutingEngine>, trip: seq<Waypoint>, region: string)
    returns (outcome: Outcome)
    requires |trip| >= 2 && forall name :: name in instances ==> Honest(instances[name])
    ensures outcome == RouteOutcome(instances, trip, region)
    ensures outcome.Throws? <==> region !in instances || !Builds(trip, instances[region])
    ensures outcome.Accepted? <==>
              && region in instances && Builds(trip, instances[region])
              && |trip| >= 3 && trip[0].building.id != trip[|trip| - 1].building.id
              && instances[region].answer(Request(trip, instances[region].fix)).trips[0].geometry != ""
  {
    var optimized := OptimizeInRegion(instances, trip, region);
    if optimized.Failure? {
      return Throws;
    }
    var response := CheckResponse(optimized.value);
    return if response.Failure? then Refused else Accepted;
  }
}
