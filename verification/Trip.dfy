/** Trips, before and after optimisation. An unoptimised trip never changes once
    built, so it is the sequence of its waypoints (two or more: the starting
    point, the intermediate ones and the final point). */
module Trip {
  import opened Coords
  import opened Wrappers
  import opened Permutations
  import opened Reordering

  datatype Building = Building(
    id: int,
    coords: Coordinates,
    country: string,
    city: string,
    zipcode: string,
    street: string,
    number: string)

  datatype Waypoint = Waypoint(
    building: Building,
    phone: Option<string>,
    inputMethod: Option<string>,
    notes: Option<string>)

  datatype TravelCost = TravelCost(distance: int, duration: int)

  datatype RouteLeg = RouteLeg(fromBuilding: int, toBuilding: int, cost: TravelCost)

  datatype TripError =
    | IndexCountMismatch
    | LegCountMismatch
    | MultipartTrip
    | EngineFailure(message: string)
    | InvalidRegion
    | ProductionAssertion

  function Merge(starting: Waypoint, final: Waypoint, between: seq<Waypoint>): (trip: seq<Waypoint>)
    ensures |trip| == |between| + 2
  {
    [starting] + between + [final]
  }

  predicate Roundtrip(trip: seq<Waypoint>)
    requires |trip| > 0
  {
    trip[0].building.id == trip[|trip| - 1].building.id
  }

  function Ids(trip: seq<Waypoint>): seq<int> {
    seq(|trip|, i requires 0 <= i < |trip| => trip[i].building.id)
  }

  function Costs(legs: seq<RouteLeg>): seq<TravelCost> {
    seq(|legs|, i requires 0 <= i < |legs| => legs[i].cost)
  }

  /** How many of the waypoints the order has to cover: a round trip leaves out
      its closing waypoint. */
  function OrderedCount(trip: seq<Waypoint>): nat
    requires |trip| > 0
  {
    if Roundtrip(trip) then |trip| - 1 else |trip|
  }

  // ---------- legs ----------

  ghost predicate LegsConnect(trip: seq<Waypoint>, legs: seq<RouteLeg>) {
    && |legs| == |trip| - 1
    && forall i :: 0 <= i < |legs| ==>
         legs[i].fromBuilding == trip[i].building.id && legs[i].toBuilding == trip[i + 1].building.id
  }

  /** The buildings a vehicle driving the legs stops at. */
  function Stops(legs: seq<RouteLeg>): seq<int>
    requires |legs| > 0
  {
    seq(|legs|, i requires 0 <= i < |legs| => legs[i].fromBuilding) + [legs[|legs| - 1].toBuilding]
  }

  ghost predicate IsChain(legs: seq<RouteLeg>) {
    forall i :: 0 <= i < |legs| - 1 ==> legs[i].toBuilding == legs[i + 1].fromBuilding
  }

  /** Connecting the waypoints leg by leg is the same as driving through all of
      them, once each and in order, without a gap. */
  lemma LegChain(trip: seq<Waypoint>, legs: seq<RouteLeg>)
    requires |trip| >= 2 && |legs| > 0
    ensures LegsConnect(trip, legs) <==> IsChain(legs) && Stops(legs) == Ids(trip)
    ensures LegsConnect(trip, legs) && Roundtrip(trip)
            ==> legs[|legs| - 1].toBuilding == legs[0].fromBuilding == trip[0].building.id
  {
    if IsChain(legs) && Stops(legs) == Ids(trip) {
      forall i | 0 <= i < |legs|
        ensures legs[i].fromBuilding == trip[i].building.id && legs[i].toBuilding == trip[i + 1].building.id
      {
        assert |Stops(legs)| == |Ids(trip)|;
        assert Stops(legs)[i] == Ids(trip)[i];
        assert Stops(legs)[i + 1] == Ids(trip)[i + 1];
      }
    }
  }

  // ---------- the two ends stay in place ----------

  /** What the engine promises about the order of m coordinates: the first stays
      first and, on a one-way trip, the last stays last. */
  ghost predicate KeepsEnds(order: seq<nat>, oneWay: bool) {
    && IsPermutation(order) && |order| > 0 && order[0] == 0
    && (oneWay ==> order[|order| - 1] == |order| - 1)
  }

  /** In every state of the reordering loop, both ends are the original ones, so
      every evaluation of `roundtrip` answers alike. */
  lemma EndsNeverMove(trip: seq<Waypoint>, order: seq<nat>, steps: nat)
    requires |trip| >= 2 && |order| == OrderedCount(trip) && KeepsEnds(order, !Roundtrip(trip))
    ensures var now := Run(Loop(trip, order, 0), steps).items;
            now[0] == trip[0] && now[|now| - 1] == trip[|trip| - 1] && (Roundtrip(now) <==> Roundtrip(trip))
  {
    FixedSlotsNeverMove(trip, order, steps, 0);
    FixedSlotsNeverMove(trip, order, steps, |trip| - 1);
  }

  lemma ScatterKeepsEnds(trip: seq<Waypoint>, order: seq<nat>)
    requires |trip| >= 2 && |order| == OrderedCount(trip) && KeepsEnds(order, !Roundtrip(trip))
    ensures Scatter(trip, order)[0] == trip[0]
    ensures Scatter(trip, order)[|trip| - 1] == trip[|trip| - 1]
    ensures Roundtrip(Scatter(trip, order)) <==> Roundtrip(trip)
  {
    ScatterUpToMeaning(trip, order, |order|);
    assert Scatter(trip, order)[order[0]] == trip[0];
    assert !Roundtrip(trip) ==> Scatter(trip, order)[order[|order| - 1]] == trip[|order| - 1];
  }

  /** The journey of an optimised trip: it stops at every waypoint of the
      original, once each, in the order the engine chose, and a round trip
      comes back to its starting point. */
  lemma Journey(trip: seq<Waypoint>, order: seq<nat>, legs: seq<RouteLeg>)
    requires |trip| >= 2 && |order| == OrderedCount(trip) && KeepsEnds(order, !Roundtrip(trip))
    requires LegsConnect(Scatter(trip, order), legs)
    ensures IsChain(legs)
    ensures Stops(legs) == Scatter(Ids(trip), order)
    ensures multiset(Stops(legs)) == multiset(Ids(trip))
    ensures legs[0].fromBuilding == trip[0].building.id
    ensures legs[|legs| - 1].toBuilding == trip[|trip| - 1].building.id
  {
    var ordered := Scatter(trip, order);
    LegChain(ordered, legs);
    ScatterKeepsEnds(trip, order);
    ScatterUpToMeaning(trip, order, |order|);
    ScatterIsTheOnlyOne(Ids(trip), order, Ids(ordered));
    ScatterKeepsItems(Ids(trip), order);
  }

  // ---------- the optimised trip ----------

  class OptimizedTrip {
    const waypoints: array<Waypoint>
    const legs: array<RouteLeg>
    const geometry: string

    ghost predicate Valid()
      reads waypoints, legs
    {
      waypoints.Length >= 2 && LegsConnect(waypoints[..], legs[..])
    }

    /** Reorders the waypoints by `order` and stitches the legs onto them. The
        counts are those `Create` checks; an order that is not a permutation
        would keep the reordering loop from ending. */
    constructor (original: seq<Waypoint>, order: seq<nat>, legs: seq<RouteLeg>, geometry: string)
      requires |original| >= 2
      requires |order| == OrderedCount(original) && |legs| == |original| - 1
      requires IsPermutation(order)
      ensures Valid() && fresh(waypoints) && fresh(this.legs)
      ensures waypoints[..] == Scatter(original, order)
      ensures multiset(waypoints[..]) == multiset(original)
      ensures this.legs.Length == |legs| && forall i :: 0 <= i < |legs| ==>
                this.legs[i] == RouteLeg(waypoints[i].building.id, waypoints[i + 1].building.id, legs[i].cost)
      ensures this.geometry == geometry
    {
      this.waypoints := new Waypoint[|original|](i requires 0 <= i < |original| => original[i]);
      this.legs := new RouteLeg[|legs|](i requires 0 <= i < |legs| => legs[i]);
      this.geometry := geometry;
      new;
      var indices := new nat[|order|](i requires 0 <= i < |order| => order[i]);
      assert waypoints[..] == original && indices[..] == order;
      ghost var swaps := Reorder(waypoints, indices);
      ConnectLegs();
    }

    method ConnectLegs()
      requires waypoints.Length >= 2 && legs.Length == waypoints.Length - 1
      requires waypoints as object != legs
      modifies legs
      ensures LegsConnect(waypoints[..], legs[..])
      ensures forall i :: 0 <= i < legs.Length ==>
                legs[i] == RouteLeg(waypoints[i].building.id, waypoints[i + 1].building.id, old(legs[i].cost))
    {
      for i := 0 to legs.Length
        invariant forall k :: 0 <= k < i ==>
          legs[k].fromBuilding == waypoints[k].building.id && legs[k].toBuilding == waypoints[k + 1].building.id
        invariant forall k :: 0 <= k < legs.Length ==> legs[k].cost == old(legs[k].cost)
      {
        var toIx := i + 1;
        if Roundtrip(waypoints[..]) && i == waypoints.Length - 1 {
          toIx := 0;
        }
        legs[i] := legs[i].(fromBuilding := waypoints[i].building.id, toBuilding := waypoints[toIx].building.id);
      }
    }

    /** The constructor together with the checks that throw. */
    static method Create(original: seq<Waypoint>, order: seq<nat>, legs: seq<RouteLeg>, geometry: string)
      returns (r: Result<OptimizedTrip, TripError>)
      requires |original| >= 2
      requires |order| == OrderedCount(original) && |legs| == |original| - 1 ==> IsPermutation(order)
      ensures r.Success? <==>
                && |order| == (if original[0].building.id == original[|original| - 1].building.id then |original| - 1 else |original|)
                && |legs| == |original| - 1
      ensures r.Failure? ==>
                r.error == if |order| != OrderedCount(original) then IndexCountMismatch else LegCountMismatch
      ensures r.Success? ==> var t := r.value;
                && t.Valid() && fresh(t) && fresh(t.waypoints) && fresh(t.legs)
                && t.waypoints[..] == Scatter(original, order)
                && multiset(t.waypoints[..]) == multiset(original)
                && t.legs.Length == |legs|
                && (forall i :: 0 <= i < |legs| ==>
                      t.legs[i] == RouteLeg(t.waypoints[i].building.id, t.waypoints[i + 1].building.id, legs[i].cost))
                && t.geometry == geometry
    {
      var expected := if Roundtrip(original) then |order| + 1 else |order|;
      if expected != |original| {
        return Failure(IndexCountMismatch);
      }
      if |legs| != |original| - 1 {
        return Failure(LegCountMismatch);
      }
      var t := new OptimizedTrip(original, order, legs, geometry);
      return Success(t);
    }
  }

  // ---------- the response wrapped around it ----------

  /** The production assertions of a trip response. They ask a round trip for as
      many legs as waypoints, which no optimised trip has: of the trips with
      three waypoints and a geometry, exactly the one-way ones get through. */
  method CheckResponse(t: OptimizedTrip) returns (r: Result<OptimizedTrip, TripError>)
    requires t.Valid()
    ensures r.Success? <==>
              && t.waypoints.Length >= 3 && t.geometry != ""
              && t.waypoints[0].building.id != t.waypoints[t.waypoints.Length - 1].building.id
    ensures r == if r.Success? then Success(t) else Failure(ProductionAssertion)
  {
    var size := t.waypoints.Length;
    var expectedLegCount := if Roundtrip(t.waypoints[..]) then size else size - 1;
    if size < 3 || t.legs.Length != expectedLegCount || t.geometry == "" {
      return Failure(ProductionAssertion);
    }
    return Success(t);
  }
}
