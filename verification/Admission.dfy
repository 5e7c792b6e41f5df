/** The trip calls: what a request has to be before its trip reaches a routing
    engine or the queue, and what comes back. */
module Admission {
  import opened Answers
  import opened Coords
  import opened Engine
  import opened Geometry
  import opened Json
  import opened RegionIndex
  import opened Trip
  import opened TripJson
  import opened Wrappers

  datatype ServiceError =
    | BadLocation(problem: JsonError)
    | BadTripRequest
    | TripTooLarge
    | WaypointNotWithinRegion
    | RoutingFailed(cause: TripError)

  /** What the server adds to a request: an id, the caller's account, the time and
      the region's name. */
  datatype Stamp = Stamp(id: string, uid: string, now: string, region: string)

  datatype Request = Request(trip: seq<Waypoint>, region: string)

  function AddMeta(params: Tree, stamp: Stamp): Tree {
    var withId := Add(params, ["meta", "id"], Leaf(stamp.id));
    var withUid := Add(withId, ["meta", "accountid"], Leaf(stamp.uid));
    var withTime := Add(withUid, ["meta", "createdat"], Leaf(stamp.now));
    Add(withTime, ["meta", "region"], Leaf(stamp.region))
  }

  /** A metadata field as the request will be read: one that was sent along wins
      over the one the server adds. */
  function Field(params: Tree, key: string, added: string): string {
    var sent := GetText(params, ["meta", key]);
    if sent.Some? then sent.value else added
  }

  lemma AddedRegion(params: Tree, stamp: Stamp)
    ensures GetText(AddMeta(params, stamp), ["meta", "region"]) == Some(Field(params, "region", stamp.region))
  {
    var withId := Add(params, ["meta", "id"], Leaf(stamp.id));
    var withUid := Add(withId, ["meta", "accountid"], Leaf(stamp.uid));
    var withTime := Add(withUid, ["meta", "createdat"], Leaf(stamp.now));
    AddKeepsSiblings(params, "meta", "id", stamp.id, "region");
    AddKeepsSiblings(withId, "meta", "accountid", stamp.uid, "region");
    AddKeepsSiblings(withUid, "meta", "createdat", stamp.now, "region");
    AddedIsFoundLast(withTime, "meta", "region", stamp.region);
  }

  lemma AddedAccount(params: Tree, stamp: Stamp)
    ensures GetText(AddMeta(params, stamp), ["meta", "accountid"]) == Some(Field(params, "accountid", stamp.uid))
  {
    var withId := Add(params, ["meta", "id"], Leaf(stamp.id));
    var withUid := Add(withId, ["meta", "accountid"], Leaf(stamp.uid));
    var withTime := Add(withUid, ["meta", "createdat"], Leaf(stamp.now));
    AddKeepsSiblings(params, "meta", "id", stamp.id, "accountid");
    AddedIsFoundLast(withId, "meta", "accountid", stamp.uid);
    AddKeepsSiblings(withUid, "meta", "createdat", stamp.now, "accountid");
    AddKeepsSiblings(withTime, "meta", "region", stamp.region, "accountid");
  }

  lemma AddedTime(params: Tree, stamp: Stamp)
    ensures GetText(AddMeta(params, stamp), ["meta", "createdat"]) == Some(Field(params, "createdat", stamp.now))
  {
    var withId := Add(params, ["meta", "id"], Leaf(stamp.id));
    var withUid := Add(withId, ["meta", "accountid"], Leaf(stamp.uid));
    var withTime := Add(withUid, ["meta", "createdat"], Leaf(stamp.now));
    AddKeepsSiblings(params, "meta", "id", stamp.id, "createdat");
    AddKeepsSiblings(withId, "meta", "accountid", stamp.uid, "createdat");
    AddedIsFoundLast(withUid, "meta", "createdat", stamp.now);
    AddKeepsSiblings(withTime, "meta", "region", stamp.region, "createdat");
  }

  lemma AddedId(params: Tree, stamp: Stamp)
    ensures GetText(AddMeta(params, stamp), ["meta", "id"]) == Some(Field(params, "id", stamp.id))
  {
    var withId := Add(params, ["meta", "id"], Leaf(stamp.id));
    var withUid := Add(withId, ["meta", "accountid"], Leaf(stamp.uid));
    var withTime := Add(withUid, ["meta", "createdat"], Leaf(stamp.now));
    AddedIsFoundLast(params, "meta", "id", stamp.id);
    AddKeepsSiblings(withId, "meta", "accountid", stamp.uid, "id");
    AddKeepsSiblings(withUid, "meta", "createdat", stamp.now, "id");
    AddKeepsSiblings(withTime, "meta", "region", stamp.region, "id");
  }

  /** Stamping a request leaves the trip in it alone. */
  lemma AddMetaKeepsRest(params: Tree, stamp: Stamp, path: seq<string>)
    requires path != [] && path[0] != "meta"
    ensures GetChild(AddMeta(params, stamp), path) == GetChild(params, path)
  {
    var withId := Add(params, ["meta", "id"], Leaf(stamp.id));
    var withUid := Add(withId, ["meta", "accountid"], Leaf(stamp.uid));
    var withTime := Add(withUid, ["meta", "createdat"], Leaf(stamp.now));
    AddKeepsOtherPaths(params, "meta", "id", Leaf(stamp.id), path);
    AddKeepsOtherPaths(withId, "meta", "accountid", Leaf(stamp.uid), path);
    AddKeepsOtherPaths(withUid, "meta", "createdat", Leaf(stamp.now), path);
    AddKeepsOtherPaths(withTime, "meta", "region", Leaf(stamp.region), path);
  }

  lemma StampedTripIsTheSame(params: Tree, stamp: Stamp, d: Degrees)
    ensures TripFromTree(AddMeta(params, stamp), Reader(d)) == TripFromTree(params, Reader(d))
  {
    AddMetaKeepsRest(params, stamp, ["starting_point"]);
    AddMetaKeepsRest(params, stamp, ["final_point"]);
    AddMetaKeepsRest(params, stamp, ["waypoints"]);
  }

  lemma StampedLocationIsTheSame(params: Tree, stamp: Stamp, d: Degrees)
    ensures ReadCoordinates(AddMeta(params, stamp), "location", d) == ReadCoordinates(params, "location", d)
  {
    AddMetaKeepsRest(params, stamp, ["location", "latitude"]);
    AddMetaKeepsRest(params, stamp, ["location", "longitude"]);
    SameLocation(AddMeta(params, stamp), params, d);
  }

  lemma SameLocation(a: Tree, b: Tree, d: Degrees)
    requires GetChild(a, ["location", "latitude"]) == GetChild(b, ["location", "latitude"])
    requires GetChild(a, ["location", "longitude"]) == GetChild(b, ["location", "longitude"])
    ensures ReadCoordinates(a, "location", d) == ReadCoordinates(b, "location", d)
  {
  }

  /** A location fails for lack of a text, or for a number that cannot be read. */
  lemma LocationErrors(t: Tree, d: Degrees)
    ensures var lat, lng := GetText(t, ["location", "latitude"]), GetText(t, ["location", "longitude"]);
            && (ReadCoordinates(t, "location", d) == Failure(BadPath) ==> lat.None? || lng.None?)
            && (ReadCoordinates(t, "location", d) == Failure(BadData) ==>
                  (lat.Some? && d.read(lat.value).None?) || (lng.Some? && d.read(lng.value).None?))
            && (ReadCoordinates(t, "location", d).Success? ==> lat.Some? && lng.Some?)
  {
  }

  /** A document that holds a trip request: every part can be read, the region and
      the account are named, and the trip has three waypoints and two real ends. */
  ghost predicate IsRequest(body: Tree, d: Degrees, isDate: string -> bool) {
    var trip := TripFromTree(body, Reader(d));
    && trip.Success? && |trip.value| >= 3
    && trip.value[0].building.id != 0 && trip.value[|trip.value| - 1].building.id != 0
    && GetText(body, ["meta", "region"]) !in {None, Some("")}
    && GetText(body, ["meta", "accountid"]) !in {None, Some("")}
    && GetText(body, ["meta", "createdat"]).Some? && isDate(GetText(body, ["meta", "createdat"]).value)
    && ReadCoordinates(body, "location", d).Success?
  }

  /** Which documents are requests, field by field. */
  lemma IsRequestIff(body: Tree, d: Degrees, isDate: string -> bool)
    ensures IsRequest(body, d, isDate) <==>
              && TripFromTree(body, Reader(d)).Success?
              && var trip := TripFromTree(body, Reader(d)).value;
              && |trip| >= 3 && trip[0].building.id != 0 && trip[|trip| - 1].building.id != 0
              && GetText(body, ["meta", "region"]).Some? && GetText(body, ["meta", "region"]).value != ""
              && GetText(body, ["meta", "accountid"]).Some? && GetText(body, ["meta", "accountid"]).value != ""
              && GetText(body, ["meta", "createdat"]).Some? && isDate(GetText(body, ["meta", "createdat"]).value)
              && GetText(body, ["location", "latitude"]).Some? && d.read(GetText(body, ["location", "latitude"]).value).Some?
              && GetText(body, ["location", "longitude"]).Some? && d.read(GetText(body, ["location", "longitude"]).value).Some?
  {
  }

  /** A request document made of its parts. */
  function RequestTree(trip: seq<Waypoint>, location: Coordinates, region: string, account: string, created: string,
                       d: Degrees): Tree
    requires |trip| >= 2
  {
    Object(TripTree(trip, Shower(d)).children + [
      ("meta", Object([("region", Leaf(region)), ("accountid", Leaf(account)), ("createdat", Leaf(created))])),
      ("location", Object([("latitude", Leaf(d.show(location.latitude))), ("longitude", Leaf(d.show(location.longitude)))]))])
  }

  lemma RequestIsHeld(trip: seq<Waypoint>, location: Coordinates, region: string, account: string, created: string, d: Degrees)
    requires |trip| >= 2
    ensures var t := RequestTree(trip, location, region, account, created, d);
            && GetText(t, ["meta", "region"]) == Some(region)
            && GetText(t, ["meta", "accountid"]) == Some(account)
            && GetText(t, ["meta", "createdat"]) == Some(created)
            && GetText(t, ["location", "latitude"]) == Some(d.show(location.latitude))
            && GetText(t, ["location", "longitude"]) == Some(d.show(location.longitude))
  {
    var t := RequestTree(trip, location, region, account, created, d);
    assert forall k :: 0 <= k < 3 ==> t.children[k] == TripTree(trip, Shower(d)).children[k];
    assert t.children[3].0 == "meta" && t.children[4].0 == "location";
    GrandchildAt(t, "meta", 3, "region", 0);
    GrandchildAt(t, "meta", 3, "accountid", 1);
    GrandchildAt(t, "meta", 3, "createdat", 2);
    GrandchildAt(t, "location", 4, "latitude", 0);
    GrandchildAt(t, "location", 4, "longitude", 1);
  }

  /** The location of such a document, its latitude and longitude in their places. */
  lemma LocationReadsBack(trip: seq<Waypoint>, location: Coordinates, region: string, account: string, created: string, d: Degrees)
    requires |trip| >= 2 && d.RoundsOnce()
    ensures ReadCoordinates(RequestTree(trip, location, region, account, created, d), "location", d)
            == Success(Coordinates(d.Rounded(location.latitude), d.Rounded(location.longitude)))
  {
    RequestIsHeld(trip, location, region, account, created, d);
    assert d.read(d.show(location.latitude)).Some? && d.read(d.show(location.longitude)).Some?;
  }

  /** A trip of three waypoints or more, with real ends, a region, an account and a
      time makes a request; nothing less does. */
  lemma RequestReadsBack(trip: seq<Waypoint>, location: Coordinates, region: string, account: string, created: string,
                         d: Degrees, isDate: string -> bool)
    requires |trip| >= 2 && d.RoundsOnce()
    ensures var body := RequestTree(trip, location, region, account, created, d);
            && TripFromTree(body, Reader(d)) == Success(Mapped(trip, Normal(d)))
            && (IsRequest(body, d, isDate) <==>
                  && |trip| >= 3 && trip[0].building.id != 0 && trip[|trip| - 1].building.id != 0
                  && region != "" && account != "" && isDate(created))
  {
    var body := RequestTree(trip, location, region, account, created, d);
    RequestIsHeld(trip, location, region, account, created, d);
    LocationReadsBack(trip, location, region, account, created, d);
    WaypointsReadBack(d);
    TripPartReadsBack(trip, body, Shower(d), Reader(d), Normal(d));
    HeldRequest(trip, region, account, created, body, d, isDate);
  }

  lemma HeldRequest(trip: seq<Waypoint>, region: string, account: string, created: string, body: Tree, d: Degrees,
                    isDate: string -> bool)
    requires |trip| >= 2 && TripFromTree(body, Reader(d)) == Success(Mapped(trip, Normal(d)))
    requires GetText(body, ["meta", "region"]) == Some(region) && GetText(body, ["meta", "accountid"]) == Some(account)
    requires GetText(body, ["meta", "createdat"]) == Some(created) && ReadCoordinates(body, "location", d).Success?
    ensures IsRequest(body, d, isDate) <==>
              && |trip| >= 3 && trip[0].building.id != 0 && trip[|trip| - 1].building.id != 0
              && region != "" && account != "" && isDate(created)
  {
    NormalKeepsId(trip[0], d);
    NormalKeepsId(trip[|trip| - 1], d);
  }

  lemma NormalKeepsId(w: Waypoint, d: Degrees)
    ensures Normal(d)(w).building.id == w.building.id
  {
  }

  /** The trip request's constructor. */
  method ReadRequest(body: Tree, d: Degrees, isDate: string -> bool) returns (r: Option<Request>)
    ensures r.Some? <==> IsRequest(body, d, isDate)
    ensures r.Some? ==> TripFromTree(body, Reader(d)) == Success(r.value.trip)
                        && GetText(body, ["meta", "region"]) == Some(r.value.region)
  {
    var trip := TripFromJson(body, d);
    var region, account := GetText(body, ["meta", "region"]), GetText(body, ["meta", "accountid"]);
    var created := GetText(body, ["meta", "createdat"]);
    if trip.Failure? || region.None? || account.None? || created.None? || !isDate(created.value) {
      return None;
    }
    var location := ReadCoordinates(body, "location", d);
    if location.Failure? {
      return None;
    }
    if region.value == "" || account.value == "" || |trip.value| < 3
       || trip.value[|trip.value| - 1].building.id == 0 || trip.value[0].building.id == 0
    {
      return None;
    }
    return Some(Request(trip.value, region.value));
  }

  function ReadCoordinates(t: Tree, key: string, d: Degrees): Result<Coordinates, JsonError> {
    var lat, lng := ReadDegree(t, [key, "latitude"], d), ReadDegree(t, [key, "longitude"], d);
    if lat.Failure? then Failure(lat.error)
    else if lng.Failure? then Failure(lng.error)
    else Success(Coordinates(lat.value, lng.value))
  }

  /** A trip fit to be routed in region g. */
  ghost predicate Admitted(trip: seq<Waypoint>, g: Region, regions: seq<Region>, maxWaypoints: nat) {
    && 3 <= |trip| <= maxWaypoints
    && trip[0].building.id != 0 && trip[|trip| - 1].building.id != 0
    && g in regions
    && forall i :: 0 <= i < |trip| ==> g.Contains(trip[i].building.coords)
  }

  lemma AdmittedTells(trip: seq<Waypoint>, g: Region, regions: seq<Region>, maxWaypoints: nat)
    ensures Admitted(trip, g, regions, maxWaypoints) <==>
              && |trip| >= 3 && |trip| <= maxWaypoints && trip[0].building.id != 0 && trip[|trip| - 1].building.id != 0
              && g in regions && forall i :: 0 <= i < |trip| ==> Within(trip[i].building.coords, g.bounds)
  {
  }

  /** What a call that reached an engine is like: the trip was admitted in the
      region g of the request's location, the engine is that of g or of the region
      the request itself names, and what it built, or why it did not, is the answer. */
  ghost predicate ReachedEngine(params: Tree, g: Region, regions: seq<Region>, maxWaypoints: nat,
                                instances: map<string, RoutingEngine>, d: Degrees, r: Result<Tree, ServiceError>)
  {
    var location := ReadCoordinates(params, "location", d);
    var trip := TripFromTree(params, Reader(d));
    var region := Field(params, "region", g.name);
    && location.Success? && g.Contains(location.value)
    && trip.Success? && Admitted(trip.value, g, regions, maxWaypoints)
    && (r.Success? <==> region in instances && Builds(trip.value, instances[region]))
    && (r.Success? ==> exists ordered, legs :: IsAnswer(trip.value, instances[region], d, ordered, legs, r.value))
    && (r.Failure? ==> r.error == RoutingFailed(
          if region in instances then EngineError(trip.value, instances[region]) else InvalidRegion))
  }

  /** Why a call located in region g was turned away before any engine. */
  ghost predicate Rejected(stamped: Tree, g: Region, regions: seq<Region>, maxWaypoints: nat, d: Degrees,
                           isDate: string -> bool, error: ServiceError)
  {
    var trip := TripFromTree(stamped, Reader(d));
    match error
    case BadLocation(problem) => false
    case BadTripRequest => !IsRequest(stamped, d, isDate)
    case TripTooLarge => IsRequest(stamped, d, isDate) && |trip.value| > maxWaypoints
    case WaypointNotWithinRegion =>
      IsRequest(stamped, d, isDate) && |trip.value| <= maxWaypoints && Strays(trip.value, g, regions)
    case RoutingFailed(cause) => false
  }

  /** The call itself. The source takes for granted that the request's location
      lies in some region. */
  method InvokeSync(params: Tree, id: string, uid: string, now: string, index: Index, maxWaypoints: nat,
                    instances: map<string, RoutingEngine>, d: Degrees, isDate: string -> bool)
    returns (r: Result<Tree, ServiceError>, ghost g: Region)
    requires index.Valid() && forall name :: name in instances ==> Honest(instances[name])
    requires var location := ReadCoordinates(params, "location", d);
             location.Success? ==> exists region :: region in index.Regions() && region.Contains(location.value)
    ensures var location := ReadCoordinates(params, "location", d);
            location.Failure? ==> r == Failure(BadLocation(location.error))
    ensures var location := ReadCoordinates(params, "location", d);
            location.Success? ==>
              && g in index.Regions() && g.Contains(location.value)
              && if r.Success? || r.error.RoutingFailed?
                 then ReachedEngine(params, g, index.Regions(), maxWaypoints, instances, d, r)
                 else Rejected(AddMeta(params, Stamp(id, uid, now, g.name)), g, index.Regions(), maxWaypoints, d, isDate, r.error)
  {
    g := Region("", []);
    var location := ReadCoordinates(params, "location", d);
    if location.Failure? {
      return Failure(BadLocation(location.error)), g;
    }
    var tripRegion := index.Locate(location.value);
    g := tripRegion.value;
    var stamp := Stamp(id, uid, now, tripRegion.value.name);
    StampedTripIsTheSame(params, stamp, d);
    AddedRegion(params, stamp);
    r := InvokeIn(AddMeta(params, stamp), params, tripRegion.value, index, maxWaypoints, instances, d, isDate);
  }

  /** The call once the request is located in region g and stamped: it reaches an
      engine, or is turned away for a reason. */
  method InvokeIn(stamped: Tree, ghost params: Tree, g: Region, index: Index, maxWaypoints: nat,
                  instances: map<string, RoutingEngine>, d: Degrees, isDate: string -> bool)
    returns (r: Result<Tree, ServiceError>)
    requires index.Valid() && forall name :: name in instances ==> Honest(instances[name])
    requires var location := ReadCoordinates(params, "location", d);
             location.Success? && g in index.Regions() && g.Contains(location.value)
    requires TripFromTree(stamped, Reader(d)) == TripFromTree(params, Reader(d))
    requires GetText(stamped, ["meta", "region"]) == Some(Field(params, "region", g.name))
    ensures if r.Success? || r.error.RoutingFailed?
            then ReachedEngine(params, g, index.Regions(), maxWaypoints, instances, d, r)
            else Rejected(stamped, g, index.Regions(), maxWaypoints, d, isDate, r.error)
  {
    var request := Admit(stamped, g, index, maxWaypoints, d, isDate);
    if request.Failure? {
      return Failure(request.error);
    }
    r := AskEngine(params, request.value, g, index.Regions(), maxWaypoints, instances, d);
  }

  /** The checks on a stamped request located in region g. */
  method Admit(stamped: Tree, g: Region, index: Index, maxWaypoints: nat, d: Degrees, isDate: string -> bool)
    returns (r: Result<Request, ServiceError>)
    requires index.Valid() && g in index.Regions()
    ensures r.Success? ==>
              && IsRequest(stamped, d, isDate) && TripFromTree(stamped, Reader(d)) == Success(r.value.trip)
              && GetText(stamped, ["meta", "region"]) == Some(r.value.region)
              && Admitted(r.value.trip, g, index.Regions(), maxWaypoints)
    ensures r.Failure? ==> Rejected(stamped, g, index.Regions(), maxWaypoints, d, isDate, r.error)
    ensures r.Failure? ==> !r.error.RoutingFailed? && !r.error.BadLocation?
  {
    var request := ReadRequest(stamped, d, isDate);
    if request.None? {
      return Failure(BadTripRequest);
    }
    if |request.value.trip| > maxWaypoints {
      return Failure(TripTooLarge);
    }
    var inside := AllWithin(request.value.trip, g, index);
    return if inside then Success(request.value) else Failure(WaypointNotWithinRegion);
  }

  /** The call once the trip is admitted. */
  method AskEngine(ghost params: Tree, request: Request, ghost g: Region, ghost regions: seq<Region>, ghost maxWaypoints: nat,
                   instances: map<string, RoutingEngine>, d: Degrees)
    returns (r: Result<Tree, ServiceError>)
    requires forall name :: name in instances ==> Honest(instances[name])
    requires var location := ReadCoordinates(params, "location", d);
             location.Success? && g.Contains(location.value)
    requires TripFromTree(params, Reader(d)) == Success(request.trip)
    requires Admitted(request.trip, g, regions, maxWaypoints)
    requires request.region == Field(params, "region", g.name)
    ensures r.Success? || r.error.RoutingFailed?
    ensures ReachedEngine(params, g, regions, maxWaypoints, instances, d, r)
  {
    var optimized := OptimizeInRegion(instances, request.trip, request.region);
    if optimized.Failure? {
      return Failure(RoutingFailed(optimized.error));
    }
    var t := optimized.value;
    var output := OptimizedToJson(t, d);
    assert IsAnswer(request.trip, instances[request.region], d, t.waypoints[..], t.legs[..], output);
    return Success(output);
  }

  /** The loop that rejects waypoints of other regions. Regions are compared by
      name, which tells them apart because the index keeps names distinct. */
  method AllWithin(trip: seq<Waypoint>, region: Region, index: Index) returns (inside: bool)
    requires index.Valid() && region in index.Regions()
    ensures inside ==> forall i :: 0 <= i < |trip| ==> region.Contains(trip[i].building.coords)
    ensures !inside ==> Strays(trip, region, index.Regions())
  {
    for i := 0 to |trip|
      invariant FirstInside(trip, region, i)
    {
      var found := index.Locate(trip[i].building.coords);
      if found.None? || found.value.name != region.name {
        assert IsElsewhere(trip[i].building.coords, region, found, index.Regions());
        return false;
      }
      NameDenotesOneRegion(index.Regions(), found.value, region);
    }
    forall i | 0 <= i < |trip| ensures region.Contains(trip[i].building.coords) {
      FirstInsideMeaning(trip, region, |trip|, i);
    }
    return true;
  }

  /** The first k waypoints lie in the region. */
  ghost predicate FirstInside(trip: seq<Waypoint>, region: Region, k: nat)
    requires k <= |trip|
  {
    k == 0 || (FirstInside(trip, region, k - 1) && region.Contains(trip[k - 1].building.coords))
  }

  lemma {:induction false} FirstInsideMeaning(trip: seq<Waypoint>, region: Region, k: nat, i: nat)
    requires i < k <= |trip| && FirstInside(trip, region, k)
    ensures region.Contains(trip[i].building.coords)
  {
    if i < k - 1 { FirstInsideMeaning(trip, region, k - 1, i); }
  }

  /** Some waypoint is elsewhere. */
  ghost predicate Strays(trip: seq<Waypoint>, region: Region, regions: seq<Region>) {
    exists i, other :: 0 <= i < |trip| && IsElsewhere(trip[i].building.coords, region, other, regions)
  }

  /** The point is in no region, or in some region other than the given one. */
  ghost predicate IsElsewhere(p: Coordinates, region: Region, found: Option<Region>, regions: seq<Region>) {
    match found
    case None => forall g :: g in regions ==> !g.Contains(p)
    case Some(other) => other in regions && other != region && other.Contains(p)
  }

  /** The engine asked is that of the region the request was located in exactly when
      the request did not bring a different region's name along. */
  lemma EngineIsOfTheLocatedRegion(params: Tree, stamp: Stamp)
    ensures GetText(AddMeta(params, stamp), ["meta", "region"]) == Some(stamp.region)
            <==> GetText(params, ["meta", "region"]) in {None, Some(stamp.region)}
  {
    AddedRegion(params, stamp);
  }

  // ---------- the asynchronous call ----------

  /** What the asynchronous call adds to a request before queueing it. Its time
      goes under a key of its own, which the request's constructor does not read. */
  function AddAsyncMeta(params: Tree, uid: string, now: string, region: string): Tree {
    var withUid := Add(params, ["meta", "accountid"], Leaf(uid));
    var withTime := Add(withUid, ["meta", "create_at"], Leaf(now));
    Add(withTime, ["meta", "region"], Leaf(region))
  }

  /** The metadata of a queued request, field by field. */
  lemma AsyncFields(params: Tree, uid: string, now: string, region: string)
    ensures var queued := AddAsyncMeta(params, uid, now, region);
            && GetText(queued, ["meta", "accountid"]) == Some(Field(params, "accountid", uid))
            && GetText(queued, ["meta", "region"]) == Some(Field(params, "region", region))
            && GetText(queued, ["meta", "create_at"]) == Some(Field(params, "create_at", now))
            && GetText(queued, ["meta", "createdat"]) == GetText(params, ["meta", "createdat"])
            && GetText(queued, ["meta", "id"]) == GetText(params, ["meta", "id"])
            && GetText(queued, ["meta", "receipthandle"]) == GetText(params, ["meta", "receipthandle"])
  {
    AsyncAccount(params, uid, now, region);
    AsyncRegion(params, uid, now, region);
    AsyncTime(params, uid, now, region);
    AsyncKeeps(params, uid, now, region, "createdat");
    AsyncKeeps(params, uid, now, region, "id");
    AsyncKeeps(params, uid, now, region, "receipthandle");
  }

  lemma AsyncKeeps(params: Tree, uid: string, now: string, region: string, key: string)
    requires key !in {"accountid", "create_at", "region"}
    ensures GetText(AddAsyncMeta(params, uid, now, region), ["meta", key]) == GetText(params, ["meta", key])
  {
    var withUid := Add(params, ["meta", "accountid"], Leaf(uid));
    var withTime := Add(withUid, ["meta", "create_at"], Leaf(now));
    AddKeepsSiblings(params, "meta", "accountid", uid, key);
    AddKeepsSiblings(withUid, "meta", "create_at", now, key);
    AddKeepsSiblings(withTime, "meta", "region", region, key);
  }

  lemma AsyncAccount(params: Tree, uid: string, now: string, region: string)
    ensures GetText(AddAsyncMeta(params, uid, now, region), ["meta", "accountid"]) == Some(Field(params, "accountid", uid))
  {
    var withUid := Add(params, ["meta", "accountid"], Leaf(uid));
    var withTime := Add(withUid, ["meta", "create_at"], Leaf(now));
    AddedIsFoundLast(params, "meta", "accountid", uid);
    AddKeepsSiblings(withUid, "meta", "create_at", now, "accountid");
    AddKeepsSiblings(withTime, "meta", "region", region, "accountid");
  }

  lemma AsyncTime(params: Tree, uid: string, now: string, region: string)
    ensures GetText(AddAsyncMeta(params, uid, now, region), ["meta", "create_at"]) == Some(Field(params, "create_at", now))
  {
    var withUid := Add(params, ["meta", "accountid"], Leaf(uid));
    var withTime := Add(withUid, ["meta", "create_at"], Leaf(now));
    AddKeepsSiblings(params, "meta", "accountid", uid, "create_at");
    AddedIsFoundLast(withUid, "meta", "create_at", now);
    AddKeepsSiblings(withTime, "meta", "region", region, "create_at");
  }

  lemma AsyncRegion(params: Tree, uid: string, now: string, region: string)
    ensures GetText(AddAsyncMeta(params, uid, now, region), ["meta", "region"]) == Some(Field(params, "region", region))
  {
    var withUid := Add(params, ["meta", "accountid"], Leaf(uid));
    var withTime := Add(withUid, ["meta", "create_at"], Leaf(now));
    AddKeepsSiblings(params, "meta", "accountid", uid, "region");
    AddKeepsSiblings(withUid, "meta", "create_at", now, "region");
    AddedIsFoundLast(withTime, "meta", "region", region);
  }

  lemma AsyncKeepsRest(params: Tree, uid: string, now: string, region: string, path: seq<string>)
    requires path != [] && path[0] != "meta"
    ensures GetChild(AddAsyncMeta(params, uid, now, region), path) == GetChild(params, path)
  {
    var withUid := Add(params, ["meta", "accountid"], Leaf(uid));
    var withTime := Add(withUid, ["meta", "create_at"], Leaf(now));
    AddKeepsOtherPaths(params, "meta", "accountid", Leaf(uid), path);
    AddKeepsOtherPaths(withUid, "meta", "create_at", Leaf(now), path);
    AddKeepsOtherPaths(withTime, "meta", "region", Leaf(region), path);
  }

  lemma AsyncTripIsTheSame(params: Tree, uid: string, now: string, region: string, d: Degrees)
    ensures TripFromTree(AddAsyncMeta(params, uid, now, region), Reader(d)) == TripFromTree(params, Reader(d))
  {
    AsyncKeepsRest(params, uid, now, region, ["starting_point"]);
    AsyncKeepsRest(params, uid, now, region, ["final_point"]);
    AsyncKeepsRest(params, uid, now, region, ["waypoints"]);
  }

  /** The account of a queued request is the caller's exactly when the request did
      not bring another one along. */
  lemma QueuedAccountIsTheCallers(params: Tree, uid: string, now: string, region: string)
    ensures GetText(AddAsyncMeta(params, uid, now, region), ["meta", "accountid"]) == Some(uid)
            <==> GetText(params, ["meta", "accountid"]) in {None, Some(uid)}
  {
    AsyncAccount(params, uid, now, region);
  }

  /** The asynchronous call queues a request only if it brought a creation time of
      its own. */
  lemma AsyncNeedsACreationTime(params: Tree, uid: string, now: string, region: string, d: Degrees, isDate: string -> bool)
    ensures GetText(params, ["meta", "createdat"]).None? || !isDate(GetText(params, ["meta", "createdat"]).value)
            ==> !IsRequest(AddAsyncMeta(params, uid, now, region), d, isDate)
  {
    AsyncKeeps(params, uid, now, region, "createdat");
  }

  /** The asynchronous call takes exactly those requests that the synchronous one
      takes and that brought a creation time. */
  lemma AsyncAcceptsIff(params: Tree, stamp: Stamp, now: string, d: Degrees, isDate: string -> bool)
    ensures IsRequest(AddAsyncMeta(params, stamp.uid, now, stamp.region), d, isDate)
            <==> IsRequest(AddMeta(params, stamp), d, isDate) && GetText(params, ["meta", "createdat"]).Some?
  {
    var queued, stamped := AddAsyncMeta(params, stamp.uid, now, stamp.region), AddMeta(params, stamp);
    AsyncFields(params, stamp.uid, now, stamp.region);
    AddedRegion(params, stamp);
    AddedAccount(params, stamp);
    AddedTime(params, stamp);
    AsyncTripIsTheSame(params, stamp.uid, now, stamp.region, d);
    StampedTripIsTheSame(params, stamp, d);
    AsyncLocationIsTheSame(params, stamp.uid, now, stamp.region, d);
    StampedLocationIsTheSame(params, stamp, d);
    SameRequest(queued, stamped, d, isDate);
  }

  /** Documents that agree on all parts of a request but perhaps the time. */
  lemma SameRequest(queued: Tree, stamped: Tree, d: Degrees, isDate: string -> bool)
    requires TripFromTree(queued, Reader(d)) == TripFromTree(stamped, Reader(d))
    requires ReadCoordinates(queued, "location", d) == ReadCoordinates(stamped, "location", d)
    requires GetText(queued, ["meta", "region"]) == GetText(stamped, ["meta", "region"])
    requires GetText(queued, ["meta", "accountid"]) == GetText(stamped, ["meta", "accountid"])
    requires GetText(stamped, ["meta", "createdat"]).Some?
    requires GetText(queued, ["meta", "createdat"]) in {None, GetText(stamped, ["meta", "createdat"])}
    ensures IsRequest(queued, d, isDate)
            <==> IsRequest(stamped, d, isDate) && GetText(queued, ["meta", "createdat"]).Some?
  {
  }

  lemma AsyncLocationIsTheSame(params: Tree, uid: string, now: string, region: string, d: Degrees)
    ensures ReadCoordinates(AddAsyncMeta(params, uid, now, region), "location", d) == ReadCoordinates(params, "location", d)
  {
    AsyncKeepsRest(params, uid, now, region, ["location", "latitude"]);
    AsyncKeepsRest(params, uid, now, region, ["location", "longitude"]);
    SameLocation(AddAsyncMeta(params, uid, now, region), params, d);
  }

  /** The asynchronous call, up to handing the request over to the scheduler: what
      it queues is an admitted trip of the region its location lies in. */
  method InvokeAsync(params: Tree, uid: string, now: string, index: Index, maxWaypoints: nat, d: Degrees,
                     isDate: string -> bool)
    returns (r: Result<Tree, ServiceError>, ghost g: Region)
    requires index.Valid()
    requires var location := ReadCoordinates(params, "location", d);
             location.Success? ==> exists region :: region in index.Regions() && region.Contains(location.value)
    ensures var location := ReadCoordinates(params, "location", d);
            location.Failure? ==> r == Failure(BadLocation(location.error))
    ensures var location := ReadCoordinates(params, "location", d);
            location.Success? ==> g in index.Regions() && g.Contains(location.value)
    ensures r.Success? ==>
              && r.value == AddAsyncMeta(params, uid, now, g.name) && IsRequest(r.value, d, isDate)
              && TripFromTree(params, Reader(d)).Success?
              && Admitted(TripFromTree(params, Reader(d)).value, g, index.Regions(), maxWaypoints)
    ensures ReadCoordinates(params, "location", d).Success? && r.Failure? ==>
              Rejected(AddAsyncMeta(params, uid, now, g.name), g, index.Regions(), maxWaypoints, d, isDate, r.error)
  {
    g := Region("", []);
    var location := ReadCoordinates(params, "location", d);
    if location.Failure? {
      return Failure(BadLocation(location.error)), g;
    }
    var tripRegion := index.Locate(location.value);
    g := tripRegion.value;
    var queued := AddAsyncMeta(params, uid, now, tripRegion.value.name);
    AsyncTripIsTheSame(params, uid, now, tripRegion.value.name, d);
    var request := Admit(queued, tripRegion.value, index, maxWaypoints, d, isDate);
    r := if request.Failure? then Failure(request.error) else Success(queued);
  }
}
