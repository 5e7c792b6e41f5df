/** Trips as JSON documents, and what reading one back gives. */
module TripJson {
  import opened Coords
  import opened Json
  import opened Trip
  import opened Wrappers

  datatype JsonError = BadPath | BadData

  /** How degrees are written and read; writing keeps eight significant digits. */
  datatype Degrees = Degrees(show: int -> string, read: string -> Option<int>) {
    /** A degree after being written and read once. */
    function Rounded(n: int): int {
      var r := read(show(n));
      if r.None? then 0 else r.value
    }

    /** What is written can be read, and rounding a second time changes nothing. */
    ghost predicate RoundsOnce() {
      forall n :: read(show(n)).Some? && Rounded(Rounded(n)) == Rounded(n)
    }
  }

  // ---------- buildings ----------

  function BuildingTree(b: Building, d: Degrees): Tree {
    Object([
      ("id", Leaf(ShowInt(b.id))),
      ("coords", Object([("latitude", Leaf(d.show(b.coords.latitude))), ("longitude", Leaf(d.show(b.coords.longitude)))])),
      ("city", Leaf(b.city)),
      ("street", Leaf(b.street)),
      ("number", Leaf(b.number)),
      ("zipcode", Leaf(b.zipcode))])
  }

  method BuildingToJson(b: Building, d: Degrees) returns (output: Tree)
    ensures output == BuildingTree(b, d)
  {
    output := EMPTY;
    output := Add(output, ["id"], Leaf(ShowInt(b.id)));
    AddsUnderNewKey(output, "coords", "latitude", Leaf(d.show(b.coords.latitude)));
    output := Add(output, ["coords", "latitude"], Leaf(d.show(b.coords.latitude)));
    AddsUnderOldKey(output, "coords", 1, "longitude", Leaf(d.show(b.coords.longitude)));
    output := Add(output, ["coords", "longitude"], Leaf(d.show(b.coords.longitude)));
    var coords := [("latitude", Leaf(d.show(b.coords.latitude))), ("longitude", Leaf(d.show(b.coords.longitude)))];
    assert [("latitude", Leaf(d.show(b.coords.latitude)))] + [("longitude", Leaf(d.show(b.coords.longitude)))] == coords;
    assert output.children == [("id", Leaf(ShowInt(b.id))), ("coords", Object(coords))];
    output := Add(output, ["city"], Leaf(b.city));
    output := Add(output, ["street"], Leaf(b.street));
    output := Add(output, ["number"], Leaf(b.number));
    output := Add(output, ["zipcode"], Leaf(b.zipcode));
    assert output.children == BuildingTree(b, d).children;
  }

  function ReadDegree(t: Tree, path: seq<string>, d: Degrees): Result<int, JsonError> {
    var text := GetText(t, path);
    if text.None? then Failure(BadPath) else
      var n := d.read(text.value);
      if n.None? then Failure(BadData) else Success(n.value)
  }

  function ReadId(t: Tree, path: seq<string>): Result<int, JsonError> {
    var text := GetText(t, path);
    if text.None? then Failure(BadPath) else
      var n := ReadInt(text.value);
      if n.None? then Failure(BadData) else Success(n.value)
  }

  /** The country is not read; a missing zip code reads as an empty one. */
  function BuildingFromJson(t: Tree, d: Degrees): Result<Building, JsonError> {
    var id := ReadId(t, ["id"]);
    var lat := ReadDegree(t, ["coords", "latitude"], d);
    var lng := ReadDegree(t, ["coords", "longitude"], d);
    var city, street, number := GetText(t, ["city"]), GetText(t, ["street"]), GetText(t, ["number"]);
    var zipcode := GetText(t, ["zipcode"]);
    if id.Failure? then Failure(id.error)
    else if lat.Failure? then Failure(lat.error)
    else if lng.Failure? then Failure(lng.error)
    else if city.None? || street.None? || number.None? then Failure(BadPath)
    else Success(Building(id.value, Coordinates(lat.value, lng.value), "", city.value,
                          if zipcode.Some? then zipcode.value else "", street.value, number.value))
  }

  /** What survives of a building: all but the country, with rounded coordinates. */
  function NormalBuilding(b: Building, d: Degrees): Building {
    b.(country := "", coords := Coordinates(d.Rounded(b.coords.latitude), d.Rounded(b.coords.longitude)))
  }

  ghost predicate HoldsBuilding(t: Tree, b: Building, d: Degrees) {
    && GetText(t, ["id"]) == Some(ShowInt(b.id))
    && GetText(t, ["coords", "latitude"]) == Some(d.show(b.coords.latitude))
    && GetText(t, ["coords", "longitude"]) == Some(d.show(b.coords.longitude))
    && GetText(t, ["city"]) == Some(b.city)
    && GetText(t, ["street"]) == Some(b.street)
    && GetText(t, ["number"]) == Some(b.number)
    && GetText(t, ["zipcode"]) == Some(b.zipcode)
  }

  lemma BuildingIsHeld(b: Building, d: Degrees)
    ensures HoldsBuilding(BuildingTree(b, d), b, d)
  {
    IdAndCoordsAreHeld(b, d);
    AddressIsHeld(b, d);
  }

  lemma IdAndCoordsAreHeld(b: Building, d: Degrees)
    ensures GetText(BuildingTree(b, d), ["id"]) == Some(ShowInt(b.id))
    ensures GetText(BuildingTree(b, d), ["coords", "latitude"]) == Some(d.show(b.coords.latitude))
    ensures GetText(BuildingTree(b, d), ["coords", "longitude"]) == Some(d.show(b.coords.longitude))
  {
    var t := BuildingTree(b, d);
    ChildAt(t, "id", 0);
    GrandchildAt(t, "coords", 1, "latitude", 0);
    GrandchildAt(t, "coords", 1, "longitude", 1);
  }

  lemma AddressIsHeld(b: Building, d: Degrees)
    ensures GetText(BuildingTree(b, d), ["city"]) == Some(b.city)
    ensures GetText(BuildingTree(b, d), ["street"]) == Some(b.street)
    ensures GetText(BuildingTree(b, d), ["number"]) == Some(b.number)
    ensures GetText(BuildingTree(b, d), ["zipcode"]) == Some(b.zipcode)
  {
    var t := BuildingTree(b, d);
    ChildAt(t, "city", 2);
    ChildAt(t, "street", 3);
    ChildAt(t, "number", 4);
    ChildAt(t, "zipcode", 5);
  }

  lemma HeldBuildingIsRead(t: Tree, b: Building, d: Degrees)
    requires d.RoundsOnce() && HoldsBuilding(t, b, d)
    ensures BuildingFromJson(t, d) == Success(NormalBuilding(b, d))
  {
    IntReadsBack(b.id);
    assert d.read(d.show(b.coords.latitude)).Some? && d.read(d.show(b.coords.longitude)).Some?;
  }

  lemma BuildingReadsBack(b: Building, d: Degrees)
    requires d.RoundsOnce()
    ensures BuildingFromJson(BuildingTree(b, d), d) == Success(NormalBuilding(b, d))
  {
    BuildingIsHeld(b, d);
    HeldBuildingIsRead(BuildingTree(b, d), b, d);
  }

  /** Which documents can be read as a building, and as which. */
  lemma BuildingIsReadIff(t: Tree, d: Degrees, b: Building)
    ensures BuildingFromJson(t, d) == Success(b) <==>
              && GetText(t, ["id"]).Some? && ReadInt(GetText(t, ["id"]).value) == Some(b.id)
              && GetText(t, ["coords", "latitude"]).Some?
              && d.read(GetText(t, ["coords", "latitude"]).value) == Some(b.coords.latitude)
              && GetText(t, ["coords", "longitude"]).Some?
              && d.read(GetText(t, ["coords", "longitude"]).value) == Some(b.coords.longitude)
              && GetText(t, ["city"]) == Some(b.city) && GetText(t, ["street"]) == Some(b.street)
              && GetText(t, ["number"]) == Some(b.number)
              && GetText(t, ["zipcode"]) in {None, Some(b.zipcode)} && (GetText(t, ["zipcode"]).None? ==> b.zipcode == "")
              && b.country == ""
  {
  }

  /** A document fails as a building for lack of a text, or for a number that cannot
      be read. */
  lemma BuildingErrors(t: Tree, d: Degrees)
    ensures BuildingFromJson(t, d) == Failure(BadPath) ==>
              || GetText(t, ["id"]).None? || GetText(t, ["coords", "latitude"]).None?
              || GetText(t, ["coords", "longitude"]).None? || GetText(t, ["city"]).None?
              || GetText(t, ["street"]).None? || GetText(t, ["number"]).None?
    ensures BuildingFromJson(t, d) == Failure(BadData) ==>
              || (GetText(t, ["id"]).Some? && ReadInt(GetText(t, ["id"]).value).None?)
              || (GetText(t, ["coords", "latitude"]).Some? && d.read(GetText(t, ["coords", "latitude"]).value).None?)
              || (GetText(t, ["coords", "longitude"]).Some? && d.read(GetText(t, ["coords", "longitude"]).value).None?)
  {
  }

  // ---------- waypoints ----------

  function Filled(text: Option<string>): Option<string> {
    if text == Some("") then None else text
  }

  function WaypointTree(w: Waypoint, d: Degrees): Tree {
    Object([("building", BuildingTree(w.building, d))]
           + Given("phone", Filled(w.phone)) + Given("notes", Filled(w.notes)) + Given("input_method", w.inputMethod))
  }

  method WaypointToJson(w: Waypoint, d: Degrees) returns (output: Tree)
    ensures output == WaypointTree(w, d)
  {
    output := EMPTY;
    var building := BuildingToJson(w.building, d);
    output := Add(output, ["building"], building);
    if w.phone.Some? && w.phone.value != "" {
      output := Add(output, ["phone"], Leaf(w.phone.value));
    }
    if w.notes.Some? && w.notes.value != "" {
      output := Add(output, ["notes"], Leaf(w.notes.value));
    }
    if w.inputMethod.Some? {
      output := Add(output, ["input_method"], Leaf(w.inputMethod.value));
    }
    assert output.children == WaypointTree(w, d).children;
  }

  function WaypointFromJson(t: Tree, d: Degrees): Result<Waypoint, JsonError> {
    var child := GetChild(t, ["building"]);
    if child.None? then Failure(BadPath) else
      var building := BuildingFromJson(child.value, d);
      if building.Failure? then Failure(building.error)
      else Success(Waypoint(building.value, GetText(t, ["phone"]), GetText(t, ["input_method"]), GetText(t, ["notes"])))
  }

  /** Empty phone numbers and notes become absent. */
  function NormalWaypoint(w: Waypoint, d: Degrees): Waypoint {
    Waypoint(NormalBuilding(w.building, d), Filled(w.phone), w.inputMethod, Filled(w.notes))
  }

  ghost predicate HoldsWaypoint(t: Tree, w: Waypoint, d: Degrees) {
    && GetChild(t, ["building"]) == Some(BuildingTree(w.building, d))
    && GetText(t, ["phone"]) == Filled(w.phone)
    && GetText(t, ["notes"]) == Filled(w.notes)
    && GetText(t, ["input_method"]) == w.inputMethod
  }

  /** The document of a waypoint, field by field: texts that are there and not empty,
      and the input method if it is there. */
  lemma WaypointHolds(w: Waypoint, d: Degrees)
    ensures var t := WaypointTree(w, d);
            && GetChild(t, ["building"]) == Some(BuildingTree(w.building, d))
            && GetText(t, ["phone"]) == (if w.phone == Some("") then None else w.phone)
            && GetText(t, ["notes"]) == (if w.notes == Some("") then None else w.notes)
            && GetText(t, ["input_method"]) == w.inputMethod
  {
    WaypointIsHeld(w, d);
  }

  /** The document of a waypoint, whatever its building's looks like. */
  lemma PartsAreHeld(building: Tree, phone: Option<string>, notes: Option<string>, input: Option<string>, t: Tree)
    requires t == Object([("building", building)] + Given("phone", phone) + Given("notes", notes)
                         + Given("input_method", input))
    ensures GetChild(t, ["building"]) == Some(building)
    ensures GetText(t, ["phone"]) == phone && GetText(t, ["notes"]) == notes && GetText(t, ["input_method"]) == input
  {
    var first := [("building", building)];
    var p, n, i := Given("phone", phone), Given("notes", notes), Given("input_method", input);
    ChildAt(t, "building", 0);
    StillLacksKey(n, "input_method", input, "phone");
    StillLacksKey(first, "phone", phone, "notes");
    StillLacksKey(first, "phone", phone, "input_method");
    StillLacksKey(first + p, "notes", notes, "input_method");
    GivenIsFound(first, "phone", phone, n + i);
    GivenIsFound(first + p, "notes", notes, i);
    GivenIsFound(first + p + n, "input_method", input, []);
    Regrouped(first, p, n, i);
  }

  lemma Regrouped<T>(a: seq<T>, b: seq<T>, c: seq<T>, e: seq<T>)
    ensures a + b + c + e == a + b + (c + e) && a + b + c + e == a + b + c + e + []
  {
  }

  lemma WaypointIsHeld(w: Waypoint, d: Degrees)
    ensures HoldsWaypoint(WaypointTree(w, d), w, d)
  {
    PartsAreHeld(BuildingTree(w.building, d), Filled(w.phone), Filled(w.notes), w.inputMethod, WaypointTree(w, d));
  }

  lemma HeldWaypointIsRead(t: Tree, w: Waypoint, d: Degrees)
    requires d.RoundsOnce() && HoldsWaypoint(t, w, d)
    ensures WaypointFromJson(t, d) == Success(NormalWaypoint(w, d))
  {
    BuildingReadsBack(w.building, d);
  }

  lemma WaypointReadsBack(w: Waypoint, d: Degrees)
    requires d.RoundsOnce()
    ensures WaypointFromJson(WaypointTree(w, d), d) == Success(NormalWaypoint(w, d))
  {
    WaypointIsHeld(w, d);
    HeldWaypointIsRead(WaypointTree(w, d), w, d);
  }

  lemma NormalWaypointIsStable(w: Waypoint, d: Degrees)
    requires d.RoundsOnce()
    ensures NormalWaypoint(NormalWaypoint(w, d), d) == NormalWaypoint(w, d)
  {
  }

  /** Which documents can be read as a waypoint, and as which. */
  lemma WaypointIsReadIff(t: Tree, d: Degrees, w: Waypoint)
    ensures WaypointFromJson(t, d) == Success(w) <==>
              && GetChild(t, ["building"]).Some? && BuildingFromJson(GetChild(t, ["building"]).value, d) == Success(w.building)
              && GetText(t, ["phone"]) == w.phone && GetText(t, ["input_method"]) == w.inputMethod
              && GetText(t, ["notes"]) == w.notes
  {
  }

  /** ... and as a waypoint for lack of a building, or for what its building fails. */
  lemma WaypointErrors(t: Tree, d: Degrees, e: JsonError)
    requires WaypointFromJson(t, d) == Failure(e)
    ensures if GetChild(t, ["building"]).None? then e == BadPath
            else BuildingFromJson(GetChild(t, ["building"]).value, d) == Failure(e)
  {
  }

  // ---------- trips ----------

  function TripTree(trip: seq<Waypoint>, show: Waypoint -> Tree): Tree
    requires |trip| >= 2
  {
    Object([
      ("starting_point", show(trip[0])),
      ("final_point", show(trip[|trip| - 1])),
      ("waypoints", Object(ShowList(trip[1..|trip| - 1], show)))])
  }

  function Shower(d: Degrees): Waypoint -> Tree {
    w => WaypointTree(w, d)
  }

  function Reader(d: Degrees): Tree -> Result<Waypoint, JsonError> {
    t => WaypointFromJson(t, d)
  }

  method TripToJson(trip: seq<Waypoint>, d: Degrees) returns (output: Tree)
    requires |trip| >= 2
    ensures output == TripTree(trip, Shower(d))
  {
    var show := Shower(d);
    output := EMPTY;
    output := Add(output, ["starting_point"], show(trip[0]));
    output := Add(output, ["final_point"], show(trip[|trip| - 1]));
    var vec := BuildList(trip[1..|trip| - 1], show);
    output := Add(output, ["waypoints"], vec);
    assert output.children == TripTree(trip, show).children;
  }

  function TripFromTree(t: Tree, read: Tree -> Result<Waypoint, JsonError>): Result<seq<Waypoint>, JsonError> {
    var s, f, l := GetChild(t, ["starting_point"]), GetChild(t, ["final_point"]), GetChild(t, ["waypoints"]);
    if s.None? || f.None? || l.None? then Failure(BadPath) else
      var starting, final := read(s.value), read(f.value);
      var between := ReadList(l.value.children, read);
      if starting.Failure? then Failure(starting.error)
      else if final.Failure? then Failure(final.error)
      else if between.Failure? then Failure(between.error)
      else Success(Merge(starting.value, final.value, between.value))
  }

  method TripFromJson(body: Tree, d: Degrees) returns (r: Result<seq<Waypoint>, JsonError>)
    ensures r == TripFromTree(body, Reader(d))
    ensures r.Success? ==> |r.value| >= 2
  {
    var read := Reader(d);
    var s, f, l := GetChild(body, ["starting_point"]), GetChild(body, ["final_point"]), GetChild(body, ["waypoints"]);
    if s.None? || f.None? || l.None? {
      return Failure(BadPath);
    }
    var starting, final := read(s.value), read(f.value);
    if starting.Failure? {
      return Failure(starting.error);
    }
    if final.Failure? {
      return Failure(final.error);
    }
    var between := ReadChildren(l.value.children, read);
    if between.Failure? {
      return Failure(between.error);
    }
    return Success(Merge(starting.value, final.value, between.value));
  }

  function Normal(d: Degrees): Waypoint -> Waypoint {
    w => NormalWaypoint(w, d)
  }

  /** Reading any document that begins like a trip's gives that trip back. */
  lemma TripPartReadsBack(trip: seq<Waypoint>, t: Tree, show: Waypoint -> Tree, read: Tree -> Result<Waypoint, JsonError>,
                          normal: Waypoint -> Waypoint)
    requires |trip| >= 2 && forall w :: read(show(w)) == Success(normal(w))
    requires TripTree(trip, show).children <= t.children
    ensures TripFromTree(t, read) == Success(Mapped(trip, normal))
  {
    var n := |trip|;
    assert forall k :: 0 <= k < 3 ==> t.children[k] == TripTree(trip, show).children[k];
    ChildAt(t, "starting_point", 0);
    ChildAt(t, "final_point", 1);
    ChildAt(t, "waypoints", 2);
    ListReadsBack(trip[1..n - 1], show, read, normal);
    assert Mapped(trip, normal) == [normal(trip[0])] + Mapped(trip[1..n - 1], normal) + [normal(trip[n - 1])];
  }

  lemma WaypointsReadBack(d: Degrees)
    requires d.RoundsOnce()
    ensures forall w :: Reader(d)(Shower(d)(w)) == Success(Normal(d)(w))
    ensures forall w :: Normal(d)(Normal(d)(w)) == Normal(d)(w)
  {
    forall w ensures Reader(d)(Shower(d)(w)) == Success(Normal(d)(w)) && Normal(d)(Normal(d)(w)) == Normal(d)(w) {
      WaypointReadsBack(w, d);
      NormalWaypointIsStable(w, d);
    }
  }

  lemma TripAgainReadsBack(trip: seq<Waypoint>, show: Waypoint -> Tree, read: Tree -> Result<Waypoint, JsonError>,
                           normal: Waypoint -> Waypoint)
    requires |trip| >= 2 && forall w :: read(show(w)) == Success(normal(w))
    requires forall w :: normal(normal(w)) == normal(w)
    ensures TripFromTree(TripTree(trip, show), read) == Success(Mapped(trip, normal))
    ensures TripFromTree(TripTree(Mapped(trip, normal), show), read) == Success(Mapped(trip, normal))
  {
    var again := Mapped(trip, normal);
    TripPartReadsBack(trip, TripTree(trip, show), show, read, normal);
    TripPartReadsBack(again, TripTree(again, show), show, read, normal);
    assert Mapped(again, normal) == again;
  }

  /** Which documents can be read as a trip, and as which. */
  lemma TripIsReadIff(t: Tree, read: Tree -> Result<Waypoint, JsonError>, trip: seq<Waypoint>)
    ensures TripFromTree(t, read) == Success(trip) <==>
              var s, f, l := GetChild(t, ["starting_point"]), GetChild(t, ["final_point"]), GetChild(t, ["waypoints"]);
              && s.Some? && f.Some? && l.Some? && |trip| == |l.value.children| + 2
              && read(s.value) == Success(trip[0]) && read(f.value) == Success(trip[|trip| - 1])
              && forall i :: 0 <= i < |l.value.children| ==> read(l.value.children[i].1) == Success(trip[i + 1])
  {
    var l := GetChild(t, ["waypoints"]);
    if l.Some? && |trip| >= 2 {
      var between := trip[1..|trip| - 1];
      ListIsReadIff(l.value.children, read, between);
      assert trip == Merge(trip[0], trip[|trip| - 1], between);
      assert forall i :: 0 <= i < |between| ==> between[i] == trip[i + 1];
    }
  }

  /** A document fails as a trip for lack of a child, or for what some waypoint fails. */
  lemma TripErrors(t: Tree, read: Tree -> Result<Waypoint, JsonError>, e: JsonError)
    requires TripFromTree(t, read) == Failure(e)
    ensures var s, f, l := GetChild(t, ["starting_point"]), GetChild(t, ["final_point"]), GetChild(t, ["waypoints"]);
            if s.None? || f.None? || l.None? then e == BadPath
            else || read(s.value) == Failure(e) || read(f.value) == Failure(e)
                 || exists i :: 0 <= i < |l.value.children| && read(l.value.children[i].1) == Failure(e)
  {
    var l := GetChild(t, ["waypoints"]);
    if l.Some? && ReadList(l.value.children, read).Failure? {
      var i := ListErrors(l.value.children, read);
    }
  }

  /** Writing a trip and reading it back gives the same waypoints in the same
      order, up to the normal form; doing so again changes nothing more. */
  lemma TripReadsBack(trip: seq<Waypoint>, d: Degrees)
    requires d.RoundsOnce() && |trip| >= 2
    ensures TripFromTree(TripTree(trip, Shower(d)), Reader(d)) == Success(Mapped(trip, Normal(d)))
    ensures TripFromTree(TripTree(Mapped(trip, Normal(d)), Shower(d)), Reader(d)) == Success(Mapped(trip, Normal(d)))
  {
    WaypointsReadBack(d);
    TripAgainReadsBack(trip, Shower(d), Reader(d), Normal(d));
  }

  /** The document of a trip: where its ends are, and how many waypoints lie between. */
  lemma TripIsHeld(trip: seq<Waypoint>, show: Waypoint -> Tree)
    requires |trip| >= 2
    ensures GetChild(TripTree(trip, show), ["starting_point"]) == Some(show(trip[0]))
    ensures GetChild(TripTree(trip, show), ["final_point"]) == Some(show(trip[|trip| - 1]))
    ensures var between := GetChild(TripTree(trip, show), ["waypoints"]);
            && between.Some? && |between.value.children| == |trip| - 2
            && forall i :: 0 <= i < |trip| - 2 ==> between.value.children[i] == ("", show(trip[i + 1]))
  {
    var t := TripTree(trip, show);
    ChildAt(t, "starting_point", 0);
    ChildAt(t, "final_point", 1);
    ChildAt(t, "waypoints", 2);
  }

  // ---------- optimised trips and responses ----------

  function LegTree(leg: RouteLeg): Tree {
    Object([
      ("from_building", Leaf(ShowInt(leg.fromBuilding))),
      ("to_building", Leaf(ShowInt(leg.toBuilding))),
      ("cost", Object([("distance", Leaf(ShowInt(leg.cost.distance))), ("duration", Leaf(ShowInt(leg.cost.duration)))]))])
  }

  method LegToJson(leg: RouteLeg) returns (output: Tree)
    ensures output == LegTree(leg)
  {
    output := EMPTY;
    output := Add(output, ["from_building"], Leaf(ShowInt(leg.fromBuilding)));
    output := Add(output, ["to_building"], Leaf(ShowInt(leg.toBuilding)));
    AddsUnderNewKey(output, "cost", "distance", Leaf(ShowInt(leg.cost.distance)));
    output := Add(output, ["cost", "distance"], Leaf(ShowInt(leg.cost.distance)));
    AddsUnderOldKey(output, "cost", 2, "duration", Leaf(ShowInt(leg.cost.duration)));
    output := Add(output, ["cost", "duration"], Leaf(ShowInt(leg.cost.duration)));
    assert [("distance", Leaf(ShowInt(leg.cost.distance)))] + [("duration", Leaf(ShowInt(leg.cost.duration)))]
           == LegTree(leg).children[2].1.children;
    assert output.children == LegTree(leg).children;
  }

  function OptimizedTree(trip: seq<Waypoint>, legs: seq<RouteLeg>, geometry: string, show: Waypoint -> Tree): Tree
    requires |trip| >= 2
  {
    Object(TripTree(trip, show).children + [("legs", Object(ShowList(legs, LegTree))), ("geometry", Leaf(geometry))])
  }

  /** The document of a leg, field by field. */
  lemma LegIsHeld(leg: RouteLeg)
    ensures GetText(LegTree(leg), ["from_building"]) == Some(ShowInt(leg.fromBuilding))
    ensures GetText(LegTree(leg), ["to_building"]) == Some(ShowInt(leg.toBuilding))
    ensures GetText(LegTree(leg), ["cost", "distance"]) == Some(ShowInt(leg.cost.distance))
    ensures GetText(LegTree(leg), ["cost", "duration"]) == Some(ShowInt(leg.cost.duration))
  {
    var t := LegTree(leg);
    ChildAt(t, "from_building", 0);
    ChildAt(t, "to_building", 1);
    GrandchildAt(t, "cost", 2, "distance", 0);
    GrandchildAt(t, "cost", 2, "duration", 1);
  }

  /** An optimised trip's document holds its legs, in order, and its geometry. */
  lemma LegsAndGeometryAreHeld(trip: seq<Waypoint>, legs: seq<RouteLeg>, geometry: string, show: Waypoint -> Tree)
    requires |trip| >= 2
    ensures GetText(OptimizedTree(trip, legs, geometry, show), ["geometry"]) == Some(geometry)
    ensures var list := GetChild(OptimizedTree(trip, legs, geometry, show), ["legs"]);
            && list.Some? && |list.value.children| == |legs|
            && forall i :: 0 <= i < |legs| ==> list.value.children[i] == ("", LegTree(legs[i]))
  {
    var t := OptimizedTree(trip, legs, geometry, show);
    assert forall k :: 0 <= k < 3 ==> t.children[k] == TripTree(trip, show).children[k];
    assert t.children[3].0 == "legs" && t.children[4].0 == "geometry";
    ChildAt(t, "legs", 3);
    ChildAt(t, "geometry", 4);
  }

  method OptimizedToJson(t: OptimizedTrip, d: Degrees) returns (output: Tree)
    requires t.Valid()
    ensures output == OptimizedTree(t.waypoints[..], t.legs[..], t.geometry, Shower(d))
  {
    output := TripToJson(t.waypoints[..], d);
    var vec := BuildList(t.legs[..], LegTree);
    output := Add(output, ["legs"], vec);
    output := Add(output, ["geometry"], Leaf(t.geometry));
    assert output.children == OptimizedTree(t.waypoints[..], t.legs[..], t.geometry, Shower(d)).children;
  }

  /** An optimised trip's document reads back as the trip in its optimised order. */
  lemma OptimizedReadsBack(trip: seq<Waypoint>, legs: seq<RouteLeg>, geometry: string, d: Degrees)
    requires d.RoundsOnce() && |trip| >= 2
    ensures TripFromTree(OptimizedTree(trip, legs, geometry, Shower(d)), Reader(d)) == Success(Mapped(trip, Normal(d)))
  {
    WaypointsReadBack(d);
    TripPartReadsBack(trip, OptimizedTree(trip, legs, geometry, Shower(d)), Shower(d), Reader(d), Normal(d));
  }

  /** The document of a response, which has its metadata and its trip, lacks the
      children that persisting a completed trip reads. */
  lemma ResponseLacksPersistedFields(meta: Tree, trip: Tree)
    ensures GetChild(Object([("meta", meta), ("trip", trip)]), ["request"]).None?
    ensures GetChild(Object([("meta", meta), ("trip", trip)]), ["response"]).None?
  {
    NoChild(Object([("meta", meta), ("trip", trip)]), "request");
    NoChild(Object([("meta", meta), ("trip", trip)]), "response");
  }
}
