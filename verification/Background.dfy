/** The protocol of the background workers with real message bodies and the real
    routing put in: how a polled message reads, and what becomes of the one-way
    trips and round trips that were queued. */
module Background {
  import opened Admission
  import opened Deletions
  import opened Engine
  import opened Json
  import opened Protocol
  import opened RecordFinality
  import opened Trip
  import opened TripJson
  import opened Wrappers

  // ---------- reading a message ----------

  /** A polled document: the queue's id and receipt are added behind whatever the
      document already holds. */
  function Stamped(document: Tree, id: string, handle: string): Tree {
    Add(Add(document, ["meta", "id"], Leaf(id)), ["meta", "receipthandle"], Leaf(handle))
  }

  lemma StampKeepsField(document: Tree, id: string, handle: string, key: string)
    requires key !in {"id", "receipthandle"}
    ensures GetText(Stamped(document, id, handle), ["meta", key]) == GetText(document, ["meta", key])
  {
    AddKeepsSiblings(document, "meta", "id", id, key);
    AddKeepsSiblings(Add(document, ["meta", "id"], Leaf(id)), "meta", "receipthandle", handle, key);
  }

  lemma StampKeepsRest(document: Tree, id: string, handle: string, path: seq<string>)
    requires path != [] && path[0] != "meta"
    ensures GetChild(Stamped(document, id, handle), path) == GetChild(document, path)
  {
    AddKeepsOtherPaths(document, "meta", "id", Leaf(id), path);
    AddKeepsOtherPaths(Add(document, ["meta", "id"], Leaf(id)), "meta", "receipthandle", Leaf(handle), path);
  }

  /** An id or a receipt handle in the document wins over the queue's. */
  lemma StampedIdAndHandle(document: Tree, id: string, handle: string)
    ensures var stamped := Stamped(document, id, handle);
            && GetText(stamped, ["meta", "id"]) == Some(OrElse(GetText(document, ["meta", "id"]), id))
            && GetText(stamped, ["meta", "receipthandle"])
               == Some(OrElse(GetText(document, ["meta", "receipthandle"]), handle))
  {
    var withId := Add(document, ["meta", "id"], Leaf(id));
    AddedIsFoundLast(document, "meta", "id", id);
    AddKeepsSiblings(withId, "meta", "receipthandle", handle, "id");
    AddKeepsSiblings(document, "meta", "id", id, "receipthandle");
    AddedIsFoundLast(withId, "meta", "receipthandle", handle);
  }

  lemma StampKeepsTrip(document: Tree, id: string, handle: string, d: Degrees)
    ensures TripFromTree(Stamped(document, id, handle), Reader(d)) == TripFromTree(document, Reader(d))
  {
    StampKeepsRest(document, id, handle, ["starting_point"]);
    StampKeepsRest(document, id, handle, ["final_point"]);
    StampKeepsRest(document, id, handle, ["waypoints"]);
  }

  lemma StampKeepsLocation(document: Tree, id: string, handle: string, d: Degrees)
    ensures ReadCoordinates(Stamped(document, id, handle), "location", d) == ReadCoordinates(document, "location", d)
  {
    StampKeepsRest(document, id, handle, ["location", "latitude"]);
    StampKeepsRest(document, id, handle, ["location", "longitude"]);
  }

  /** Stamping decides neither whether a document is a request nor what it asks. */
  lemma StampKeepsRequest(document: Tree, id: string, handle: string, d: Degrees, isDate: string -> bool, stamped: Tree)
    requires stamped == Stamped(document, id, handle)
    ensures IsRequest(stamped, d, isDate) <==> IsRequest(document, d, isDate)
    ensures TripFromTree(stamped, Reader(d)) == TripFromTree(document, Reader(d))
    ensures GetText(stamped, ["meta", "region"]) == GetText(document, ["meta", "region"])
    ensures GetText(stamped, ["meta", "accountid"]) == GetText(document, ["meta", "accountid"])
  {
    StampKeepsTrip(document, id, handle, d);
    StampKeepsLocation(document, id, handle, d);
    StampKeepsField(document, id, handle, "region");
    StampKeepsField(document, id, handle, "accountid");
    StampKeepsField(document, id, handle, "createdat");
  }

  /** What is read of one queued document. */
  datatype Polled = Polled(meta: Meta, trip: seq<Waypoint>, region: string)

  /** Reads a stamped document. */
  method ReadStamped(stamped: Tree, d: Degrees, isDate: string -> bool) returns (r: Option<Polled>)
    requires GetText(stamped, ["meta", "id"]).Some? && GetText(stamped, ["meta", "receipthandle"]).Some?
    ensures r.Some? <==> IsRequest(stamped, d, isDate)
    ensures r.Some? ==>
              && GetText(stamped, ["meta", "id"]) == Some(r.value.meta.id)
              && GetText(stamped, ["meta", "receipthandle"]) == Some(r.value.meta.handle)
              && GetText(stamped, ["meta", "accountid"]) == Some(r.value.meta.account)
              && GetText(stamped, ["meta", "region"]) == Some(r.value.region)
              && TripFromTree(stamped, Reader(d)) == Success(r.value.trip)
  {
    var request := ReadRequest(stamped, d, isDate);
    if request.None? {
      return None;
    }
    var id, handle := GetText(stamped, ["meta", "id"]), GetText(stamped, ["meta", "receipthandle"]);
    var account := GetText(stamped, ["meta", "accountid"]);
    return Some(Polled(Meta(id.value, handle.value, account.value), request.value.trip, request.value.region));
  }

  // ---------- the protocol with these bodies and engines ----------

  /** The world a run takes place in: how texts parse, how degrees and times read,
      the engines, and whether persisting finds its fields. */
  datatype World = World(
    parse: string -> Option<Tree>,
    degrees: Degrees,
    isDate: string -> bool,
    instances: map<string, RoutingEngine>,
    fieldsPresent: bool)

  ghost predicate Reads(u: World, body: string) {
    u.parse(body).Some? && IsRequest(u.parse(body).value, u.degrees, u.isDate)
  }

  ghost function TripOf(u: World, body: string): (trip: seq<Waypoint>)
    requires Reads(u, body)
    ensures |trip| >= 3
  {
    TripFromTree(u.parse(body).value, Reader(u.degrees)).value
  }

  ghost function RegionOf(u: World, body: string): string
    requires Reads(u, body)
  {
    GetText(u.parse(body).value, ["meta", "region"]).value
  }

  ghost function Sent(u: World, body: string, key: string): Option<string> {
    if u.parse(body).Some? then GetText(u.parse(body).value, ["meta", key]) else None
  }

  ghost function ConfigOf(u: World): Config {
    Config(
      body => Reads(u, body),
      body => Sent(u, body, "id"),
      body => Sent(u, body, "receipthandle"),
      body => OrElse(Sent(u, body, "accountid"), ""),
      body => if Reads(u, body) then RouteOutcome(u.instances, TripOf(u, body), RegionOf(u, body)) else Throws,
      u.fieldsPresent)
  }

  /** Reading a message, as polling does it, gives what the protocol takes it to
      give. */
  method PollMessage(u: World, body: string, id: string, handle: string) returns (r: Option<Polled>)
    ensures r.Some? <==> Reads(u, body)
    ensures r.Some? ==> r.value.meta == MetaOf(ConfigOf(u), body, id, handle)
    ensures r.Some? ==> r.value.trip == TripOf(u, body) && r.value.region == RegionOf(u, body)
  {
    var document := u.parse(body);
    if document.None? {
      return None;
    }
    var stamped := Stamped(document.value, id, handle);
    StampKeepsRequest(document.value, id, handle, u.degrees, u.isDate, stamped);
    StampedIdAndHandle(document.value, id, handle);
    r := ReadStamped(stamped, u.degrees, u.isDate);
    MetaReads(u, body, id, handle);
  }

  lemma MetaReads(u: World, body: string, id: string, handle: string)
    ensures MetaOf(ConfigOf(u), body, id, handle)
            == Meta(OrElse(Sent(u, body, "id"), id), OrElse(Sent(u, body, "receipthandle"), handle),
                    OrElse(Sent(u, body, "accountid"), ""))
  {
  }

  /** A queued body is plain exactly when the client's request named neither an id
      nor a receipt handle. */
  lemma QueuedBodyIsPlainIff(u: World, body: string, params: Tree, uid: string, now: string, region: string)
    requires u.parse(body) == Some(AddAsyncMeta(params, uid, now, region))
    ensures IsPlain(ConfigOf(u), body)
            <==> GetText(params, ["meta", "id"]).None? && GetText(params, ["meta", "receipthandle"]).None?
  {
    AsyncFields(params, uid, now, region);
  }

  /** ... and it is recorded under the caller's account exactly when the request
      brought no other. */
  lemma QueuedBodyIsTheCallersIff(u: World, body: string, params: Tree, uid: string, now: string, region: string)
    requires u.parse(body) == Some(AddAsyncMeta(params, uid, now, region))
    ensures ConfigOf(u).account(body) == uid <==> GetText(params, ["meta", "accountid"]) in {None, Some(uid)}
  {
    AsyncFields(params, uid, now, region);
  }

  ghost predicate IsBuilt(u: World, body: string)
    requires Reads(u, body)
  {
    RegionOf(u, body) in u.instances && Builds(TripOf(u, body), u.instances[RegionOf(u, body)])
  }

  /** As long as no other message goes under its id, a round trip is never ready,
      and one whose ends meet has no record at all. As long as no message with a
      verdict brings a receipt handle along, the latter never leaves the queue. */
  lemma RoundTripsAreNeverReady(u: World, batch: map<string, string>, s: State, id: string)
    requires "" !in batch && Reachable(ConfigOf(u), batch, s) && id in s.queue.bodies && id != ""
    requires Reads(u, s.queue.bodies[id]) && Roundtrip(TripOf(u, s.queue.bodies[id]))
    ensures NobodyElse(ConfigOf(u), batch, id) ==> !HasRecord(s, id, Ready)
    ensures IsBuilt(u, s.queue.bodies[id]) && NobodyElse(ConfigOf(u), batch, id) ==> id !in s.records
    ensures IsBuilt(u, s.queue.bodies[id]) && NoForeignDeletes(ConfigOf(u), batch)
            ==> id in s.queue.visible + s.queue.inFlight
  {
    var c, body := ConfigOf(u), s.queue.bodies[id];
    ReachableKeepsInv(c, batch, s);
    assert c.parses(body) && !c.route(body).Accepted?;
    if id in s.records && NobodyElse(c, batch, id) {
      var m :| Explains(c, s.queue.bodies, m, id, s.records[id]);
      assert Explains(c, batch, m, id, s.records[id]);
    }
    if IsBuilt(u, body) && NoForeignDeletes(c, batch) {
      assert IsRefused(c, batch[id]);
      RefusedStaysQueuedIff(c, batch, id);
    }
  }

  /** Exactly when that is so: no run ever answers a round trip whose ends meet if and
      only if no other message goes under its id, and none ever takes it off the
      queue if and only if no message with a verdict brings a receipt handle. */
  lemma MeetingEndsStayUnanswered(u: World, batch: map<string, string>, id: string)
    requires "" !in batch && id in batch
    requires Reads(u, batch[id]) && Roundtrip(TripOf(u, batch[id])) && IsBuilt(u, batch[id])
    ensures (forall r :: !CanRecord(ConfigOf(u), batch, id, r)) <==> NobodyElse(ConfigOf(u), batch, id)
    ensures NeverDeleted(ConfigOf(u), batch, id) <==> NoForeignDeletes(ConfigOf(u), batch)
  {
    var c := ConfigOf(u);
    assert c.parses(batch[id]) && c.route(batch[id]).Refused?;
    RefusedStaysQueuedIff(c, batch, id);
    RefusedHasNoRecordIff(c, batch, id);
  }

  /** Which trips become ready: scheduled by itself, a request gets a ready record in
      some run if and only if persisting finds its fields, the region's engine found
      a trip to build, its two ends are different buildings, and it has a geometry. */
  lemma BecomesReadyIff(u: World, id: string, body: string)
    requires Reads(u, body) && id != "" && RecordId(ConfigOf(u), body, id) != ""
    ensures var trip, c := TripOf(u, body), ConfigOf(u);
            CanRecord(c, map[id := body], RecordId(c, body, id), Record(Ready, c.account(body))) <==>
              && u.fieldsPresent
              && RegionOf(u, body) in u.instances
              && var engine := u.instances[RegionOf(u, body)];
              && Builds(trip, engine)
              && |trip| >= 3 && trip[0].building.id != trip[|trip| - 1].building.id
              && engine.answer(Engine.Request(trip, engine.fix)).trips[0].geometry != ""
  {
    OneMessageRecords(ConfigOf(u), id, body, Record(Ready, ConfigOf(u).account(body)));
    RouteIs(u, body);
  }

  /** ... and a failed one if and only if the engine found none. */
  lemma BecomesFailedIff(u: World, id: string, body: string)
    requires Reads(u, body) && id != "" && RecordId(ConfigOf(u), body, id) != ""
    ensures var trip, c := TripOf(u, body), ConfigOf(u);
            CanRecord(c, map[id := body], RecordId(c, body, id), Record(Failed, c.account(body))) <==>
              RegionOf(u, body) !in u.instances || !Builds(trip, u.instances[RegionOf(u, body)])
  {
    OneMessageRecords(ConfigOf(u), id, body, Record(Failed, ConfigOf(u).account(body)));
    RouteIs(u, body);
  }

  lemma OneMessageRecords(c: Config, id: string, body: string, r: Record)
    requires id != "" && RecordId(c, body, id) != ""
    ensures CanRecord(c, map[id := body], RecordId(c, body, id), r) <==> Verdict(c, body) == Some(r)
  {
    var batch, x := map[id := body], RecordId(c, body, id);
    RecordsThereCanBe(c, batch, x, r);
    if Verdict(c, body) == Some(r) {
      assert Explains(c, batch, id, x, r);
    }
  }

  lemma RouteIs(u: World, body: string)
    requires Reads(u, body)
    ensures var c, trip, region := ConfigOf(u), TripOf(u, body), RegionOf(u, body);
            && c.parses(body) && c.fieldsPresent == u.fieldsPresent
            && (c.route(body).Throws? <==> region !in u.instances || !Builds(trip, u.instances[region]))
            && (c.route(body).Accepted? <==>
                  && region in u.instances && Builds(trip, u.instances[region])
                  && |trip| >= 3 && trip[0].building.id != trip[|trip| - 1].building.id
                  && var engine := u.instances[region];
                     engine.answer(Engine.Request(trip, engine.fix)).trips[0].geometry != "")
  {
  }

  /** What a record tells of the message it stems from. */
  ghost predicate Tells(u: World, body: string, r: Record) {
    && Reads(u, body) && Sent(u, body, "accountid") == Some(r.account)
    && (r.status.Failed? <==> !IsBuilt(u, body))
    && (r.status.Ready? ==>
          !Roundtrip(TripOf(u, body))
          && var engine := u.instances[RegionOf(u, body)];
             engine.answer(Engine.Request(TripOf(u, body), engine.fix)).trips[0].geometry != "")
  }

  /** Every record stems from a message that goes under its id, under that message's
      account. It is failed exactly when the region's engine found no trip to build,
      and a ready one is of a one-way trip with a geometry. */
  lemma RecordsTellTheRouting(u: World, batch: map<string, string>, s: State, x: string)
    requires Reachable(ConfigOf(u), batch, s) && x in s.records && x != ""
    ensures exists m :: m in s.queue.bodies && RecordId(ConfigOf(u), s.queue.bodies[m], m) == x
                        && Tells(u, s.queue.bodies[m], s.records[x])
  {
    var c := ConfigOf(u);
    ReachableKeepsInv(c, batch, s);
    var m :| Explains(c, s.queue.bodies, m, x, s.records[x]);
    VerdictTells(u, s.queue.bodies[m], s.records[x]);
  }

  lemma VerdictTells(u: World, body: string, r: Record)
    requires Verdict(ConfigOf(u), body) == Some(r)
    ensures Tells(u, body, r)
  {
  }

  /** With the response document as it is written, persisting finds none of the
      fields it reads, so no trip whatever is ever ready. */
  lemma AsWrittenNothingIsReady(u: World, batch: map<string, string>, meta: Tree, trip: Tree, s: State, x: string)
    requires var response := Object([("meta", meta), ("trip", trip)]);
             u.fieldsPresent == (GetChild(response, ["request"]).Some? && GetChild(response, ["response"]).Some?)
    requires Reachable(ConfigOf(u), batch, s) && x != ""
    ensures !HasRecord(s, x, Ready)
  {
    ResponseLacksPersistedFields(meta, trip);
    NothingReadyWithoutFields(ConfigOf(u), batch, s, x);
  }
}
