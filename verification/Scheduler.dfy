/** The objects behind the protocol: the scheduler over the message queue, the
    table of trip records, and one pass of a worker's loop over the two. The
    methods do in place what the steps of the protocol describe. */
module Scheduler {
  import opened Protocol
  import opened RecordFinality
  import opened Text
  import opened Wrappers

  /** A message as the queue hands it out. */
  datatype Arrival = Arrival(id: string, handle: string)

  /** A polled request: its metadata, as it reads, and its text. */
  datatype TripRequest = TripRequest(meta: Meta, body: string)

  class TripScheduler {
    var bodies: map<string, string>
    var visible: set<string>
    var inFlight: set<string>
    var deleted: set<string>
    var receipts: map<string, string>

    ghost function Contents(): Queue
      reads this
    {
      Queue(bodies, visible, inFlight, deleted, receipts)
    }

    constructor ()
      ensures Contents() == Queue(map[], {}, {}, {}, map[])
    {
      bodies, visible, inFlight, deleted, receipts := map[], {}, {}, {}, map[];
    }

    /** Sends a request; the promise carries the id the queue gave the message. */
    method ScheduleTrip(body: string, id: string, sent: bool) returns (promise: Option<string>)
      requires id != "" && id !in bodies
      modifies this
      ensures Contents() == if sent then Send(old(Contents()), id, body) else old(Contents())
      ensures promise == if sent then Some(id) else None
    {
      if !sent {
        return None;
      }
      bodies := bodies[id := body];
      visible := visible + {id};
      return Some(id);
    }

    method DeleteMessage(handle: string, took: bool)
      modifies this
      ensures Contents() == Delete(old(Contents()), handle, took)
    {
      if took && handle in receipts {
        var id := receipts[handle];
        visible := visible - {id};
        inFlight := inFlight - {id};
        deleted := deleted + {id};
      }
    }

    /** The next request, if a message arrives and parses. One that does not parse
        is deleted on the spot. */
    method PollTripRequest(c: Config, arrival: Option<Arrival>, took: bool) returns (request: Option<TripRequest>)
      requires arrival.Some? ==> arrival.value.id in visible && arrival.value.id in bodies
      modifies this
      ensures arrival.None? ==> request == None && Contents() == old(Contents())
      ensures arrival.Some? ==>
                var Arrival(id, handle) := arrival.value;
                var body := old(bodies)[id];
                if c.parses(body) then
                  && request == Some(TripRequest(MetaOf(c, body, id, handle), body))
                  && Contents() == Take(old(Contents()), id, handle)
                else
                  && request == None
                  && Contents() == Delete(Take(old(Contents()), id, handle), handle, took)
    {
      if arrival.None? {
        return None;
      }
      var Arrival(id, handle) := arrival.value;
      visible := visible - {id};
      inFlight := inFlight + {id};
      receipts := receipts[handle := id];
      var body := bodies[id];
      if !c.parses(body) {
        DeleteMessage(handle, took);
        return None;
      }
      return Some(TripRequest(MetaOf(c, body, id, handle), body));
    }

    method CompleteTrip(response: Meta, took: bool)
      modifies this
      ensures Contents() == Delete(old(Contents()), response.handle, took)
    {
      DeleteMessage(response.handle, took);
    }

    method DiscardTrip(meta: Meta, took: bool)
      modifies this
      ensures Contents() == Delete(old(Contents()), meta.handle, took)
    {
      DeleteMessage(meta.handle, took);
    }
  }

  class TripTable {
    var records: map<string, Record>

    constructor ()
      ensures records == map[]
    {
      records := map[];
    }

    /** Writes the ready record; whether it was written and whether that was
        reported are two things. Without the fields to write it throws first. */
    method PersistCompleteTrip(c: Config, meta: Meta, written: bool, reported: bool) returns (ok: bool)
      requires reported ==> written
      modifies this
      ensures ok == (c.fieldsPresent && reported)
      ensures records == if c.fieldsPresent && written
                         then old(records)[meta.id := Record(Ready, meta.account)] else old(records)
    {
      if !c.fieldsPresent {
        return false;
      }
      if written {
        records := records[meta.id := Record(Ready, meta.account)];
      }
      return reported;
    }

    method PersistDiscardedTrip(meta: Meta, written: bool)
      modifies this
      ensures records == if written then old(records)[meta.id := Record(Failed, meta.account)] else old(records)
    {
      if written {
        records := records[meta.id := Record(Failed, meta.account)];
      }
    }

    /** The status call of a client. */
    method PollTrip(tripId: Option<string>, uid: string) returns (answer: Answer)
      ensures answer == Poll(records, tripId, uid)
      ensures answer.BadRequest? <==> tripId in {None, Some("")}
      ensures answer.Pending? <==> tripId.Some? && tripId.value != "" && tripId.value !in records
      ensures answer.NotAuthorized? || answer.Found? ==>
                && tripId.Some? && tripId.value in records
                && (answer.Found? <==> IEquals(uid, records[tripId.value].account))
                && (answer.Found? ==> answer.status == records[tripId.value].status)
    {
      if tripId.None? || tripId.value == "" {
        return BadRequest;
      }
      if tripId.value !in records {
        return Pending;
      }
      var item := records[tripId.value];
      if !IEquals(uid, item.account) {
        return NotAuthorized;
      }
      return Found(item.status);
    }
  }

  /** The outcomes of the remote calls of one pass. */
  datatype Chances = Chances(arrival: Option<Arrival>, took: bool, written: bool, reported: bool, noted: bool)

  lemma {:induction false} RunSnoc(c: Config, s: State, run: seq<Action>, a: Action)
    requires IsRun(c, s, run) && Enabled(c, After(c, s, run), a)
    ensures IsRun(c, s, run + [a]) && After(c, s, run + [a]) == Step(c, After(c, s, run), a)
    decreases |run|
  {
    if run == [] {
      assert [a][1..] == [] && [] + [a] == [a];
    } else {
      assert (run + [a])[1..] == run[1..] + [a];
      RunSnoc(c, Step(c, s, run[0]), run[1..], a);
    }
  }

  /** Extends a run by one step. */
  lemma OneMore(c: Config, s0: State, run: seq<Action>, s: State, a: Action) returns (longer: seq<Action>)
    requires IsRun(c, s0, run) && After(c, s0, run) == s && Enabled(c, s, a)
    ensures longer == run + [a] && IsRun(c, s0, longer) && After(c, s0, longer) == Step(c, s, a)
  {
    RunSnoc(c, s0, run, a);
    longer := run + [a];
  }

  /** The system as the objects and the other workers make it up. */
  ghost function Now(scheduler: TripScheduler, table: TripTable, workers: seq<Worker>): State
    reads scheduler, table
  {
    State(scheduler.Contents(), table.records, workers)
  }

  // ---------- the steps of one pass ----------

  /** The try block throws. */
  predicate PassThrows(c: Config, body: string, chances: Chances) {
    !c.route(body).Accepted? || !c.fieldsPresent || !chances.reported
  }

  /** What the kept metadata holds when the try block has thrown. */
  function KeptMeta(c: Config, request: TripRequest): Meta {
    if c.route(request.body).Throws? then request.meta else MOVED_FROM
  }

  /** The steps of the try block. */
  function TrySteps(c: Config, body: string, w: nat, chances: Chances): seq<Action> {
    [Optimize(w)]
    + if c.route(body).Throws? then []
      else [Wrap(w)] + if c.route(body).Refused? then [] else PersistSteps(c, w, chances)
  }

  function PersistSteps(c: Config, w: nat, chances: Chances): seq<Action> {
    [Persist(w, c.fieldsPresent && chances.written, c.fieldsPresent && chances.reported)]
    + if c.fieldsPresent && chances.reported then [Complete(w, chances.took)] else []
  }

  /** The steps of the catch block. */
  function CatchSteps(w: nat, chances: Chances): seq<Action> {
    [Discard(w, chances.took), RecordFailure(w, chances.noted)]
  }

  /** The steps of a whole pass, given the body of the message that arrives. */
  function PassSteps(c: Config, body: string, w: nat, chances: Chances): seq<Action> {
    if chances.arrival.None? then []
    else
      var Arrival(id, handle) := chances.arrival.value;
      [Receive(w, id, handle)]
      + if !c.parses(body) then [Reject(w, chances.took)]
        else TrySteps(c, body, w, chances) + if PassThrows(c, body, chances) then CatchSteps(w, chances) else []
  }

  /** One pass of the loop of worker w. What it does to the queue and the table is
      exactly these steps of that worker, which end where they began: idle. */
  method ProcessNext(c: Config, scheduler: TripScheduler, table: TripTable, chances: Chances,
                     ghost w: nat, ghost workers: seq<Worker>)
    returns (ghost run: seq<Action>)
    requires w < |workers| && workers[w] == IDLE
    requires chances.reported ==> chances.written
    requires QueueOk(scheduler.Contents())
    requires chances.arrival.Some? ==>
               && chances.arrival.value.id in scheduler.visible
               && chances.arrival.value.handle != "" && chances.arrival.value.handle !in scheduler.receipts
    modifies scheduler, table
    ensures chances.arrival.None? ==> scheduler.Contents() == old(scheduler.Contents()) && table.records == old(table.records)
    ensures chances.arrival.Some? ==>
              var Arrival(id, handle) := chances.arrival.value;
              var body := old(scheduler.bodies)[id];
              var meta := MetaOf(c, body, id, handle);
              var request := TripRequest(meta, body);
              && scheduler.Contents() == Delete(Take(old(scheduler.Contents()), id, handle),
                                                if c.parses(body) then FinalReceipt(c, request, chances) else handle,
                                                chances.took)
              && table.records == if c.parses(body) then FinalRecords(c, request, chances, old(table.records))
                                  else old(table.records)
    ensures var body := if chances.arrival.Some? then old(scheduler.bodies)[chances.arrival.value.id] else "";
            run == PassSteps(c, body, w, chances)
    ensures var before := old(Now(scheduler, table, workers));
            IsRun(c, before, run) && After(c, before, run) == Now(scheduler, table, workers)
  {
    ghost var s0 := Now(scheduler, table, workers);
    run := [];
    assert workers[w := IDLE] == workers;
    var polled := scheduler.PollTripRequest(c, chances.arrival, chances.took);
    if chances.arrival.None? {
      return;
    }
    var Arrival(id, handle) := chances.arrival.value;
    run := OneMore(c, s0, run, s0, Receive(w, id, handle));
    if polled.None? {
      run := OneMore(c, s0, run, After(c, s0, run), Reject(w, chances.took));
      return;
    }
    var request := polled.value;
    ghost var received := Worker(Routing, id, handle, request.meta, request.meta, MOVED_FROM);
    assert After(c, s0, run) == Now(scheduler, table, workers[w := received]);
    run := ProcessRequest(c, scheduler, table, chances, request, w, workers, received, s0, run);
  }

  /** The receipt under which a request's message is deleted in the end: its own,
      unless the failure comes after the hand-over. */
  function FinalReceipt(c: Config, request: TripRequest, chances: Chances): string {
    if PassThrows(c, request.body, chances) then KeptMeta(c, request).handle else request.meta.handle
  }

  /** The records one pass leaves. */
  function FinalRecords(c: Config, request: TripRequest, chances: Chances, before: map<string, Record>): map<string, Record> {
    var persisted := if c.route(request.body).Accepted? && c.fieldsPresent && chances.written
                     then before[request.meta.id := Record(Ready, request.meta.account)] else before;
    var kept := KeptMeta(c, request);
    if PassThrows(c, request.body, chances) && chances.noted then persisted[kept.id := Record(Failed, kept.account)] else persisted
  }

  /** The rest of the pass, once a request has been handed out. */
  method ProcessRequest(c: Config, scheduler: TripScheduler, table: TripTable, chances: Chances, request: TripRequest,
                        ghost w: nat, ghost workers: seq<Worker>, ghost before: Worker, ghost s0: State,
                        ghost sofar: seq<Action>)
    returns (ghost run: seq<Action>)
    requires w < |workers| && IsRun(c, s0, sofar)
    requires before.stage == Routing && before.request == before.tripmeta == request.meta
    requires After(c, s0, sofar) == Now(scheduler, table, workers[w := before])
    requires before.message in scheduler.bodies && scheduler.bodies[before.message] == request.body
    requires chances.reported ==> chances.written
    modifies scheduler, table
    ensures scheduler.Contents() == Delete(old(scheduler.Contents()), FinalReceipt(c, request, chances), chances.took)
    ensures table.records == FinalRecords(c, request, chances, old(table.records))
    ensures run == sofar + TrySteps(c, request.body, w, chances)
                   + if PassThrows(c, request.body, chances) then CatchSteps(w, chances) else []
    ensures IsRun(c, s0, run) && After(c, s0, run) == Now(scheduler, table, workers[w := IDLE])
  {
    var thrown, tripmeta;
    ghost var k;
    thrown, tripmeta, k, run := TryRoute(c, scheduler, table, chances, request, w, workers, before, s0, sofar);
    if thrown {
      run := HandleFailure(c, scheduler, table, chances, tripmeta, w, workers, k, s0, run);
    }
  }

  /** The body of the try block, up to where it throws. From the hand-over on the
      kept metadata is empty. */
  method TryRoute(c: Config, scheduler: TripScheduler, table: TripTable, chances: Chances, request: TripRequest,
                  ghost w: nat, ghost workers: seq<Worker>, ghost before: Worker, ghost s0: State,
                  ghost sofar: seq<Action>)
    returns (thrown: bool, tripmeta: Meta, ghost k: Worker, ghost run: seq<Action>)
    requires w < |workers| && IsRun(c, s0, sofar)
    requires before.stage == Routing && before.request == before.tripmeta == request.meta
    requires After(c, s0, sofar) == Now(scheduler, table, workers[w := before])
    requires before.message in scheduler.bodies && scheduler.bodies[before.message] == request.body
    requires chances.reported ==> chances.written
    modifies scheduler, table
    ensures thrown == PassThrows(c, request.body, chances)
    ensures tripmeta == KeptMeta(c, request)
    ensures var persists := c.route(request.body).Accepted? && c.fieldsPresent;
            && table.records == (if persists && chances.written
                                 then old(table.records)[request.meta.id := Record(Ready, request.meta.account)]
                                 else old(table.records))
            && scheduler.Contents() == if persists && chances.reported
                                       then Delete(old(scheduler.Contents()), request.meta.handle, chances.took)
                                       else old(scheduler.Contents())
    ensures run == sofar + TrySteps(c, request.body, w, chances)
    ensures IsRun(c, s0, run) && After(c, s0, run) == Now(scheduler, table, workers[w := k])
    ensures if thrown then k.stage == Discarding && k.tripmeta == tripmeta else k == IDLE
  {
    tripmeta := request.meta;
    thrown, run := true, sofar;
    ghost var ws := workers[w := before];
    var outcome := c.route(request.body);
    run := OneMore(c, s0, run, Now(scheduler, table, ws), Optimize(w));
    k := before.(stage := if outcome.Throws? then Discarding else Wrapping);
    assert ws[w := k] == workers[w := k];
    if outcome.Throws? {
      return;
    }
    var response := tripmeta;
    tripmeta := MOVED_FROM;
    run := OneMore(c, s0, run, Now(scheduler, table, workers[w := k]), Wrap(w));
    ghost var wrapped := k.(stage := if outcome.Refused? then Discarding else Persisting,
                            response := response, tripmeta := tripmeta);
    assert workers[w := k][w := wrapped] == workers[w := wrapped];
    k := wrapped;
    if outcome.Refused? {
      return;
    }
    thrown, k, run := PersistAndComplete(c, scheduler, table, chances, response, w, workers, k, s0, run);
  }

  /** Persisting, and completing unless that throws. */
  method PersistAndComplete(c: Config, scheduler: TripScheduler, table: TripTable, chances: Chances, response: Meta,
                            ghost w: nat, ghost workers: seq<Worker>, ghost before: Worker, ghost s0: State,
                            ghost sofar: seq<Action>)
    returns (thrown: bool, ghost k: Worker, ghost run: seq<Action>)
    requires w < |workers| && IsRun(c, s0, sofar)
    requires before.stage == Persisting && before.response == response
    requires After(c, s0, sofar) == Now(scheduler, table, workers[w := before])
    requires chances.reported ==> chances.written
    modifies scheduler, table
    ensures thrown == !(c.fieldsPresent && chances.reported)
    ensures table.records == if c.fieldsPresent && chances.written
                             then old(table.records)[response.id := Record(Ready, response.account)] else old(table.records)
    ensures scheduler.Contents() == if c.fieldsPresent && chances.reported
                                    then Delete(old(scheduler.Contents()), response.handle, chances.took)
                                    else old(scheduler.Contents())
    ensures run == sofar + PersistSteps(c, w, chances)
    ensures IsRun(c, s0, run) && After(c, s0, run) == Now(scheduler, table, workers[w := k])
    ensures k == if thrown then before.(stage := Discarding) else IDLE
  {
    ghost var persist := Persist(w, c.fieldsPresent && chances.written, c.fieldsPresent && chances.reported);
    run := OneMore(c, s0, sofar, Now(scheduler, table, workers[w := before]), persist);
    var ok := table.PersistCompleteTrip(c, response, chances.written, chances.reported);
    k := before.(stage := if ok then Completing else Discarding);
    assert workers[w := before][w := k] == workers[w := k];
    thrown := !ok;
    if ok {
      run := OneMore(c, s0, run, Now(scheduler, table, workers[w := k]), Complete(w, chances.took));
      scheduler.CompleteTrip(response, chances.took);
      assert workers[w := k][w := IDLE] == workers[w := IDLE];
      k := IDLE;
    }
  }

  /** The catch block: delete first, record afterwards, both with whatever the
      kept metadata still holds. */
  method HandleFailure(c: Config, scheduler: TripScheduler, table: TripTable, chances: Chances, tripmeta: Meta,
                       ghost w: nat, ghost workers: seq<Worker>, ghost k: Worker, ghost s0: State,
                       ghost sofar: seq<Action>)
    returns (ghost run: seq<Action>)
    requires w < |workers| && IsRun(c, s0, sofar)
    requires k.stage == Discarding && k.tripmeta == tripmeta
    requires After(c, s0, sofar) == Now(scheduler, table, workers[w := k])
    modifies scheduler, table
    ensures scheduler.Contents() == Delete(old(scheduler.Contents()), tripmeta.handle, chances.took)
    ensures table.records == if chances.noted then old(table.records)[tripmeta.id := Record(Failed, tripmeta.account)]
                             else old(table.records)
    ensures run == sofar + CatchSteps(w, chances)
    ensures IsRun(c, s0, run) && After(c, s0, run) == Now(scheduler, table, workers[w := IDLE])
  {
    run := OneMore(c, s0, sofar, Now(scheduler, table, workers[w := k]), Discard(w, chances.took));
    scheduler.DiscardTrip(tripmeta, chances.took);
    ghost var recording := k.(stage := Recording);
    assert workers[w := k][w := recording] == workers[w := recording];
    run := OneMore(c, s0, run, Now(scheduler, table, workers[w := recording]), RecordFailure(w, chances.noted));
    table.PersistDiscardedTrip(tripmeta, chances.noted);
    assert workers[w := recording][w := IDLE] == workers[w := IDLE];
  }
}
