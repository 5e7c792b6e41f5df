/** The background routing of trips as interleaved atomic steps: any number of
    workers, an at-least-once queue of trip requests and a table of trip
    records. Every outcome that lies outside the program (which message arrives,
    whether a write or a delete took effect, what was reported, when a worker
    dies or a message times out) is part of the action, so a run is a list of
    actions and a property of all runs covers every outcome. */
module Protocol {
  import opened Engine
  import opened Wrappers

  /** What is fixed over a run: how message bodies read, what routing makes of
      them (the engine is deterministic), and whether the response holds the
      fields that are read when it is persisted. A body may carry a trip id and a
      receipt handle of its own. */
  datatype Config = Config(
    parses: string -> bool,
    sentId: string -> Option<string>,
    sentHandle: string -> Option<string>,
    account: string -> string,
    route: string -> Outcome,
    fieldsPresent: bool)

  datatype Queue = Queue(
    bodies: map<string, string>,
    visible: set<string>,
    inFlight: set<string>,
    deleted: set<string>,
    receipts: map<string, string>)

  datatype Status = Ready | Failed

  datatype Record = Record(status: Status, account: string)

  /** The metadata of a trip; all its strings are empty once it is moved from. */
  datatype Meta = Meta(id: string, handle: string, account: string)

  const MOVED_FROM := Meta("", "", "")

  /** What was sent along wins over what the queue gives. */
  function OrElse(sent: Option<string>, given: string): string {
    if sent.Some? then sent.value else given
  }

  /** The id a message's record goes under. */
  function RecordId(c: Config, body: string, id: string): string {
    OrElse(c.sentId(body), id)
  }

  /** The metadata a polled request carries. */
  function MetaOf(c: Config, body: string, id: string, handle: string): Meta {
    Meta(RecordId(c, body, id), OrElse(c.sentHandle(body), handle), c.account(body))
  }

  /** Where a worker is in its loop. */
  datatype Stage = Idle | Rejecting | Routing | Wrapping | Persisting | Completing | Discarding | Recording

  /** `message` and `receipt` are the queue's own; `request` is the metadata read
      from the request, `tripmeta` the copy kept for the failure path, `response`
      the metadata inside the response. */
  datatype Worker = Worker(
    stage: Stage,
    message: string,
    receipt: string,
    request: Meta,
    tripmeta: Meta,
    response: Meta)

  const IDLE := Worker(Idle, "", "", MOVED_FROM, MOVED_FROM, MOVED_FROM)

  datatype State = State(queue: Queue, records: map<string, Record>, workers: seq<Worker>)

  datatype Action =
    | Schedule(id: string, body: string)
    | Receive(w: nat, id: string, handle: string)
    | Expire(id: string)
    | Reject(w: nat, took: bool)
    | Optimize(w: nat)
    | Wrap(w: nat)
    | Persist(w: nat, written: bool, reported: bool)
    | Complete(w: nat, took: bool)
    | Discard(w: nat, took: bool)
    | RecordFailure(w: nat, written: bool)
    | Crash(w: nat)

  // ---------- the queue ----------

  /** A delete by receipt handle. One that is refused, or comes with a handle that
      was never given out, leaves the queue as it was. */
  function Delete(q: Queue, handle: string, took: bool): Queue {
    if !took || handle !in q.receipts then q
    else
      var id := q.receipts[handle];
      q.(visible := q.visible - {id}, inFlight := q.inFlight - {id}, deleted := q.deleted + {id})
  }

  function Send(q: Queue, id: string, body: string): Queue {
    q.(bodies := q.bodies[id := body], visible := q.visible + {id})
  }

  function Take(q: Queue, id: string, handle: string): Queue {
    q.(visible := q.visible - {id}, inFlight := q.inFlight + {id}, receipts := q.receipts[handle := id])
  }

  function TimeOut(q: Queue, id: string): Queue {
    q.(visible := q.visible + {id}, inFlight := q.inFlight - {id})
  }

  // ---------- steps ----------

  /** A worker that acts is in the stage the action belongs to. */
  ghost predicate At(s: State, w: nat, stage: Stage) {
    w < |s.workers| && s.workers[w].stage == stage
  }

  ghost predicate Enabled(c: Config, s: State, a: Action) {
    match a
    case Schedule(id, body) => id != "" && id !in s.queue.bodies
    case Receive(w, id, handle) =>
      At(s, w, Idle) && id in s.queue.visible && id in s.queue.bodies && handle != "" && handle !in s.queue.receipts
    case Expire(id) => id in s.queue.inFlight
    case Reject(w, took) => At(s, w, Rejecting)
    case Optimize(w) => At(s, w, Routing) && s.workers[w].message in s.queue.bodies
    case Wrap(w) => At(s, w, Wrapping) && s.workers[w].message in s.queue.bodies
    case Persist(w, written, reported) =>
      At(s, w, Persisting) && (written ==> c.fieldsPresent) && (reported ==> written)
    case Complete(w, took) => At(s, w, Completing)
    case Discard(w, took) => At(s, w, Discarding)
    case RecordFailure(w, written) => At(s, w, Recording)
    case Crash(w) => w < |s.workers|
  }

  ghost function With(s: State, w: nat, worker: Worker): State
    requires w < |s.workers|
  {
    s.(workers := s.workers[w := worker])
  }

  ghost function Step(c: Config, s: State, a: Action): State
    requires Enabled(c, s, a)
  {
    match a
    case Schedule(id, body) => s.(queue := Send(s.queue, id, body))
    case Receive(w, id, handle) =>
      var body := s.queue.bodies[id];
      var meta := MetaOf(c, body, id, handle);
      var worker := if c.parses(body) then Worker(Routing, id, handle, meta, meta, MOVED_FROM)
                    else Worker(Rejecting, id, handle, meta, MOVED_FROM, MOVED_FROM);
      With(s, w, worker).(queue := Take(s.queue, id, handle))
    case Expire(id) => s.(queue := TimeOut(s.queue, id))
    case Reject(w, took) => With(s, w, IDLE).(queue := Delete(s.queue, s.workers[w].receipt, took))
    case Optimize(w) =>
      var worker := s.workers[w];
      var throws := c.route(s.queue.bodies[worker.message]).Throws?;
      With(s, w, worker.(stage := if throws then Discarding else Wrapping))
    case Wrap(w) =>
      var worker := s.workers[w];
      var accepted := c.route(s.queue.bodies[worker.message]).Accepted?;
      With(s, w, worker.(stage := if accepted then Persisting else Discarding,
                         response := worker.tripmeta, tripmeta := MOVED_FROM))
    case Persist(w, written, reported) =>
      var worker := s.workers[w];
      var record := Record(Ready, worker.response.account);
      With(s, w, worker.(stage := if reported then Completing else Discarding))
      .(records := if written then s.records[worker.response.id := record] else s.records)
    case Complete(w, took) => With(s, w, IDLE).(queue := Delete(s.queue, s.workers[w].response.handle, took))
    case Discard(w, took) =>
      With(s, w, s.workers[w].(stage := Recording)).(queue := Delete(s.queue, s.workers[w].tripmeta.handle, took))
    case RecordFailure(w, written) =>
      var meta := s.workers[w].tripmeta;
      With(s, w, IDLE)
      .(records := if written then s.records[meta.id := Record(Failed, meta.account)] else s.records)
    case Crash(w) => With(s, w, IDLE)
  }

  // ---------- runs ----------

  ghost function Initial(workers: nat): State {
    State(Queue(map[], {}, {}, {}, map[]), map[], seq(workers, i => IDLE))
  }

  ghost predicate IsRun(c: Config, s: State, run: seq<Action>)
    decreases |run|
  {
    run == [] || (Enabled(c, s, run[0]) && IsRun(c, Step(c, s, run[0]), run[1..]))
  }

  ghost function After(c: Config, s: State, run: seq<Action>): State
    requires IsRun(c, s, run)
    decreases |run|
  {
    if run == [] then s else After(c, Step(c, s, run[0]), run[1..])
  }

  // ---------- the invariant ----------

  /** Every message is in exactly one place, and every receipt names a message. */
  ghost predicate QueueOk(q: Queue) {
    && q.visible + q.inFlight + q.deleted == q.bodies.Keys
    && q.visible !! q.inFlight !! q.deleted
    && "" !in q.bodies && "" !in q.receipts
    && forall h :: h in q.receipts ==> q.receipts[h] in q.bodies
  }

  /** The kept copy is either still the request's or moved from; only routing
      itself throws before the move. */
  ghost predicate FailureOk(c: Config, q: Queue, k: Worker)
    requires k.message in q.bodies
  {
    k.tripmeta == if c.route(q.bodies[k.message]).Throws? then k.request else MOVED_FROM
  }

  ghost predicate WorkerOk(c: Config, q: Queue, k: Worker) {
    k.stage != Idle ==>
      && k.message in q.bodies && k.receipt in q.receipts && q.receipts[k.receipt] == k.message
      && var body := q.bodies[k.message];
      && k.request == MetaOf(c, body, k.message, k.receipt)
      && (k.stage.Rejecting? <==> !c.parses(body))
      && match k.stage
         case Idle => true
         case Rejecting => true
         case Routing => k.tripmeta == k.request
         case Wrapping => k.tripmeta == k.request && !c.route(body).Throws?
         case Persisting => k.tripmeta == MOVED_FROM && k.response == k.request && c.route(body).Accepted?
         case Completing => k.response == k.request && c.route(body).Accepted? && c.fieldsPresent
         case Discarding => FailureOk(c, q, k)
         case Recording => FailureOk(c, q, k)
  }

  /** The record a message leaves behind when its routing is seen through. */
  function Verdict(c: Config, body: string): Option<Record> {
    if !c.parses(body) then None
    else match c.route(body)
         case Throws => Some(Record(Failed, c.account(body)))
         case Refused => None
         case Accepted => if c.fieldsPresent then Some(Record(Ready, c.account(body))) else None
  }

  /** Message m is one that leaves record r under id x. */
  ghost predicate Explains(c: Config, bodies: map<string, string>, m: string, x: string, r: Record) {
    m in bodies && RecordId(c, bodies[m], m) == x && Verdict(c, bodies[m]) == Some(r)
  }

  ghost predicate WorkersOk(c: Config, s: State) {
    forall w :: 0 <= w < |s.workers| ==> WorkerOk(c, s.queue, s.workers[w])
  }

  ghost predicate RecordsOk(c: Config, s: State) {
    forall x :: x in s.records && x != "" ==> exists m :: Explains(c, s.queue.bodies, m, x, s.records[x])
  }

  /** Holds of every message body whatsoever. */
  ghost predicate Inv(c: Config, s: State) {
    QueueOk(s.queue) && WorkersOk(c, s) && RecordsOk(c, s)
  }

  /** Bodies and receipts are written once, and no record is ever taken away. */
  ghost predicate Extends(s: State, t: State) {
    && (forall id :: id in s.queue.bodies ==> id in t.queue.bodies && t.queue.bodies[id] == s.queue.bodies[id])
    && (forall h :: h in s.queue.receipts ==> h in t.queue.receipts && t.queue.receipts[h] == s.queue.receipts[h])
    && (forall x :: x in s.records ==> x in t.records)
    && |t.workers| == |s.workers|
  }

  lemma StepKeepsQueue(c: Config, s: State, a: Action)
    requires Inv(c, s) && Enabled(c, s, a)
    ensures QueueOk(Step(c, s, a).queue)
  {
  }

  lemma StepExtends(c: Config, s: State, a: Action)
    requires Enabled(c, s, a)
    ensures Extends(s, Step(c, s, a))
  {
  }

  lemma MoreMessagesKeepWorker(c: Config, s: State, t: State, k: Worker)
    requires WorkerOk(c, s.queue, k) && Extends(s, t)
    ensures WorkerOk(c, t.queue, k)
  {
  }

  /** The worker that acts. */
  lemma ActorStaysOk(c: Config, s: State, a: Action)
    requires Inv(c, s) && Enabled(c, s, a) && !a.Schedule? && !a.Expire?
    ensures WorkerOk(c, s.queue, s.workers[a.w])
    ensures WorkerOk(c, Step(c, s, a).queue, Step(c, s, a).workers[a.w])
  {
  }

  lemma StepKeepsWorkers(c: Config, s: State, a: Action)
    requires Inv(c, s) && Enabled(c, s, a)
    ensures WorkersOk(c, Step(c, s, a))
  {
    var t := Step(c, s, a);
    StepExtends(c, s, a);
    forall w | 0 <= w < |t.workers| ensures WorkerOk(c, t.queue, t.workers[w]) {
      if !a.Schedule? && !a.Expire? && w == a.w {
        ActorStaysOk(c, s, a);
      } else {
        assert t.workers[w] == s.workers[w];
        MoreMessagesKeepWorker(c, s, t, s.workers[w]);
      }
    }
  }

  /** The records a step leaves as they were are still explained, and the one it
      writes is explained by the worker's message. */
  lemma StepKeepsRecords(c: Config, s: State, a: Action)
    requires Inv(c, s) && Enabled(c, s, a)
    ensures RecordsOk(c, Step(c, s, a))
  {
    var t := Step(c, s, a);
    StepExtends(c, s, a);
    forall x | x in t.records && x != "" ensures exists m :: Explains(c, t.queue.bodies, m, x, t.records[x]) {
      if x in s.records && t.records[x] == s.records[x] {
        var m :| Explains(c, s.queue.bodies, m, x, s.records[x]);
        assert Explains(c, t.queue.bodies, m, x, t.records[x]);
      } else {
        assert WorkerOk(c, s.queue, s.workers[a.w]);
        assert Explains(c, t.queue.bodies, s.workers[a.w].message, x, t.records[x]);
      }
    }
  }

  lemma StepKeepsInv(c: Config, s: State, a: Action)
    requires Inv(c, s) && Enabled(c, s, a)
    ensures Inv(c, Step(c, s, a)) && Extends(s, Step(c, s, a))
  {
    StepKeepsQueue(c, s, a);
    StepExtends(c, s, a);
    StepKeepsRecords(c, s, a);
    StepKeepsWorkers(c, s, a);
  }

  // ---------- every run ----------

  lemma {:induction false} RunKeepsInv(c: Config, s: State, run: seq<Action>)
    requires Inv(c, s) && IsRun(c, s, run)
    ensures Inv(c, After(c, s, run)) && Extends(s, After(c, s, run))
    decreases |run|
  {
    if run != [] {
      StepKeepsInv(c, s, run[0]);
      RunKeepsInv(c, Step(c, s, run[0]), run[1..]);
    }
  }

  lemma {:induction false} RunAppend(c: Config, s: State, a: seq<Action>, b: seq<Action>)
    requires IsRun(c, s, a) && IsRun(c, After(c, s, a), b)
    ensures IsRun(c, s, a + b) && After(c, s, a + b) == After(c, After(c, s, a), b)
    decreases |a|
  {
    if a == [] {
      assert a + b == b;
    } else {
      assert (a + b)[1..] == a[1..] + b;
      RunAppend(c, Step(c, s, a[0]), a[1..], b);
    }
  }

  lemma RunCons(c: Config, s: State, a: Action, rest: seq<Action>)
    requires Enabled(c, s, a) && IsRun(c, Step(c, s, a), rest)
    ensures IsRun(c, s, [a] + rest) && After(c, s, [a] + rest) == After(c, Step(c, s, a), rest)
  {
    assert ([a] + rest)[1..] == rest;
  }

  /** The run schedules messages of batch only. */
  ghost predicate Within(run: seq<Action>, batch: map<string, string>) {
    forall i :: 0 <= i < |run| && run[i].Schedule? ==> run[i].id in batch && batch[run[i].id] == run[i].body
  }

  lemma {:induction false} BodiesStayWithin(c: Config, s: State, run: seq<Action>, batch: map<string, string>)
    requires IsRun(c, s, run) && Within(run, batch)
    requires forall m :: m in s.queue.bodies ==> m in batch && batch[m] == s.queue.bodies[m]
    ensures forall m :: m in After(c, s, run).queue.bodies ==> m in batch && batch[m] == After(c, s, run).queue.bodies[m]
    decreases |run|
  {
    if run != [] {
      var a := run[0];
      assert a.Schedule? ==> a.id in batch && batch[a.id] == a.body;
      assert Within(run[1..], batch);
      BodiesStayWithin(c, Step(c, s, a), run[1..], batch);
    }
  }

  ghost predicate EndsIn(c: Config, workers: nat, run: seq<Action>, s: State) {
    IsRun(c, Initial(workers), run) && After(c, Initial(workers), run) == s
  }

  /** States some number of workers can get into when the messages of batch, and no
      others, are scheduled. */
  ghost predicate Reachable(c: Config, batch: map<string, string>, s: State) {
    exists n, run :: EndsIn(c, n, run, s) && Within(run, batch)
  }

  lemma ReachableKeepsInv(c: Config, batch: map<string, string>, s: State)
    requires Reachable(c, batch, s)
    ensures Inv(c, s)
    ensures forall m :: m in s.queue.bodies ==> m in batch && batch[m] == s.queue.bodies[m]
  {
    var n, run :| EndsIn(c, n, run, s) && Within(run, batch);
    RunKeepsInv(c, Initial(n), run);
    BodiesStayWithin(c, Initial(n), run, batch);
  }

  lemma ReachableGoesOn(c: Config, batch: map<string, string>, s: State, future: seq<Action>)
    requires Reachable(c, batch, s) && IsRun(c, s, future) && Within(future, batch)
    ensures Reachable(c, batch, After(c, s, future))
  {
    var n, run :| EndsIn(c, n, run, s) && Within(run, batch);
    RunAppend(c, Initial(n), run, future);
    assert EndsIn(c, n, run + future, After(c, s, future));
  }

  lemma InitialIsReachable(c: Config, batch: map<string, string>, workers: nat)
    ensures Reachable(c, batch, Initial(workers))
  {
    assert EndsIn(c, workers, [], Initial(workers));
  }

  ghost function Scheduled(run: seq<Action>): set<string> {
    if run == [] then {}
    else (if run[0].Schedule? then {run[0].id} else {}) + Scheduled(run[1..])
  }

  lemma {:induction false} BodiesAreScheduled(c: Config, s: State, run: seq<Action>)
    requires IsRun(c, s, run)
    ensures After(c, s, run).queue.bodies.Keys == s.queue.bodies.Keys + Scheduled(run)
    decreases |run|
  {
    if run != [] {
      StepSchedules(c, s, run[0]);
      BodiesAreScheduled(c, Step(c, s, run[0]), run[1..]);
    }
  }

  lemma StepSchedules(c: Config, s: State, a: Action)
    requires Enabled(c, s, a)
    ensures Step(c, s, a).queue.bodies.Keys == s.queue.bodies.Keys + if a.Schedule? then {a.id} else {}
  {
  }

  /** No message is lost or doubled, whatever the bodies hold: each one scheduled
      is exactly one of visible, in flight and deleted. */
  lemma MessagesAreConserved(c: Config, workers: nat, run: seq<Action>)
    requires IsRun(c, Initial(workers), run)
    ensures var q := After(c, Initial(workers), run).queue;
            q.visible + q.inFlight + q.deleted == Scheduled(run) && q.visible !! q.inFlight !! q.deleted
  {
    RunKeepsInv(c, Initial(workers), run);
    BodiesAreScheduled(c, Initial(workers), run);
  }

  ghost predicate HasRecord(s: State, id: string, status: Status) {
    id in s.records && s.records[id].status == status
  }
}
