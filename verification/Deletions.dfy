/** Which messages leave the queue, and for what reasons. */
module Deletions {
  import opened CompleteRuns
  import opened Engine
  import opened Protocol
  import opened RecordFinality
  import opened Wrappers

  // ---------- who deletes a message ----------

  /** The body comes to a delete by a handle it brought itself. */
  ghost predicate DeletesForeign(c: Config, body: string) {
    Verdict(c, body).Some? && c.sentHandle(body).Some? && c.sentHandle(body).value != ""
  }

  ghost predicate NoForeignDeletes(c: Config, batch: map<string, string>) {
    forall m :: m in batch ==> !DeletesForeign(c, batch[m])
  }

  /** Once it is seen through, message m can take message id out of the queue. */
  ghost predicate DeletedBy(c: Config, batch: map<string, string>, m: string, id: string) {
    m in batch && (DeletesForeign(c, batch[m]) || (m == id && Verdict(c, batch[m]).Some? && c.sentHandle(batch[m]).None?))
  }

  /** Message m was routed; if it was accepted, there is a record under its id. */
  ghost predicate SeenThrough(c: Config, s: State, m: string) {
    m in s.queue.bodies
    && (Verdict(c, s.queue.bodies[m]).Some? && Verdict(c, s.queue.bodies[m]).value.status == Ready
        ==> RecordId(c, s.queue.bodies[m], m) in s.records)
  }

  /** The message did not parse, or another one or itself took it away. */
  ghost predicate IsAccountedFor(c: Config, s: State, id: string) {
    && id in s.queue.bodies
    && (!c.parses(s.queue.bodies[id]) || exists m :: DeletedBy(c, s.queue.bodies, m, id) && SeenThrough(c, s, m))
  }

  /** Holds whatever the bodies are: every deletion is accounted for, and a worker
      about to complete has seen its record written. */
  ghost predicate DeletionsOk(c: Config, s: State) {
    && (forall id :: id in s.queue.deleted ==> IsAccountedFor(c, s, id))
    && forall w :: 0 <= w < |s.workers| && s.workers[w].stage == Completing ==> s.workers[w].response.id in s.records
  }

  lemma StaysAccountedFor(c: Config, s: State, t: State, id: string)
    requires Extends(s, t) && IsAccountedFor(c, s, id)
    ensures IsAccountedFor(c, t, id)
  {
    if c.parses(s.queue.bodies[id]) {
      var m :| DeletedBy(c, s.queue.bodies, m, id) && SeenThrough(c, s, m);
      assert DeletedBy(c, t.queue.bodies, m, id) && SeenThrough(c, t, m);
    }
  }

  /** The message a step deletes. */
  lemma DeletedIsAccountedFor(c: Config, s: State, a: Action, id: string)
    requires Inv(c, s) && Enabled(c, s, a) && DeletionsOk(c, s)
    requires id !in s.queue.deleted && id in Step(c, s, a).queue.deleted
    ensures IsAccountedFor(c, s, id)
  {
    var k := s.workers[a.w];
    assert WorkerOk(c, s.queue, k);
    if c.parses(s.queue.bodies[id]) {
      assert DeletedBy(c, s.queue.bodies, k.message, id) && SeenThrough(c, s, k.message);
    }
  }

  lemma StepKeepsDeletions(c: Config, s: State, a: Action)
    requires Inv(c, s) && Enabled(c, s, a) && DeletionsOk(c, s)
    ensures DeletionsOk(c, Step(c, s, a))
  {
    var t := Step(c, s, a);
    StepExtends(c, s, a);
    forall id | id in t.queue.deleted ensures IsAccountedFor(c, t, id) {
      if id !in s.queue.deleted {
        DeletedIsAccountedFor(c, s, a, id);
      }
      StaysAccountedFor(c, s, t, id);
    }
  }

  lemma {:induction false} RunKeepsDeletions(c: Config, s: State, run: seq<Action>)
    requires Inv(c, s) && IsRun(c, s, run) && DeletionsOk(c, s)
    ensures DeletionsOk(c, After(c, s, run))
    decreases |run|
  {
    if run != [] {
      StepKeepsInv(c, s, run[0]);
      StepKeepsDeletions(c, s, run[0]);
      RunKeepsDeletions(c, Step(c, s, run[0]), run[1..]);
    }
  }

  /** Over a batch: a deleted message that parses was deleted by some message. */
  lemma SomeMessageDeletes(c: Config, batch: map<string, string>, s: State, id: string) returns (m: string)
    requires Reachable(c, batch, s) && id in s.queue.deleted
    ensures id in batch && id in s.queue.bodies && s.queue.bodies[id] == batch[id]
    ensures c.parses(batch[id]) ==> DeletedBy(c, batch, m, id) && SeenThrough(c, s, m)
    ensures c.parses(batch[id]) ==> m in s.queue.bodies && s.queue.bodies[m] == batch[m]
  {
    ReachableKeepsInv(c, batch, s);
    var n, run :| EndsIn(c, n, run, s) && Within(run, batch);
    RunKeepsDeletions(c, Initial(n), run);
    m := "";
    if c.parses(batch[id]) {
      m :| DeletedBy(c, s.queue.bodies, m, id) && SeenThrough(c, s, m);
    }
  }

  // ---------- runs that delete ----------

  /** One that does not parse is deleted as it is polled. */
  lemma RejectedDelete(c: Config, batch: map<string, string>, id: string) returns (s: State)
    requires "" !in batch && id in batch && !c.parses(batch[id])
    ensures Reachable(c, batch, s) && id in s.queue.deleted
  {
    var s0 := Initial(1);
    var s1 := Step(c, s0, Schedule(id, batch[id]));
    var s2 := Step(c, s1, Receive(0, id, "a"));
    var run := [Schedule(id, batch[id])] + ([Receive(0, id, "a")] + ([Reject(0, true)] + []));
    RunCons(c, s2, Reject(0, true), []);
    RunCons(c, s1, Receive(0, id, "a"), [Reject(0, true)] + []);
    RunCons(c, s0, Schedule(id, batch[id]), [Receive(0, id, "a")] + ([Reject(0, true)] + []));
    InitialIsReachable(c, batch, 1);
    assert Within(run, batch);
    ReachableGoesOn(c, batch, s0, run);
    s := After(c, s0, run);
  }

  /** A message that is seen through takes another away, or itself. It does so by
      the queue's receipt or by the one it brought, which the queue may have given
      out; whatever the queue gives is fresh and not empty, and nothing more. */
  lemma DeletingRun(c: Config, batch: map<string, string>, id: string, m: string) returns (s: State, unused: string)
    requires "" !in batch && id in batch && c.parses(batch[id]) && DeletedBy(c, batch, m, id)
    ensures Reachable(c, batch, s) && id in s.queue.deleted && s.workers == [IDLE]
    ensures s.records == map[RecordId(c, batch[m], m) := Verdict(c, batch[m]).value]
    ensures s.queue.bodies.Keys == {id, m} && unused != "" && unused !in s.queue.receipts
  {
    if m == id {
      s, unused := OwnDelete(c, batch, id);
    } else {
      s, unused := ForeignDelete(c, batch, id, m);
    }
  }

  /** One that is seen through, by its own receipt. */
  lemma OwnDelete(c: Config, batch: map<string, string>, id: string) returns (s: State, unused: string)
    requires "" !in batch && id in batch && DeletedBy(c, batch, id, id)
    ensures Reachable(c, batch, s) && id in s.queue.deleted && s.workers == [IDLE]
    ensures s.records == map[RecordId(c, batch[id], id) := Verdict(c, batch[id]).value]
    ensures s.queue.bodies.Keys == {id} && unused != "" && unused !in s.queue.receipts
  {
    var handle := OrElse(c.sentHandle(batch[id]), "a");
    var run := WholeWay(c, id, batch[id], 0, handle, true);
    WholeWayRuns(c, Initial(1), id, batch[id], 0, handle, true);
    WholeWayWithin(c, id, 0, handle, true, batch);
    InitialIsReachable(c, batch, 1);
    ReachableGoesOn(c, batch, Initial(1), run);
    s, unused := After(c, Initial(1), run), handle + "+";
  }

  /** A message that brings the receipt handle of another takes that one away. */
  lemma ForeignDelete(c: Config, batch: map<string, string>, id: string, m: string) returns (s: State, unused: string)
    requires "" !in batch && id in batch && m in batch && id != m && c.parses(batch[id]) && DeletesForeign(c, batch[m])
    ensures Reachable(c, batch, s) && id in s.queue.deleted && s.workers == [IDLE]
    ensures s.records == map[RecordId(c, batch[m], m) := Verdict(c, batch[m]).value]
    ensures s.queue.bodies.Keys == {id, m} && unused != "" && unused !in s.queue.receipts
  {
    var h := c.sentHandle(batch[m]).value;
    var held := HeldOnce(c, batch, id, h);
    var end := WholeWay(c, m, batch[m], 0, h + "+", true);
    WholeWayRuns(c, held, m, batch[m], 0, h + "+", true);
    WholeWayWithin(c, m, 0, h + "+", true, batch);
    ReachableGoesOn(c, batch, held, end);
    s, unused := After(c, held, end), h + "++";
  }

  /** One worker was handed a message under receipt h, and died. */
  lemma HeldOnce(c: Config, batch: map<string, string>, id: string, h: string) returns (s: State)
    requires "" !in batch && id in batch && h != ""
    ensures Reachable(c, batch, s) && s.workers == [IDLE] && s.records == map[]
    ensures s.queue.bodies.Keys == {id} && s.queue.receipts == map[h := id]
  {
    var run := [Schedule(id, batch[id])] + ([Receive(0, id, h)] + ([Crash(0)] + []));
    var s0 := Initial(1);
    var s1 := Step(c, s0, Schedule(id, batch[id]));
    var s2 := Step(c, s1, Receive(0, id, h));
    RunCons(c, s2, Crash(0), []);
    RunCons(c, s1, Receive(0, id, h), [Crash(0)] + []);
    RunCons(c, s0, Schedule(id, batch[id]), [Receive(0, id, h)] + ([Crash(0)] + []));
    InitialIsReachable(c, batch, 1);
    assert Within(run, batch);
    ReachableGoesOn(c, batch, s0, run);
    s := After(c, s0, run);
  }

  // ---------- which messages can leave the queue ----------

  ghost predicate IsKept(c: Config, batch: map<string, string>, id: string) {
    (id in batch ==> c.parses(batch[id])) && forall m :: !DeletedBy(c, batch, m, id)
  }

  ghost predicate NeverDeleted(c: Config, batch: map<string, string>, id: string) {
    forall s :: Reachable(c, batch, s) ==> id !in s.queue.deleted
  }

  /** A message can leave the queue exactly when it does not parse, or when it has
      a verdict and is deleted by its own receipt, or when some message with a
      verdict brings a receipt handle along. */
  lemma DeletionsThereCanBe(c: Config, batch: map<string, string>, id: string)
    requires "" !in batch && id in batch
    ensures NeverDeleted(c, batch, id) <==> IsKept(c, batch, id)
  {
    if IsKept(c, batch, id) {
      forall s | Reachable(c, batch, s) ensures id !in s.queue.deleted {
        if id in s.queue.deleted {
          var m := SomeMessageDeletes(c, batch, s, id);
        }
      }
    } else if !c.parses(batch[id]) {
      var s := RejectedDelete(c, batch, id);
    } else {
      var m :| DeletedBy(c, batch, m, id);
      var s, unused := DeletingRun(c, batch, id, m);
    }
  }

  ghost predicate IsRefused(c: Config, body: string) {
    c.parses(body) && Verdict(c, body).None?
  }

  /** A message whose trip routes but whose response is refused (or cannot be
      persisted) stays in the queue, however often it is tried, exactly as long as
      no message with a verdict brings a receipt handle along. */
  lemma RefusedStaysQueuedIff(c: Config, batch: map<string, string>, id: string)
    requires "" !in batch && id in batch && IsRefused(c, batch[id])
    ensures NeverDeleted(c, batch, id) <==> NoForeignDeletes(c, batch)
  {
    DeletionsThereCanBe(c, batch, id);
    assert forall m :: m in batch ==> (DeletedBy(c, batch, m, id) <==> DeletesForeign(c, batch[m]));
  }

  /** ... and its id stays without a record exactly as long as nobody else goes
      under it. */
  lemma RefusedHasNoRecordIff(c: Config, batch: map<string, string>, id: string)
    requires "" !in batch && id in batch && IsRefused(c, batch[id])
    ensures (forall r :: !CanRecord(c, batch, id, r)) <==> NobodyElse(c, batch, id)
  {
    forall r ensures NobodyElse(c, batch, id) ==> !CanRecord(c, batch, id, r) {
      RecordsThereCanBe(c, batch, id, r);
    }
    if m, r :| Explains(c, batch, m, id, r) {
      RecordsThereCanBe(c, batch, id, r);
    }
  }

  // ---------- the reasons ----------

  /** A good reason for a message to be gone. */
  ghost predicate HasReason(c: Config, s: State, id: string) {
    && id in s.queue.bodies
    && var body := s.queue.bodies[id];
       !c.parses(body) || c.route(body).Throws? || HasRecord(s, id, Ready)
  }

  ghost predicate DeletionsHaveReasons(c: Config, batch: map<string, string>) {
    forall s, id :: Reachable(c, batch, s) && id in s.queue.deleted ==> HasReason(c, s, id)
  }

  /** Only ready records can come to stand under the id. */
  ghost predicate OnlyReady(c: Config, batch: map<string, string>, id: string) {
    forall n, r :: Explains(c, batch, n, id, r) ==> r.status == Ready
  }

  /** What deletes message id leaves a ready record under that id, which nothing
      turns into a failed one. */
  ghost predicate LeavesReady(c: Config, batch: map<string, string>, m: string, id: string)
    requires DeletedBy(c, batch, m, id)
  {
    RecordId(c, batch[m], m) == id && Verdict(c, batch[m]).value.status == Ready && OnlyReady(c, batch, id)
  }

  /** Message m deletes message id, which routes, and leaves no ready record for it. */
  ghost predicate Bereaves(c: Config, batch: map<string, string>, m: string, id: string) {
    && id in batch && c.parses(batch[id]) && !c.route(batch[id]).Throws?
    && DeletedBy(c, batch, m, id) && !LeavesReady(c, batch, m, id)
  }

  ghost predicate Justified(c: Config, batch: map<string, string>) {
    forall m, id :: !Bereaves(c, batch, m, id)
  }

  lemma JustifiedHasReason(c: Config, batch: map<string, string>, s: State, id: string)
    requires "" !in batch && Justified(c, batch) && Reachable(c, batch, s) && id in s.queue.deleted
    ensures HasReason(c, s, id)
  {
    ReachableKeepsInv(c, batch, s);
    var m := SomeMessageDeletes(c, batch, s, id);
    if c.parses(batch[id]) && !c.route(batch[id]).Throws? {
      assert !Bereaves(c, batch, m, id);
      var n :| Explains(c, s.queue.bodies, n, id, s.records[id]);
      assert Explains(c, batch, n, id, s.records[id]);
    }
  }

  /** What deletes the message leaves no ready record, or a later message spoils it. */
  lemma UnjustifiedLacksReason(c: Config, batch: map<string, string>, id: string, m: string) returns (s: State)
    requires "" !in batch && Bereaves(c, batch, m, id)
    ensures Reachable(c, batch, s) && id in s.queue.deleted && !HasReason(c, s, id)
  {
    var unused;
    s, unused := DeletingRun(c, batch, id, m);
    ReachableKeepsInv(c, batch, s);
    if RecordId(c, batch[m], m) == id && Verdict(c, batch[m]).value.status == Ready {
      var n, r :| Explains(c, batch, n, id, r) && r.status != Ready;
      var spoil := WholeWay(c, n, batch[n], 0, unused, false);
      WholeWayRuns(c, s, n, batch[n], 0, unused, false);
      WholeWayWithin(c, n, 0, unused, false, batch);
      ReachableGoesOn(c, batch, s, spoil);
      s := After(c, s, spoil);
    }
  }

  /** In every run every deleted message did not parse, threw in routing or has a
      ready record, exactly when whatever deletes a message that routes leaves a
      ready record under its id, which no other message spoils. */
  lemma DeletionsHaveReasonsIff(c: Config, batch: map<string, string>)
    requires "" !in batch
    ensures DeletionsHaveReasons(c, batch) <==> Justified(c, batch)
  {
    if Justified(c, batch) {
      forall s, id | Reachable(c, batch, s) && id in s.queue.deleted ensures HasReason(c, s, id) {
        JustifiedHasReason(c, batch, s, id);
      }
    } else {
      var m, id :| Bereaves(c, batch, m, id);
      var s := UnjustifiedLacksReason(c, batch, id, m);
    }
  }

  // ---------- conditions to check before scheduling ----------

  ghost predicate BringsHandle(c: Config, body: string) {
    c.sentHandle(body).Some? && c.sentHandle(body).value != ""
  }

  /** The message is not exempt from deletion by an empty handle of its own. */
  ghost predicate CanComplete(c: Config, body: string) {
    c.sentHandle(body) != Some("")
  }

  /** Message m takes neither message id nor its record away. */
  ghost predicate LeavesAlone(c: Config, batch: map<string, string>, m: string, id: string)
    requires m in batch && id in batch
  {
    !BringsHandle(c, batch[m]) && (CanComplete(c, batch[id]) ==> RecordId(c, batch[m], m) != id)
  }

  /** Messages leave each other alone, and those that can complete go under their
      own ids. */
  ghost predicate KeepApart(c: Config, batch: map<string, string>) {
    && (forall id, m :: id in batch && m in batch && id != m && c.parses(batch[id]) && c.parses(batch[m])
                        ==> LeavesAlone(c, batch, m, id))
    && forall id :: id in batch && c.parses(batch[id]) && CanComplete(c, batch[id]) ==> RecordId(c, batch[id], id) == id
  }

  /** No request brings a handle along with a different one. */
  ghost predicate NoHandles(c: Config, batch: map<string, string>) {
    forall id, m :: id in batch && m in batch && c.parses(batch[id]) && c.parses(batch[m]) && batch[id] != batch[m]
                    ==> !BringsHandle(c, batch[m])
  }

  ghost predicate ReasonsForEveryEngine(c: Config, batch: map<string, string>) {
    forall route :: DeletionsHaveReasons(c.(route := route), batch)
  }

  lemma KeepApartIsJustified(c: Config, batch: map<string, string>)
    requires if c.fieldsPresent then KeepApart(c, batch) else NoHandles(c, batch)
    ensures Justified(c, batch)
  {
    forall m, id ensures !Bereaves(c, batch, m, id) {
      if Bereaves(c, batch, m, id) {
        if c.fieldsPresent {
          assert m != id ==> LeavesAlone(c, batch, m, id);
          assert forall n, r :: Explains(c, batch, n, id, r) && n != id ==> LeavesAlone(c, batch, n, id);
        }
        assert false;
      }
    }
  }

  /** Routing under which message `fails` throws and all others are accepted. */
  function Failing(fails: Option<string>): string -> Outcome {
    body => if fails == Some(body) then Throws else Accepted
  }

  /** A message that brings a handle, or the id of a message that can complete. */
  lemma NotLeftAloneIsBereaved(c: Config, batch: map<string, string>, m: string, id: string)
    returns (route: string -> Outcome, k: string, lost: string)
    requires c.fieldsPresent && id in batch && m in batch && id != m && c.parses(batch[id]) && c.parses(batch[m])
    requires CanComplete(c, batch[m]) ==> RecordId(c, batch[m], m) == m
    requires !LeavesAlone(c, batch, m, id)
    ensures Bereaves(c.(route := route), batch, k, lost)
  {
    if BringsHandle(c, batch[m]) {
      route, k, lost := Failing(None), m, id;
    } else {
      route, k, lost := Failing(Some(batch[m])), id, id;
      assert batch[m] != batch[id];
      assert Explains(c.(route := route), batch, m, id, Record(Failed, c.account(batch[m])));
    }
  }

  lemma NotApartIsBereaved(c: Config, batch: map<string, string>) returns (route: string -> Outcome, k: string, lost: string)
    requires if c.fieldsPresent then !KeepApart(c, batch) else !NoHandles(c, batch)
    ensures Bereaves(c.(route := route), batch, k, lost)
  {
    if !c.fieldsPresent {
      lost, k :| lost in batch && k in batch && c.parses(batch[lost]) && c.parses(batch[k]) && batch[lost] != batch[k]
                 && BringsHandle(c, batch[k]);
      route := Failing(Some(batch[k]));
    } else if id :| id in batch && c.parses(batch[id]) && CanComplete(c, batch[id]) && RecordId(c, batch[id], id) != id {
      route, k, lost := Failing(None), id, id;
    } else {
      var id, m :| id in batch && m in batch && id != m && c.parses(batch[id]) && c.parses(batch[m]) && !LeavesAlone(c, batch, m, id);
      route, k, lost := NotLeftAloneIsBereaved(c, batch, m, id);
    }
  }

  /** Whatever the engine, all deletions have their reasons exactly when messages
      keep apart; if persisting lacks its fields, exactly when no request brings a
      handle along with a different one. */
  lemma ReasonsForEveryEngineIff(c: Config, batch: map<string, string>)
    requires "" !in batch
    ensures ReasonsForEveryEngine(c, batch) <==> if c.fieldsPresent then KeepApart(c, batch) else NoHandles(c, batch)
  {
    if if c.fieldsPresent then KeepApart(c, batch) else NoHandles(c, batch) {
      forall route ensures DeletionsHaveReasons(c.(route := route), batch) {
        KeepApartIsJustified(c.(route := route), batch);
        DeletionsHaveReasonsIff(c.(route := route), batch);
      }
    } else {
      var route, k, lost := NotApartIsBereaved(c, batch);
      DeletionsHaveReasonsIff(c.(route := route), batch);
    }
  }

  // ---------- plain bodies ----------

  /** Messages with plain bodies neither delete each other nor write each other's
      records. */
  lemma PlainKeepToThemselves(c: Config, batch: map<string, string>, id: string)
    requires AllPlain(c, batch)
    ensures KeepApart(c, batch) && NoHandles(c, batch) && NoForeignDeletes(c, batch) && NobodyElse(c, batch, id)
  {
  }

  /** With plain bodies a deleted message did not parse, failed in routing or has
      a ready record. */
  lemma PlainDeletionsHaveReasons(c: Config, batch: map<string, string>, s: State, id: string)
    requires AllPlain(c, batch) && "" !in batch && Reachable(c, batch, s) && id in s.queue.deleted
    ensures HasReason(c, s, id)
  {
    PlainKeepToThemselves(c, batch, id);
    KeepApartIsJustified(c, batch);
    JustifiedHasReason(c, batch, s, id);
  }

  /** With plain bodies, a refused message never gets a record and never leaves the
      queue. */
  lemma RefusedStaysPending(c: Config, batch: map<string, string>, s: State, id: string)
    requires AllPlain(c, batch) && "" !in batch && Reachable(c, batch, s) && id in s.queue.bodies
    requires IsRefused(c, s.queue.bodies[id])
    ensures id !in s.records && id in s.queue.visible + s.queue.inFlight
  {
    ReachableKeepsInv(c, batch, s);
    PlainKeepToThemselves(c, batch, id);
    RefusedStaysQueuedIff(c, batch, id);
    assert forall m, r :: Explains(c, s.queue.bodies, m, id, r) ==> Explains(c, batch, m, id, r);
  }

  /** Without the fields that persisting reads, no record is ever ready, whatever
      the bodies hold. */
  lemma NothingReadyWithoutFields(c: Config, batch: map<string, string>, s: State, x: string)
    requires Reachable(c, batch, s) && !c.fieldsPresent && x != ""
    ensures !HasRecord(s, x, Ready)
  {
    ReachableKeepsInv(c, batch, s);
    if x in s.records {
      var m :| Explains(c, s.queue.bodies, m, x, s.records[x]);
    }
  }
}
