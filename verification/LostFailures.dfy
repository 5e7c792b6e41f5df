/** What a delete that fails leads to, and how a failure can be lost. */
module LostFailures {
  import opened CompleteRuns
  import opened Protocol
  import opened RecordFinality

  ghost predicate IsRefusedDelete(a: Action) {
    (a.Reject? || a.Complete? || a.Discard?) && !a.took
  }

  /** A delete that did not take leaves the message in flight, from where any idle
      worker can get it again. */
  lemma FailedDeleteIsTriedAgain(c: Config, batch: map<string, string>, s: State, a: Action, id: string, w: nat, handle: string)
    requires Reachable(c, batch, s) && Enabled(c, s, a) && IsRefusedDelete(a) && id in s.queue.inFlight
    requires At(Step(c, s, a), w, Idle) && handle != "" && handle !in s.queue.receipts
    ensures Step(c, s, a).queue == s.queue && id in s.queue.bodies
    ensures var again := [Expire(id), Receive(w, id, handle)];
            && IsRun(c, Step(c, s, a), again)
            && At(After(c, Step(c, s, a), again), w, if c.parses(s.queue.bodies[id]) then Routing else Rejecting)
            && After(c, Step(c, s, a), again).workers[w].message == id
  {
    ReachableKeepsInv(c, batch, s);
    var t := Step(c, s, a);
    assert id in t.queue.bodies;
    var u := Step(c, t, Expire(id));
    RunCons(c, u, Receive(w, id, handle), []);
    RunCons(c, t, Expire(id), [Receive(w, id, handle)]);
    assert [Expire(id)] + [Receive(w, id, handle)] == [Expire(id), Receive(w, id, handle)];
    assert [Receive(w, id, handle)] + [] == [Receive(w, id, handle)];
  }

  /** Deleted, without a record, and held by no worker. */
  ghost predicate Forgotten(s: State, id: string) {
    && id in s.queue.deleted && id !in s.records
    && forall w :: 0 <= w < |s.workers| ==> s.workers[w].stage == Idle || s.workers[w].message != id
  }

  /** A step that writes a record under an id acts for a message that goes under it. */
  lemma WritesForItsMessage(c: Config, s: State, a: Action, id: string)
    requires Inv(c, s) && Enabled(c, s, a) && id != "" && id !in s.records && id in Step(c, s, a).records
    ensures a.Persist? || a.RecordFailure?
    ensures exists r :: Explains(c, s.queue.bodies, s.workers[a.w].message, id, r)
  {
    var k := s.workers[a.w];
    assert WorkerOk(c, s.queue, k);
    assert Explains(c, s.queue.bodies, k.message, id, Step(c, s, a).records[id]);
  }

  lemma StepKeepsForgotten(c: Config, s: State, a: Action, id: string)
    requires Inv(c, s) && Enabled(c, s, a) && Forgotten(s, id) && NobodyElse(c, s.queue.bodies, id)
    ensures Forgotten(Step(c, s, a), id)
  {
    if id in Step(c, s, a).records {
      WritesForItsMessage(c, s, a, id);
    }
  }

  lemma {:induction false} ForgottenForEver(c: Config, s: State, future: seq<Action>, id: string)
    requires Inv(c, s) && IsRun(c, s, future) && Forgotten(s, id)
    requires NobodyElse(c, After(c, s, future).queue.bodies, id)
    ensures Forgotten(After(c, s, future), id)
    decreases |future|
  {
    RunKeepsInv(c, s, future);
    if future != [] {
      StepKeepsInv(c, s, future[0]);
      assert forall m, r :: Explains(c, s.queue.bodies, m, id, r) ==> Explains(c, After(c, s, future).queue.bodies, m, id, r);
      StepKeepsForgotten(c, s, future[0], id);
      ForgottenForEver(c, Step(c, s, future[0]), future[1..], id);
    }
  }

  ghost function LosingEnd(): seq<Action> {
    [Optimize(0)] + ([Discard(0, true)] + ([Crash(0)] + []))
  }

  ghost function LosingRun(id: string, body: string, handle: string): seq<Action> {
    [Schedule(id, body)] + ([Receive(0, id, handle)] + LosingEnd())
  }

  /** Routing throws, the message is deleted, the worker dies. */
  lemma LosingEndForgets(c: Config, s: State)
    requires |s.workers| == 1 && At(s, 0, Routing) && s.records == map[]
    requires var k := s.workers[0];
             && k.tripmeta == k.request && k.message in s.queue.bodies && c.route(s.queue.bodies[k.message]).Throws?
             && k.request.handle in s.queue.receipts && s.queue.receipts[k.request.handle] == k.message
    ensures IsRun(c, s, LosingEnd())
    ensures var t := After(c, s, LosingEnd());
            Forgotten(t, s.workers[0].message) && t.workers == [IDLE] && t.records == map[]
            && t.queue.bodies == s.queue.bodies && t.queue.receipts == s.queue.receipts
  {
    var s3 := Step(c, s, Optimize(0));
    var s4 := Step(c, s3, Discard(0, true));
    var s5 := Step(c, s4, Crash(0));
    RunCons(c, s4, Crash(0), []);
    RunCons(c, s3, Discard(0, true), [Crash(0)] + []);
    RunCons(c, s, Optimize(0), [Discard(0, true)] + ([Crash(0)] + []));
  }

  lemma LosingRunForgets(c: Config, batch: map<string, string>, id: string, handle: string)
    requires "" !in batch && id in batch && handle != "" && c.parses(batch[id]) && c.route(batch[id]).Throws? && IsPlain(c, batch[id])
    ensures IsRun(c, Initial(1), LosingRun(id, batch[id], handle))
    ensures var s := After(c, Initial(1), LosingRun(id, batch[id], handle));
            && Reachable(c, batch, s) && Forgotten(s, id) && s.workers == [IDLE] && s.records == map[]
            && s.queue.bodies == map[id := batch[id]] && s.queue.receipts == map[handle := id]
  {
    var s0 := Initial(1);
    var s1 := Step(c, s0, Schedule(id, batch[id]));
    var s2 := Step(c, s1, Receive(0, id, handle));
    LosingEndForgets(c, s2);
    RunCons(c, s1, Receive(0, id, handle), LosingEnd());
    RunCons(c, s0, Schedule(id, batch[id]), [Receive(0, id, handle)] + LosingEnd());
    InitialIsReachable(c, batch, 1);
    assert Within(LosingRun(id, batch[id], handle), batch);
    ReachableGoesOn(c, batch, s0, LosingRun(id, batch[id], handle));
  }

  ghost predicate NeverRecorded(c: Config, batch: map<string, string>, s: State, id: string) {
    forall future :: IsRun(c, s, future) && Within(future, batch) ==> id !in After(c, s, future).records
  }

  /** The failure path deletes first and records afterwards: a crash in between
      loses the failure. The trip then stays pending for good, exactly unless some
      other message with a verdict goes under its id. */
  lemma CrashLosesAFailureIff(c: Config, batch: map<string, string>, id: string, handle: string)
    requires "" !in batch && id in batch && handle != "" && c.parses(batch[id]) && c.route(batch[id]).Throws? && IsPlain(c, batch[id])
    ensures IsRun(c, Initial(1), LosingRun(id, batch[id], handle))
    ensures var s := After(c, Initial(1), LosingRun(id, batch[id], handle));
            id in s.queue.deleted && (NeverRecorded(c, batch, s, id) <==> NobodyElse(c, batch, id))
  {
    LosingRunForgets(c, batch, id, handle);
    var s := After(c, Initial(1), LosingRun(id, batch[id], handle));
    if NobodyElse(c, batch, id) {
      forall future | IsRun(c, s, future) && Within(future, batch) ensures id !in After(c, s, future).records {
        ReachableKeepsInv(c, batch, s);
        BodiesStayWithin(c, s, future, batch);
        assert forall m, r :: Explains(c, After(c, s, future).queue.bodies, m, id, r) ==> Explains(c, batch, m, id, r);
        ForgottenForEver(c, s, future, id);
      }
    } else {
      var m, r :| Explains(c, batch, m, id, r) && m != id;
      var future := WholeWay(c, m, batch[m], 0, handle + "+", false);
      WholeWayRuns(c, s, m, batch[m], 0, handle + "+", false);
      WholeWayWithin(c, m, 0, handle + "+", false, batch);
      assert id in After(c, s, future).records;
    }
  }
}
