/** Runs that see a message through, from its scheduling to its record. */
module CompleteRuns {
  import opened Protocol

  // ---------- seeing a message through ----------

  /** The undisturbed end of a routed message, from the optimisation on. */
  ghost function Ending(c: Config, body: string, w: nat, took: bool): seq<Action> {
    if c.route(body).Throws?
    then [Optimize(w)] + ([Discard(w, took)] + ([RecordFailure(w, true)] + []))
    else [Optimize(w)] + ([Wrap(w)] + ([Persist(w, true, true)] + ([Complete(w, took)] + [])))
  }

  lemma FailingEnd(c: Config, s: State, w: nat, took: bool)
    requires At(s, w, Routing) && s.workers[w].message in s.queue.bodies
    requires s.workers[w].tripmeta == s.workers[w].request
    requires c.route(s.queue.bodies[s.workers[w].message]).Throws?
    ensures var k := s.workers[w];
            var end := Ending(c, s.queue.bodies[k.message], w, took);
            && IsRun(c, s, end)
            && After(c, s, end) == State(Delete(s.queue, k.request.handle, took),
                                         s.records[k.request.id := Record(Failed, k.request.account)],
                                         s.workers[w := IDLE])
  {
    var s1 := Step(c, s, Optimize(w));
    var s2 := Step(c, s1, Discard(w, took));
    var s3 := Step(c, s2, RecordFailure(w, true));
    RunCons(c, s2, RecordFailure(w, true), []);
    RunCons(c, s1, Discard(w, took), [RecordFailure(w, true)] + []);
    RunCons(c, s, Optimize(w), [Discard(w, took)] + ([RecordFailure(w, true)] + []));
  }

  lemma AnsweringEnd(c: Config, s: State, w: nat, took: bool)
    requires At(s, w, Routing) && s.workers[w].message in s.queue.bodies
    requires s.workers[w].tripmeta == s.workers[w].request
    requires c.route(s.queue.bodies[s.workers[w].message]).Accepted? && c.fieldsPresent
    ensures var k := s.workers[w];
            var end := Ending(c, s.queue.bodies[k.message], w, took);
            && IsRun(c, s, end)
            && After(c, s, end) == State(Delete(s.queue, k.request.handle, took),
                                         s.records[k.request.id := Record(Ready, k.request.account)],
                                         s.workers[w := IDLE])
  {
    var s1 := Step(c, s, Optimize(w));
    var s2 := Step(c, s1, Wrap(w));
    var s3 := Step(c, s2, Persist(w, true, true));
    var s4 := Step(c, s3, Complete(w, took));
    RunCons(c, s3, Complete(w, took), []);
    RunCons(c, s2, Persist(w, true, true), [Complete(w, took)] + []);
    RunCons(c, s1, Wrap(w), [Persist(w, true, true)] + ([Complete(w, took)] + []));
    RunCons(c, s, Optimize(w), [Wrap(w)] + ([Persist(w, true, true)] + ([Complete(w, took)] + [])));
  }

  /** Scheduling a message, handing it to worker w and seeing it through. */
  ghost function WholeWay(c: Config, m: string, body: string, w: nat, handle: string, took: bool): seq<Action> {
    [Schedule(m, body)] + ([Receive(w, m, handle)] + Ending(c, body, w, took))
  }

  /** A message with a verdict can always be brought to its record. */
  lemma WholeWayRuns(c: Config, s: State, m: string, body: string, w: nat, handle: string, took: bool)
    requires At(s, w, Idle) && m != "" && m !in s.queue.bodies && handle != "" && handle !in s.queue.receipts
    requires Verdict(c, body).Some?
    ensures var run := WholeWay(c, m, body, w, handle, took);
            var meta := MetaOf(c, body, m, handle);
            && IsRun(c, s, run)
            && var t := After(c, s, run);
            && t.records == s.records[meta.id := Verdict(c, body).value]
            && t.workers == s.workers[w := IDLE]
            && t.queue == Delete(Take(Send(s.queue, m, body), m, handle), meta.handle, took)
  {
    var s1 := Step(c, s, Schedule(m, body));
    var s2 := Step(c, s1, Receive(w, m, handle));
    assert s2.workers[w].message == m && s2.queue.bodies[m] == body;
    if c.route(body).Throws? {
      FailingEnd(c, s2, w, took);
    } else {
      AnsweringEnd(c, s2, w, took);
    }
    assert s2.workers[w := IDLE] == s.workers[w := IDLE];
    RunCons(c, s1, Receive(w, m, handle), Ending(c, body, w, took));
    RunCons(c, s, Schedule(m, body), [Receive(w, m, handle)] + Ending(c, body, w, took));
  }

  lemma WholeWayWithin(c: Config, m: string, w: nat, handle: string, took: bool, batch: map<string, string>)
    requires m in batch
    ensures Within(WholeWay(c, m, batch[m], w, handle, took), batch)
  {
  }

  /** From any reachable state in which a worker has been handed an accepted trip,
      there is a run to its ready record. If the body carries no handle of its
      own, the message is deleted at its end. */
  lemma AnUndisturbedTripIsAnswered(c: Config, batch: map<string, string>, s: State, w: nat)
    requires Reachable(c, batch, s) && At(s, w, Routing) && c.fieldsPresent
    requires s.workers[w].message in s.queue.bodies && c.route(s.queue.bodies[s.workers[w].message]).Accepted?
    ensures var k := s.workers[w];
            var body := s.queue.bodies[k.message];
            var end := Ending(c, body, w, true);
            && IsRun(c, s, end)
            && var t := After(c, s, end);
            && var x := RecordId(c, body, k.message);
            && x in t.records && t.records[x] == Record(Ready, c.account(body)) && At(t, w, Idle)
            && (c.sentHandle(body).None? ==> k.message in t.queue.deleted)
  {
    ReachableKeepsInv(c, batch, s);
    assert WorkerOk(c, s.queue, s.workers[w]);
    AnsweringEnd(c, s, w, true);
  }
}
