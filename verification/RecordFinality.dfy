/** Which records there can be, when they are final, and what a client sees of
    them. Everything is said of the runs over a batch: the messages that get
    scheduled, by their ids. */
module RecordFinality {
  import opened CompleteRuns
  import opened Engine
  import opened Protocol
  import opened Text
  import opened Wrappers

  // ---------- which records there can be ----------

  ghost predicate CanRecord(c: Config, batch: map<string, string>, x: string, r: Record) {
    exists s :: Reachable(c, batch, s) && x in s.records && s.records[x] == r
  }

  /** A record can come to stand under an id exactly when some message that goes
      under that id has it as its verdict. */
  lemma RecordsThereCanBe(c: Config, batch: map<string, string>, x: string, r: Record)
    requires x != "" && "" !in batch
    ensures CanRecord(c, batch, x, r) <==> exists m :: Explains(c, batch, m, x, r)
  {
    if CanRecord(c, batch, x, r) {
      var s :| Reachable(c, batch, s) && x in s.records && s.records[x] == r;
      ReachableKeepsInv(c, batch, s);
      var m :| Explains(c, s.queue.bodies, m, x, r);
      assert Explains(c, batch, m, x, r);
    }
    if m :| Explains(c, batch, m, x, r) {
      var s := AfterOne(c, batch, m);
    }
  }

  /** One worker, one message with a verdict. */
  lemma AfterOne(c: Config, batch: map<string, string>, m: string) returns (s: State)
    requires m in batch && "" !in batch && Verdict(c, batch[m]).Some?
    ensures Reachable(c, batch, s) && s.workers == [IDLE]
    ensures s.records == map[RecordId(c, batch[m], m) := Verdict(c, batch[m]).value]
    ensures s.queue.bodies.Keys == {m} && s.queue.receipts.Keys == {"a"}
  {
    var run := WholeWay(c, m, batch[m], 0, "a", false);
    WholeWayRuns(c, Initial(1), m, batch[m], 0, "a", false);
    WholeWayWithin(c, m, 0, "a", false, batch);
    s := After(c, Initial(1), run);
    InitialIsReachable(c, batch, 1);
    ReachableGoesOn(c, batch, Initial(1), run);
  }

  /** The record under x, once there, never changes in any run over batch. */
  ghost predicate IsFinal(c: Config, batch: map<string, string>, x: string) {
    forall s, future ::
      Reachable(c, batch, s) && IsRun(c, s, future) && Within(future, batch) && x in s.records
      ==> x in After(c, s, future).records && After(c, s, future).records[x] == s.records[x]
  }

  /** All messages that go under x and have a verdict have the same one. */
  ghost predicate AgreeOn(c: Config, batch: map<string, string>, x: string) {
    forall m, n, r, q :: Explains(c, batch, m, x, r) && Explains(c, batch, n, x, q) ==> r == q
  }

  lemma AgreementIsFinal(c: Config, batch: map<string, string>, s: State, future: seq<Action>, x: string)
    requires x != "" && AgreeOn(c, batch, x)
    requires Reachable(c, batch, s) && IsRun(c, s, future) && Within(future, batch) && x in s.records
    ensures x in After(c, s, future).records && After(c, s, future).records[x] == s.records[x]
    ensures exists m :: m in s.queue.bodies && Explains(c, batch, m, x, s.records[x])
  {
    var t := After(c, s, future);
    ReachableGoesOn(c, batch, s, future);
    ReachableKeepsInv(c, batch, s);
    ReachableKeepsInv(c, batch, t);
    RunKeepsInv(c, s, future);
    var m :| Explains(c, s.queue.bodies, m, x, s.records[x]);
    var n :| Explains(c, t.queue.bodies, n, x, t.records[x]);
    assert Explains(c, batch, m, x, s.records[x]) && Explains(c, batch, n, x, t.records[x]);
  }

  /** Two messages under one id that disagree make a record change. */
  lemma DisagreementChanges(c: Config, batch: map<string, string>, x: string, m: string, n: string)
    requires "" !in batch && m in batch && n in batch
    requires RecordId(c, batch[m], m) == x == RecordId(c, batch[n], n)
    requires Verdict(c, batch[m]).Some? && Verdict(c, batch[n]).Some? && Verdict(c, batch[m]) != Verdict(c, batch[n])
    ensures !IsFinal(c, batch, x)
  {
    var s := AfterOne(c, batch, m);
    var future := WholeWay(c, n, batch[n], 0, "b", false);
    WholeWayRuns(c, s, n, batch[n], 0, "b", false);
    WholeWayWithin(c, n, 0, "b", false, batch);
    assert x in s.records && After(c, s, future).records[x] != s.records[x];
  }

  /** A record is final exactly when no two messages disagree on it. */
  lemma RecordsAreFinalIff(c: Config, batch: map<string, string>, x: string)
    requires x != "" && "" !in batch
    ensures IsFinal(c, batch, x) <==> AgreeOn(c, batch, x)
  {
    if AgreeOn(c, batch, x) {
      forall s, future | Reachable(c, batch, s) && IsRun(c, s, future) && Within(future, batch) && x in s.records
        ensures x in After(c, s, future).records && After(c, s, future).records[x] == s.records[x]
      {
        AgreementIsFinal(c, batch, s, future, x);
      }
    } else {
      var m, n, r, q :| Explains(c, batch, m, x, r) && Explains(c, batch, n, x, q) && r != q;
      DisagreementChanges(c, batch, x, m, n);
    }
  }

  /** No other message goes under this one's id with a verdict. */
  ghost predicate NobodyElse(c: Config, batch: map<string, string>, id: string) {
    forall m, r :: Explains(c, batch, m, id, r) ==> m == id
  }


  // ---------- conditions to check before scheduling ----------

  /** No two different requests go under one id. */
  ghost predicate NoClash(c: Config, batch: map<string, string>) {
    forall m, n ::
      m in batch && n in batch && c.parses(batch[m]) && c.parses(batch[n]) && RecordId(c, batch[m], m) == RecordId(c, batch[n], n) != ""
      ==> batch[m] == batch[n]
  }

  /** All records are final, whatever the engine makes of the requests. */
  ghost predicate FinalForEveryEngine(c: Config, batch: map<string, string>) {
    forall route, x :: x != "" ==> IsFinal(c.(route := route), batch, x)
  }

  /** No two requests for different accounts go under one id. */
  ghost predicate NoAccountClash(c: Config, batch: map<string, string>) {
    forall m, n ::
      m in batch && n in batch && c.parses(batch[m]) && c.parses(batch[n]) && RecordId(c, batch[m], m) == RecordId(c, batch[n], n) != ""
      ==> c.account(batch[m]) == c.account(batch[n])
  }

  /** Whatever the engine, all records are final exactly when no two different
      requests go under one id; if persisting lacks its fields, so that all records
      are failed ones, exactly when no two for different accounts do. */
  lemma FinalForEveryEngineIff(c: Config, batch: map<string, string>)
    requires "" !in batch
    ensures FinalForEveryEngine(c, batch) <==> if c.fieldsPresent then NoClash(c, batch) else NoAccountClash(c, batch)
  {
    if if c.fieldsPresent then NoClash(c, batch) else NoAccountClash(c, batch) {
      forall route, x | x != "" ensures IsFinal(c.(route := route), batch, x) {
        NoClashAgrees(c.(route := route), batch, x);
        RecordsAreFinalIff(c.(route := route), batch, x);
      }
    } else if !c.fieldsPresent {
      var m, n :| m in batch && n in batch && c.parses(batch[m]) && c.parses(batch[n])
                  && RecordId(c, batch[m], m) == RecordId(c, batch[n], n) != "" && c.account(batch[m]) != c.account(batch[n]);
      DisagreementChanges(c.(route := body => Throws), batch, RecordId(c, batch[m], m), m, n);
    } else {
      var m, n :| m in batch && n in batch && c.parses(batch[m]) && c.parses(batch[n])
                  && RecordId(c, batch[m], m) == RecordId(c, batch[n], n) != "" && batch[m] != batch[n];
      var split: string -> Outcome := body => if body == batch[m] then Accepted else Throws;
      DisagreementChanges(c.(route := split), batch, RecordId(c, batch[m], m), m, n);
    }
  }

  lemma NoClashAgrees(c: Config, batch: map<string, string>, x: string)
    requires x != "" && if c.fieldsPresent then NoClash(c, batch) else NoAccountClash(c, batch)
    ensures AgreeOn(c, batch, x)
  {
  }

  /** Why plain bodies matter: a message that brings the id of another overwrites
      that one's record, here a ready one by a failed one. */
  lemma SentIdOverwritesARecord(c: Config, m: string, body: string, n: string, other: string)
    requires m != "" && n != "" && m != n && c.fieldsPresent
    requires Verdict(c, body) == Some(Record(Ready, c.account(body))) && c.sentId(body).None?
    requires Verdict(c, other) == Some(Record(Failed, c.account(other))) && c.sentId(other) == Some(m)
    ensures var first := WholeWay(c, m, body, 0, "a", false);
            var second := WholeWay(c, n, other, 0, "b", false);
            && IsRun(c, Initial(1), first)
            && var s := After(c, Initial(1), first);
            && s.records == map[m := Record(Ready, c.account(body))]
            && IsRun(c, s, second)
            && After(c, s, second).records == map[m := Record(Failed, c.account(other))]
  {
    WholeWayRuns(c, Initial(1), m, body, 0, "a", false);
    var s := After(c, Initial(1), WholeWay(c, m, body, 0, "a", false));
    WholeWayRuns(c, s, n, other, 0, "b", false);
  }

  /** A body that brings neither a trip id nor a receipt handle of its own. */
  ghost predicate IsPlain(c: Config, body: string) {
    c.sentId(body).None? && c.sentHandle(body).None?
  }

  ghost predicate AllPlain(c: Config, batch: map<string, string>) {
    forall m :: m in batch ==> IsPlain(c, batch[m])
  }

  /** Plain bodies never clash. */
  lemma PlainNeverClash(c: Config, batch: map<string, string>)
    requires AllPlain(c, batch)
    ensures NoClash(c, batch) && NoAccountClash(c, batch)
  {
  }

  /** With plain bodies the record of a trip id never changes: not from ready to
      failed, nor back. It is ready only when routing succeeded and its response
      was accepted, and failed only when routing itself threw. */
  lemma RecordsAreFinal(c: Config, batch: map<string, string>, s: State, future: seq<Action>, id: string)
    requires AllPlain(c, batch) && Reachable(c, batch, s) && IsRun(c, s, future) && Within(future, batch)
    requires id != "" && id in s.records
    ensures id in After(c, s, future).records && After(c, s, future).records[id] == s.records[id]
    ensures id in s.queue.bodies && Verdict(c, s.queue.bodies[id]) == Some(s.records[id])
  {
    PlainNeverClash(c, batch);
    NoClashAgrees(c, batch, id);
    AgreementIsFinal(c, batch, s, future, id);
    ReachableKeepsInv(c, batch, s);
  }

  // ---------- what a client sees ----------

  datatype Answer = BadRequest | NotAuthorized | Pending | Found(status: Status)

  /** The status call, by trip id and the caller's account. */
  function Poll(records: map<string, Record>, tripId: Option<string>, uid: string): Answer {
    if tripId.None? || tripId.value == "" then BadRequest
    else if tripId.value !in records then Pending
    else if !IEquals(uid, records[tripId.value].account) then NotAuthorized
    else Found(records[tripId.value].status)
  }

  /** Answers under an id, other than "pending", never change in any run over batch. */
  ghost predicate AnswersFinal(c: Config, batch: map<string, string>, id: string) {
    forall s, future, uid ::
      Reachable(c, batch, s) && IsRun(c, s, future) && Within(future, batch) && Poll(s.records, Some(id), uid) != Pending
      ==> Poll(After(c, s, future).records, Some(id), uid) == Poll(s.records, Some(id), uid)
  }

  /** The two records are the same to any caller, whose account is compared
      without regard to case. */
  predicate ReadAlike(r: Record, q: Record) {
    r.status == q.status && IEquals(r.account, q.account)
  }

  ghost predicate AlikeOn(c: Config, batch: map<string, string>, x: string) {
    forall m, n, r, q :: Explains(c, batch, m, x, r) && Explains(c, batch, n, x, q) ==> ReadAlike(r, q)
  }

  /** The answer to a caller who asks for an id with this record. */
  function AnswerFor(r: Record, uid: string): Answer {
    if IEquals(uid, r.account) then Found(r.status) else NotAuthorized
  }

  /** Records read alike exactly when they give every caller the same answer. */
  lemma ReadAlikeMeaning(r: Record, q: Record)
    ensures ReadAlike(r, q) <==> forall uid :: AnswerFor(r, uid) == AnswerFor(q, uid)
  {
    if forall uid :: AnswerFor(r, uid) == AnswerFor(q, uid) {
      assert AnswerFor(r, r.account) == AnswerFor(q, r.account);
    }
  }

  /** Answers under an id are final exactly when the messages that go under it have
      verdicts that read alike. */
  lemma AnswersAreFinalIff(c: Config, batch: map<string, string>, id: string)
    requires id != "" && "" !in batch
    ensures AnswersFinal(c, batch, id) <==> AlikeOn(c, batch, id)
  {
    if AlikeOn(c, batch, id) {
      forall s, future, uid |
        Reachable(c, batch, s) && IsRun(c, s, future) && Within(future, batch) && Poll(s.records, Some(id), uid) != Pending
        ensures Poll(After(c, s, future).records, Some(id), uid) == Poll(s.records, Some(id), uid)
      {
        AnswersAreFinal(c, batch, s, future, id, uid);
      }
    } else {
      var m, n, r, q :| Explains(c, batch, m, id, r) && Explains(c, batch, n, id, q) && !ReadAlike(r, q);
      DifferenceShows(c, batch, id, m, n);
    }
  }

  /** Two messages under one id whose verdicts read differently make an answer change. */
  lemma DifferenceShows(c: Config, batch: map<string, string>, id: string, m: string, n: string)
    requires id != "" && "" !in batch && m in batch && n in batch
    requires RecordId(c, batch[m], m) == id == RecordId(c, batch[n], n)
    requires Verdict(c, batch[m]).Some? && Verdict(c, batch[n]).Some?
    requires !ReadAlike(Verdict(c, batch[m]).value, Verdict(c, batch[n]).value)
    ensures !AnswersFinal(c, batch, id)
  {
    var r, q := Verdict(c, batch[m]).value, Verdict(c, batch[n]).value;
    ReadAlikeMeaning(r, q);
    var uid :| AnswerFor(r, uid) != AnswerFor(q, uid);
    var s := AfterOne(c, batch, m);
    var future := WholeWay(c, n, batch[n], 0, "b", false);
    WholeWayRuns(c, s, n, batch[n], 0, "b", false);
    WholeWayWithin(c, n, 0, "b", false, batch);
    assert Poll(s.records, Some(id), uid) == AnswerFor(r, uid);
    assert Poll(After(c, s, future).records, Some(id), uid) == AnswerFor(q, uid);
  }

  /** Such an answer is also the right one: ready exactly when routing was accepted,
      to the account the request names; to any other account, nothing. With plain
      bodies the message is the one the id stands for. */
  lemma AnswersAreFinal(c: Config, batch: map<string, string>, s: State, future: seq<Action>, id: string, uid: string)
    requires Reachable(c, batch, s) && IsRun(c, s, future) && Within(future, batch) && id != "" && AlikeOn(c, batch, id)
    requires Poll(s.records, Some(id), uid) != Pending
    ensures Poll(After(c, s, future).records, Some(id), uid) == Poll(s.records, Some(id), uid)
    ensures exists m :: m in s.queue.bodies && RightAnswer(c, s.queue.bodies[m], uid, Poll(s.records, Some(id), uid))
                        && RecordId(c, s.queue.bodies[m], m) == id && (AllPlain(c, batch) ==> m == id)
  {
    var t := After(c, s, future);
    ReachableGoesOn(c, batch, s, future);
    ReachableKeepsInv(c, batch, s);
    ReachableKeepsInv(c, batch, t);
    RunKeepsInv(c, s, future);
    var m :| Explains(c, s.queue.bodies, m, id, s.records[id]);
    var n :| Explains(c, t.queue.bodies, n, id, t.records[id]);
    assert Explains(c, batch, m, id, s.records[id]) && Explains(c, batch, n, id, t.records[id]);
    ReadAlikeMeaning(s.records[id], t.records[id]);
    assert AnswerFor(s.records[id], uid) == AnswerFor(t.records[id], uid);
    assert RightAnswer(c, s.queue.bodies[m], uid, Poll(s.records, Some(id), uid));
  }

  ghost predicate RightAnswer(c: Config, body: string, uid: string, answer: Answer) {
    answer == if !IEquals(uid, c.account(body)) then NotAuthorized
              else if c.route(body).Accepted? then Found(Ready)
              else Found(Failed)
  }
}
