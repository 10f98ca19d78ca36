/** A complete exchange of the protocol of network/server/iso_server.go is always possible: what the guarantees
    speak about is reached, in this order, from every connection that is at rest. */
module Exchange {
  import opened Wrappers
  import opened Matching
  import opened Log
  import opened Protocol
  import opened Paths

  /** Nothing is queued on the connection and its read loop waits for the peer. */
  predicate AtRest(c: Conn) {
    c.channel == [] && c.held.None? && c.reader.Idle?
  }

  function RequestOf(t: Task): Request {
    Request(t.entry.reference, MtiOf(t), t.entry.requestMessage)
  }

  /** The task has reached this stage on a connection otherwise as stated; its follow-up waits. */
  predicate Stands(c: Conn, t: Task, stage: Stage, channel: seq<Request>, held: Option<Request>, reader: Reader)
    requires t.followUp.Some?
  {
    var r := t.entry.reference;
    && r in c.tasks && c.tasks[r] == t.(stage := stage)
    && (stage != Drawn && stage != Planned ==> r in c.followUps && c.followUps[r] == t.followUp.value)
    && c.channel == channel && c.held == held && c.reader == reader
  }

  predicate WithFollowUp(name: string, t: Task) {
    NewTask(name, t) && t.followUp.Some?
  }

  lemma Plans(name: string, c: Conn, t: Task, now: int)
    requires WithFollowUp(name, t) && AtRest(c) && t.entry.reference !in c.tasks
    ensures var r := t.entry.reference;
            var p := Follow(name, c, true, [Draw(t)] + ([Schedule(r, now)] + ([Register(r)] + [])));
            && p.Some? && Stands(p.value.conn, t, Registered, [], None, Idle)
            && p.value.ops == [AddScheduledMessage(t.entry.testId, now, r, name, t.followUp.value.raw)]
            && p.value.conn.released == c.released
  {
    var r := t.entry.reference;
    var c1 := Do(name, c, true, Draw(t)).value.conn;
    assert Stands(c1, t, Drawn, [], None, Idle);
    var c2 := Do(name, c1, true, Schedule(r, now)).value.conn;
    assert Stands(c2, t, Planned, [], None, Idle);
    var e3 := Do(name, c2, true, Register(r));
    assert e3.Some? && e3.value.op.None? && Stands(e3.value.conn, t, Registered, [], None, Idle);
    hide Stands;
    Then(name, c2, true, Register(r), []);
    Then(name, c1, true, Schedule(r, now), [Register(r)] + []);
    Then(name, c, true, Draw(t), [Schedule(r, now)] + ([Register(r)] + []));
  }

  lemma Hands(name: string, c: Conn, t: Task)
    requires WithFollowUp(name, t) && Stands(c, t, Registered, [], None, Idle)
    ensures var r := t.entry.reference;
            var p := Follow(name, c, true, [Record(r)] + ([Push(r)] + []));
            && p.Some? && Stands(p.value.conn, t, Handed, [RequestOf(t)], None, Idle)
            && p.value.ops == [AddRequestLog(t.entry)]
            && p.value.conn.released == c.released
  {
    var r := t.entry.reference;
    var c1 := Do(name, c, true, Record(r)).value.conn;
    assert Stands(c1, t, Recorded, [], None, Idle);
    var e2 := Do(name, c1, true, Push(r));
    assert e2.Some? && e2.value.op.None? && Stands(e2.value.conn, t, Handed, [RequestOf(t)], None, Idle);
    hide Stands;
    Then(name, c1, true, Push(r), []);
    Then(name, c, true, Record(r), [Push(r)] + []);
  }

  lemma Writes(name: string, c: Conn, t: Task, at: int)
    requires WithFollowUp(name, t) && Stands(c, t, Handed, [RequestOf(t)], None, Idle)
    ensures var r := t.entry.reference;
            var p := Follow(name, c, true, [TakeNext] + ([Stamp(at)] + []));
            && p.Some? && Stands(p.value.conn, t, Handed, [], None, Idle)
            && p.value.ops == [] && p.value.conn.released == c.released
            && MatchKey(MtiOf(t), r) in p.value.conn.sent
            && p.value.conn.sent[MatchKey(MtiOf(t), r)] == SentRequest(MtiOf(t), at)
  {
    hide MatchKey;
    var c1 := Do(name, c, true, TakeNext).value.conn;
    assert Stands(c1, t, Handed, [], Some(RequestOf(t)), Idle);
    var e2 := Do(name, c1, true, Stamp(at));
    assert e2.Some? && e2.value.op.None? && Stands(e2.value.conn, t, Handed, [], None, Idle);
    hide Stands;
    Then(name, c1, true, Stamp(at), []);
    Then(name, c, true, TakeNext, [Stamp(at)] + []);
  }

  /** The peer's response, under any response type with the request's key. */
  lemma Answers(name: string, c: Conn, t: Task, mti: string, at: int, code: string, auth: string, now: int)
    requires WithFollowUp(name, t) && Stands(c, t, Handed, [], None, Idle) && IsResponseMti(mti)
    requires MatchKey(mti, t.entry.reference) == MatchKey(MtiOf(t), t.entry.reference)
    requires MatchKey(MtiOf(t), t.entry.reference) in c.sent
    requires c.sent[MatchKey(MtiOf(t), t.entry.reference)] == SentRequest(MtiOf(t), at)
    ensures var r := t.entry.reference;
            var p := Follow(name, c, true, [Receive(mti, r, code, auth, now)] + ([Update] + ([Release(now)] + [])));
            && p.Some? && p.value.conn.tasks == c.tasks
            && p.value.conn.channel == [] && p.value.conn.held.None?
            && p.value.conn.reader == Releasing(r, t.followUp.value, now)
            && p.value.conn.released == c.released
            && p.value.ops == [UpdateResponseTime(r, name, MtiOf(t), at, now, code, auth)]
  {
    var r := t.entry.reference;
    hide MatchKey;
    var c1 := Do(name, c, true, Receive(mti, r, code, auth, now)).value.conn;
    assert c1.reader == Matched(r, SentRequest(MtiOf(t), at), now, code, auth);
    var c2 := Do(name, c1, true, Update).value.conn;
    assert c2.reader == Updated(r) && r in c2.followUps;
    var e3 := Do(name, c2, true, Release(now));
    assert e3.Some? && e3.value.op.None?;
    Then(name, c2, true, Release(now), []);
    Then(name, c1, true, Update, [Release(now)] + []);
    Then(name, c, true, Receive(mti, r, code, auth, now), [Update] + ([Release(now)] + []));
  }

  lemma FollowsUp(name: string, c: Conn, r: string, f: FollowUp, now: int)
    requires c.reader == Releasing(r, f, now) && c.channel == [] && c.held.None?
    ensures var p := Follow(name, c, true, [RecordFollowUp] + ([PushFollowUp] + ([MarkSent] + ([TakeNext] + []))));
            && p.Some? && p.value.conn.tasks == c.tasks && p.value.conn.reader == Idle
            && p.value.conn.held == Some(Request(r, f.mti, f.raw)) && p.value.conn.channel == []
            && p.value.conn.released == c.released + [r]
            && p.value.ops == [AddRequestLog(FollowUpEntry(name, r, f, now))] +
                              [MarkScheduledMessageSent(r, name, now)]
  {
    var c1 := Do(name, c, true, RecordFollowUp).value.conn;
    assert c1 == c.(reader := Logged(r, f, now));
    var c2 := Do(name, c1, true, PushFollowUp).value.conn;
    var q := Request(r, f.mti, f.raw);
    assert c2 == c.(channel := c.channel + [q], reader := Pushed(r, now), released := c.released + [r]);
    var c3 := Do(name, c2, true, MarkSent).value.conn;
    assert c3 == c2.(reader := Idle) && c3.channel == [q];
    Takes(name, c3, q);
    hide DoReader;
    Then(name, c3, true, TakeNext, []);
    Then(name, c2, true, MarkSent, [TakeNext] + []);
    Then(name, c1, true, PushFollowUp, [MarkSent] + ([TakeNext] + []));
    Then(name, c, true, RecordFollowUp, [PushFollowUp] + ([MarkSent] + ([TakeNext] + [])));
  }

  lemma Takes(name: string, c: Conn, q: Request)
    requires c.channel == [q] && c.held.None?
    ensures Do(name, c, true, TakeNext) == Some(Effect(c.(held := Some(q), channel := []), None))
  {
    assert c.channel[1..] == [];
  }

  /** The request's statements, and then its follow-up's. */
  function ExchangeOps(name: string, t: Task, code: string, auth: string, now: int, at: int, answered: int): seq<Op>
    requires t.followUp.Some?
  {
    var r, f := t.entry.reference, t.followUp.value;
    [AddScheduledMessage(t.entry.testId, now, r, name, f.raw)] +
    ([AddRequestLog(t.entry)] +
     ([UpdateResponseTime(r, name, MtiOf(t), at, answered, code, auth)] +
      ([AddRequestLog(FollowUpEntry(name, r, f, answered))] + [MarkScheduledMessageSent(r, name, answered)])))
  }

  /** The original is handed over and answered, its follow-up released and in the write loop's hands. */
  predicate Completed(c: Conn, before: Conn, t: Task)
    requires t.followUp.Some?
  {
    var r, f := t.entry.reference, t.followUp.value;
    && r in c.tasks && c.tasks[r] == t.(stage := Handed)
    && c.held == Some(Request(r, f.mti, f.raw)) && c.released == before.released + [r]
  }

  lemma Response(name: string, c: Conn, t: Task, mti: string, at: int, code: string, auth: string, now: int)
    returns (steps: seq<Step>)
    requires WithFollowUp(name, t) && Stands(c, t, Handed, [], None, Idle) && IsResponseMti(mti)
    requires MatchKey(mti, t.entry.reference) == MatchKey(MtiOf(t), t.entry.reference)
    requires MatchKey(MtiOf(t), t.entry.reference) in c.sent
    requires c.sent[MatchKey(MtiOf(t), t.entry.reference)] == SentRequest(MtiOf(t), at)
    ensures Follow(name, c, true, steps).Some? && Completed(Follow(name, c, true, steps).value.conn, c, t)
    ensures Follow(name, c, true, steps).value.ops ==
            [UpdateResponseTime(t.entry.reference, name, MtiOf(t), at, now, code, auth)] +
            ([AddRequestLog(FollowUpEntry(name, t.entry.reference, t.followUp.value, now))] +
             [MarkScheduledMessageSent(t.entry.reference, name, now)])
  {
    var r, f := t.entry.reference, t.followUp.value;
    var s := [Receive(mti, r, code, auth, now)] + ([Update] + ([Release(now)] + []));
    var u := [RecordFollowUp] + ([PushFollowUp] + ([MarkSent] + ([TakeNext] + [])));
    Answers(name, c, t, mti, at, code, auth, now);
    FollowsUp(name, Follow(name, c, true, s).value.conn, r, f, now);
    hide Follow;
    hide MatchKey;
    FollowConcat(name, c, true, s, u);
    steps := s + u;
  }

  lemma Sent(name: string, c: Conn, t: Task, now: int, at: int) returns (steps: seq<Step>)
    requires WithFollowUp(name, t) && AtRest(c) && t.entry.reference !in c.tasks
    ensures Follow(name, c, true, steps).Some?
    ensures var p := Follow(name, c, true, steps).value;
            && Stands(p.conn, t, Handed, [], None, Idle) && p.conn.released == c.released
            && MatchKey(MtiOf(t), t.entry.reference) in p.conn.sent
            && p.conn.sent[MatchKey(MtiOf(t), t.entry.reference)] == SentRequest(MtiOf(t), at)
            && p.ops == [AddScheduledMessage(t.entry.testId, now, t.entry.reference, name, t.followUp.value.raw)] +
                        [AddRequestLog(t.entry)]
  {
    var r := t.entry.reference;
    var s := [Draw(t)] + ([Schedule(r, now)] + ([Register(r)] + []));
    var u := [Record(r)] + ([Push(r)] + []);
    var v := [TakeNext] + ([Stamp(at)] + []);
    Plans(name, c, t, now);
    var c1 := Follow(name, c, true, s).value.conn;
    Hands(name, c1, t);
    var c2 := Follow(name, c1, true, u).value.conn;
    Writes(name, c2, t, at);
    hide Follow;
    hide Stands;
    hide MatchKey;
    FollowConcat(name, c1, true, u, v);
    FollowConcat(name, c, true, s, u + v);
    steps := s + (u + v);
  }

  lemma ExchangeWith(name: string, c: Conn, t: Task, mti: string, code: string, auth: string, now: int,
                          at: int, answered: int)
    requires WithFollowUp(name, t) && AtRest(c) && t.entry.reference !in c.tasks && IsResponseMti(mti)
    requires MatchKey(mti, t.entry.reference) == MatchKey(MtiOf(t), t.entry.reference)
    ensures exists steps :: Follow(name, c, true, steps).Some? &&
              Completed(Follow(name, c, true, steps).value.conn, c, t) &&
              Follow(name, c, true, steps).value.ops == ExchangeOps(name, t, code, auth, now, at, answered)
  {
    var s := Sent(name, c, t, now, at);
    var c1 := Follow(name, c, true, s).value.conn;
    var u := Response(name, c1, t, mti, at, code, auth, answered);
    hide Follow;
    hide MatchKey;
    hide Stands;
    FollowConcat(name, c, true, s, u);
    var steps := s + u;
    assert Completed(Follow(name, c, true, steps).value.conn, c, t);
    var r, f := t.entry.reference, t.followUp.value;
    Associative([AddScheduledMessage(t.entry.testId, now, r, name, f.raw)], [AddRequestLog(t.entry)],
                Follow(name, c1, true, u).value.ops);
    assert Follow(name, c, true, steps).value.ops == ExchangeOps(name, t, code, auth, now, at, answered);
  }

  /** From any connection at rest, a new request of an answerable type with a follow-up can be planned, logged,
      sent and answered, and its follow-up logged, sent and marked after that; the statements are queued in
      this order. */
  lemma ExchangeCompletes(name: string, c: Conn, t: Task, code: string, auth: string, now: int, at: int,
                          answered: int)
    requires WithFollowUp(name, t) && AtRest(c) && t.entry.reference !in c.tasks && Answerable(MtiOf(t))
    ensures exists steps :: Follow(name, c, true, steps).Some? &&
              Completed(Follow(name, c, true, steps).value.conn, c, t) &&
              Follow(name, c, true, steps).value.ops == ExchangeOps(name, t, code, auth, now, at, answered)
  {
    AnswerableExactly(MtiOf(t), t.entry.reference);
    hide Follow;
    hide MatchKey;
    var mti :| IsResponseMti(mti) && MatchKey(mti, t.entry.reference) == MatchKey(MtiOf(t), t.entry.reference);
    hide IsResponseMti;
    ExchangeWith(name, c, t, mti, code, auth, now, at, answered);
  }
}
