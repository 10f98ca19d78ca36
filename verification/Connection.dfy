/** The connection object of network/server/iso_server.go: the code of its goroutines, run without being
    interrupted, takes exactly the steps of the transition system in Protocol. */
module Connection {
  import opened Wrappers
  import opened Matching
  import opened Log
  import opened Protocol
  import opened Paths
  import opened Wire

  // ---------------------------------------------------------------- single steps, each where it is enabled

  lemma FollowUpSteps(name: string, c: Conn, open: bool, r: string, f: FollowUp, now: int)
    ensures c.reader == Releasing(r, f, now) ==>
              Do(name, c, open, RecordFollowUp) ==
              Some(Effect(c.(reader := if open then Logged(r, f, now) else Idle),
                          Enqueued(open, AddRequestLog(FollowUpEntry(name, r, f, now)))))
    ensures c.reader == Logged(r, f, now) ==>
              Do(name, c, open, PushFollowUp) ==
              if |c.channel| >= CHANNEL_SIZE then Some(Effect(c.(reader := Refused(r, f)), None))
              else Some(Effect(c.(channel := c.channel + [Request(r, f.mti, f.raw)], reader := Pushed(r, now),
                                  released := c.released + [r]), None))
    ensures c.reader == Pushed(r, now) ==>
              Do(name, c, open, MarkSent) ==
              Some(Effect(c.(reader := Idle), Enqueued(open, MarkScheduledMessageSent(r, name, now))))
    ensures c.reader == Refused(r, f) ==>
              Do(name, c, open, EraseFollowUp) ==
              Some(Effect(c.(reader := Idle), Enqueued(open, DeleteRequestLog(r, name, f.mti))))
  {}

  lemma ReceiveStep(name: string, c: Conn, open: bool, mti: string, r: string, code: string, auth: string,
                    at: int)
    requires c.reader == Idle && IsResponseMti(mti)
    ensures var key := MatchKey(mti, r);
            Do(name, c, open, Receive(mti, r, code, auth, at)) ==
            if key !in c.sent then Some(Effect(c, None))
            else Some(Effect(c.(sent := c.sent - {key}, reader := Matched(r, c.sent[key], at, code, auth)), None))
  {
    hide MatchKey;
    hide RESPONSE_MTIS;
  }

  lemma MatchedSteps(name: string, c: Conn, open: bool, r: string, sent: SentRequest, at: int, code: string,
                     auth: string, now: int)
    ensures c.reader == Matched(r, sent, at, code, auth) ==>
              Do(name, c, open, Update) ==
              Some(Effect(c.(reader := Updated(r)),
                          Enqueued(open, UpdateResponseTime(r, name, sent.mti, sent.at, at, code, auth))))
    ensures c.reader == Updated(r) ==>
              Do(name, c, open, Release(now)) ==
              if r !in c.followUps then Some(Effect(c.(reader := Idle), None))
              else Some(Effect(c.(followUps := c.followUps - {r},
                                  reader := Releasing(r, c.followUps[r], now)), None))
  {}

  lemma WriterSteps(name: string, c: Conn, open: bool, now: int)
    ensures c.held.None? && c.channel != [] ==>
              Do(name, c, open, TakeNext) ==
              Some(Effect(c.(held := Some(c.channel[0]), channel := c.channel[1..]), None))
    ensures c.held.Some? ==>
              var q := c.held.value;
              Do(name, c, open, Stamp(now)) ==
              if q.reference == "" || |q.mti| < 4 then Some(Effect(c.(held := None), None))
              else
                Some(Effect(c.(held := None,
                               sent := c.sent[MatchKey(q.mti, q.reference) := SentRequest(q.mti, now)]), None))
  {
    hide MatchKey;
  }

  lemma DrawStep(name: string, c: Conn, open: bool, t: Task)
    requires NewTask(name, t) && t.entry.reference !in c.tasks
    ensures Do(name, c, open, Draw(t)) ==
            Some(Effect(c.(tasks := c.tasks[t.entry.reference := t]), None))
  {}

  lemma LoggedSteps(name: string, c: Conn, open: bool, r: string)
    requires r in c.tasks
    ensures c.tasks[r].stage == Registered || (c.tasks[r].stage == Drawn && c.tasks[r].followUp.None?) ==>
              Do(name, c, open, Record(r)) ==
              Some(Effect(SetStage(c, r, if open then Recorded else Rejected),
                          Enqueued(open, AddRequestLog(c.tasks[r].entry))))
    ensures c.tasks[r].stage == Rejected ==>
              Do(name, c, open, Abandon(r)) ==
              Some(Effect(SetStage(c, r, Abandoned).(followUps := c.followUps - {r}), None))
  {}

  lemma HandOverSteps(name: string, c: Conn, open: bool, r: string)
    requires r in c.tasks
    ensures c.tasks[r].stage == Recorded ==>
              Do(name, c, open, Push(r)) ==
              if |c.channel| >= CHANNEL_SIZE then Some(Effect(SetStage(c, r, Full), None))
              else Some(Effect(SetStage(c, r, Handed)
                               .(channel := c.channel + [Request(r, MtiOf(c.tasks[r]),
                                                                 c.tasks[r].entry.requestMessage)]), None))
    ensures c.tasks[r].stage == Full ==>
              Do(name, c, open, Withdraw(r)) ==
              Some(Effect(SetStage(c, r, Withdrawn).(followUps := c.followUps - {r}), None))
    ensures c.tasks[r].stage == Withdrawn ==>
              Do(name, c, open, Erase(r)) ==
              Some(Effect(SetStage(c, r, Dropped), Enqueued(open, DeleteRequestLog(r, name, MtiOf(c.tasks[r])))))
  {}

  /** After `before` come only steps of the worker that sends r. */
  predicate OwnSteps(before: seq<Step>, steps: seq<Step>, r: string) {
    before <= steps &&
    forall i :: |before| <= i < |steps| ==> IsWorkerStep(steps[i]) && steps[i].r == r
  }

  // ---------------------------------------------------------------- the object

  class IsoConnection {
    const name: string
    var writeChannel: seq<Request>
    var sentTimes: map<string, SentRequest>
    var followUps: map<string, FollowUp>
    /** Whether the database accepts statements, and the statements this connection has queued. */
    var open: bool
    var writes: seq<Op>
    /** The connection's state in the transition system. */
    ghost var conn: Conn

    constructor (name: string)
      ensures Valid() && this.name == name && conn == NEW_CONN && open && writes == []
    {
      this.name := name;
      writeChannel, sentTimes, followUps, open, writes, conn := [], map[], map[], true, [], NEW_CONN;
    }

    ghost predicate Valid()
      reads this
    {
      conn.channel == writeChannel && conn.sent == sentTimes && conn.followUps == followUps
    }

    /** These steps lead from the state c to the present one and queue what is queued since `before`. */
    ghost predicate Walked(c: Conn, before: seq<Op>, steps: seq<Step>)
      reads this
    {
      var p := Follow(name, c, open, steps);
      p.Some? && p.value.conn == conn && writes == before + p.value.ops
    }

    /** The state of the transition system moves on by one step. */
    ghost method Walk(c: Conn, before: seq<Op>, steps: seq<Step>, step: Step, op: Option<Op>)
      requires Do(name, conn, open, step).Some? && Do(name, conn, open, step).value.op == op
      requires var p := Follow(name, c, open, steps);
               p.Some? && p.value.conn == conn && writes == before + p.value.ops + Queued(op)
      modifies this`conn
      ensures conn == Do(name, old(conn), open, step).value.conn
      ensures Walked(c, before, steps + [step])
    {
      Append(name, c, open, steps, step);
      hide Follow;
      hide Do;
      hide Queued;
      var p := Follow(name, c, open, steps).value;
      conn := Do(name, conn, open, step).value.conn;
      Associative(before, p.ops, Queued(op));
    }

    method Enqueue(op: Op) returns (ok: bool)
      modifies this`writes
      ensures ok == open && writes == old(writes) + Queued(Enqueued(open, op))
    {
      if open {
        writes := writes + [op];
      }
      return open;
    }

    /** The read loop releases a follow-up: logged, then pushed and marked, or taken back when the channel is
        full. */
    method SendFollowUp(reference: string, followUp: FollowUp, now: int) returns (ghost steps: seq<Step>)
      requires Valid() && conn.reader == Releasing(reference, followUp, now)
      modifies this`writeChannel, this`writes, this`conn
      ensures Valid() && conn.reader == Idle && Walked(old(conn), old(writes), steps)
      ensures forall i :: 0 <= i < |steps| ==> IsReaderStep(steps[i]) && !steps[i].Receive?
    {
      hide Follow;
      hide Do;
      hide Enqueued;
      ghost var c, w := conn, writes;
      steps := [];
      Standing(c, w);
      FollowUpSteps(name, conn, open, reference, followUp, now);
      var entry := Entry(followUp.testId, now, reference, name, Some(followUp.mti), "", "", "", "", "", None);
      var ok := Enqueue(AddRequestLog(entry));
      Walk(c, w, steps, RecordFollowUp, Enqueued(open, AddRequestLog(entry)));
      steps := steps + [RecordFollowUp];
      if ok {
        var more := EnqueueFollowUp(reference, followUp, now, c, w, steps);
        steps := more;
      }
    }

    /** The push of a logged follow-up, marked as sent, or its row taken back. */
    method EnqueueFollowUp(reference: string, followUp: FollowUp, now: int, ghost c: Conn, ghost w: seq<Op>,
                        ghost before: seq<Step>) returns (ghost steps: seq<Step>)
      requires Valid() && conn.reader == Logged(reference, followUp, now) && Walked(c, w, before)
      requires forall i :: 0 <= i < |before| ==> IsReaderStep(before[i]) && !before[i].Receive?
      modifies this`writeChannel, this`writes, this`conn
      ensures Valid() && conn.reader == Idle && Walked(c, w, steps)
      ensures forall i :: 0 <= i < |steps| ==> IsReaderStep(steps[i]) && !steps[i].Receive?
    {
      hide Follow;
      hide Do;
      hide Enqueued;
      FollowUpSteps(name, conn, open, reference, followUp, now);
      steps := before + [PushFollowUp];
      if |writeChannel| < CHANNEL_SIZE {
        writeChannel := writeChannel + [Request(reference, followUp.mti, followUp.raw)];
        Walk(c, w, before, PushFollowUp, None);
        FollowUpSteps(name, conn, open, reference, followUp, now);
        var _ := Enqueue(MarkScheduledMessageSent(reference, name, now));
        Walk(c, w, steps, MarkSent, Enqueued(open, MarkScheduledMessageSent(reference, name, now)));
        steps := steps + [MarkSent];
      } else {
        Walk(c, w, before, PushFollowUp, None);
        FollowUpSteps(name, conn, open, reference, followUp, now);
        var _ := Enqueue(DeleteRequestLog(reference, name, followUp.mti));
        Walk(c, w, steps, EraseFollowUp, Enqueued(open, DeleteRequestLog(reference, name, followUp.mti)));
        steps := steps + [EraseFollowUp];
      }
    }

    lemma Standing(c: Conn, before: seq<Op>)
      requires conn == c && writes == before
      ensures Walked(c, before, [])
    {}

    /** HandleRead on one parsed response, received at receivedAt; `now` is when a follow-up is released. */
    method HandleResponse(mti: string, reference: string, responseCode: string, authId: string, receivedAt: int,
                          now: int) returns (ghost steps: seq<Step>)
      requires Valid() && conn.reader == Idle && IsResponseMti(mti)
      modifies this`writeChannel, this`sentTimes, this`followUps, this`writes, this`conn
      ensures Valid() && conn.reader == Idle && Walked(old(conn), old(writes), steps)
      ensures steps != [] && steps[0] == Receive(mti, reference, responseCode, authId, receivedAt)
      ensures forall i :: 0 < i < |steps| ==> IsReaderStep(steps[i]) && !steps[i].Receive?
    {
      hide Follow;
      hide MatchKey;
      hide Do;
      hide Enqueued;
      ghost var c, w := conn, writes;
      Standing(c, w);
      ReceiveStep(name, conn, open, mti, reference, responseCode, authId, receivedAt);
      var key := MatchKey(mti, reference);
      ghost var received := Receive(mti, reference, responseCode, authId, receivedAt);
      steps := [] + [received];
      if key !in sentTimes {
        Walk(c, w, [], received, None);
        return;
      }
      var request := sentTimes[key];
      sentTimes := sentTimes - {key};
      Walk(c, w, [], received, None);
      var more := RecordResponse(reference, request, responseCode, authId, receivedAt, now, c, w, steps);
      steps := more;
    }

    /** A matched response: its UPDATE first, then the follow-up that waited for it. */
    method RecordResponse(reference: string, request: SentRequest, responseCode: string, authId: string,
                          receivedAt: int, now: int, ghost c: Conn, ghost w: seq<Op>, ghost before: seq<Step>)
      returns (ghost steps: seq<Step>)
      requires Valid() && Walked(c, w, before)
      requires conn.reader == Matched(reference, request, receivedAt, responseCode, authId)
      modifies this`writeChannel, this`followUps, this`writes, this`conn
      ensures Valid() && conn.reader == Idle && Walked(c, w, steps) && before <= steps
      ensures forall i :: |before| <= i < |steps| ==> IsReaderStep(steps[i]) && !steps[i].Receive?
    {
      hide Follow;
      hide Do;
      hide Enqueued;
      MatchedSteps(name, conn, open, reference, request, receivedAt, responseCode, authId, now);
      var update := UpdateResponseTime(reference, name, request.mti, request.at, receivedAt, responseCode, authId);
      var _ := Enqueue(update);
      Walk(c, w, before, Update, Enqueued(open, update));
      steps := before + [Update];
      MatchedSteps(name, conn, open, reference, request, receivedAt, responseCode, authId, now);
      if reference !in followUps {
        Walk(c, w, steps, Release(now), None);
        steps := steps + [Release(now)];
        return;
      }
      var followUp := followUps[reference];
      followUps := followUps - {reference};
      Walk(c, w, steps, Release(now), None);
      steps := steps + [Release(now)];
      ghost var c1, w1 := conn, writes;
      var more := SendFollowUp(reference, followUp, now);
      Joined(c, w, steps, c1, w1, more);
      steps := steps + more;
    }

    /** HandleRead's dispatch of one parsed message: a response is handled, a request is answered by another
        goroutine, anything else is dropped. */
    method HandleMessage(mti: string, reference: string, responseCode: string, authId: string, receivedAt: int,
                         now: int) returns (answer: bool, ghost steps: seq<Step>)
      requires Valid() && conn.reader == Idle
      modifies this`writeChannel, this`sentTimes, this`followUps, this`writes, this`conn
      ensures Valid() && conn.reader == Idle && Walked(old(conn), old(writes), steps)
      ensures answer == IsRequestMti(mti)
      ensures IsResponseMti(mti) && !IsRequestMti(mti) ==>
                steps != [] && steps[0] == Receive(mti, reference, responseCode, authId, receivedAt) &&
                forall i :: 0 < i < |steps| ==> IsReaderStep(steps[i]) && !steps[i].Receive?
      ensures !IsResponseMti(mti) || IsRequestMti(mti) ==> steps == []
    {
      hide Follow;
      hide IsRequestMti;
      hide IsResponseMti;
      steps := [];
      Standing(conn, writes);
      if IsRequestMti(mti) {
        return true, [];
      }
      if IsResponseMti(mti) {
        steps := HandleResponse(mti, reference, responseCode, authId, receivedAt, now);
      }
      answer := false;
    }

    lemma Joined(c: Conn, before: seq<Op>, steps: seq<Step>, mid: Conn, later: seq<Op>, more: seq<Step>)
      requires Follow(name, c, open, steps).Some? && Follow(name, c, open, steps).value.conn == mid
      requires later == before + Follow(name, c, open, steps).value.ops
      requires Walked(mid, later, more)
      ensures Walked(c, before, steps + more)
    {
      FollowConcat(name, c, open, steps, more);
      hide Follow;
      Associative(before, Follow(name, c, open, steps).value.ops, Follow(name, mid, open, more).value.ops);
    }

    /** sendSingleMessage and sendRefund, from the drawn reference on. Every outcome is one of: handed over;
        dropped with its row and its follow-up withdrawn; or never logged because the database is closed. */
    method SendSingleMessage(t: Task, now: int) returns (ghost steps: seq<Step>)
      requires Valid() && NewTask(name, t) && t.entry.reference !in conn.tasks
      modifies this`writeChannel, this`followUps, this`writes, this`conn
      ensures Valid() && Walked(old(conn), old(writes), steps)
      ensures OwnSteps([Draw(t)], steps, t.entry.reference)
      ensures t.entry.reference in conn.tasks
      ensures conn.tasks[t.entry.reference].stage == if !open then Abandoned
              else if |old(writeChannel)| < 1024 then Handed else Dropped
    {
      hide Follow;
      hide Do;
      hide Enqueued;
      ghost var c, w := conn, writes;
      Standing(c, w);
      var r := t.entry.reference;
      DrawStep(name, conn, open, t);
      Walk(c, w, [], Draw(t), None);
      steps := [] + [Draw(t)];
      if t.followUp.Some? {
        var more := PlanFollowUp(t, now, c, w, steps);
        steps := more;
      }
      var ok, logged := LogRequest(t, c, w, steps);
      steps := logged;
      if ok {
        var more := HandOver(t, c, w, steps);
        steps := more;
      }
    }

    /** The row is queued before the message; a closed database stops the request here. */
    method LogRequest(t: Task, ghost c: Conn, ghost w: seq<Op>, ghost before: seq<Step>)
      returns (ok: bool, ghost steps: seq<Step>)
      requires Valid() && Walked(c, w, before) && t.stage == Drawn
      requires At(t, if t.followUp.Some? then Registered else Drawn)
      modifies this`followUps, this`writes, this`conn
      ensures Valid() && Walked(c, w, steps) && OwnSteps(before, steps, t.entry.reference)
      ensures ok == open && At(t, if ok then Recorded else Abandoned)
    {
      hide Follow;
      hide Do;
      hide Enqueued;
      var r := t.entry.reference;
      LoggedSteps(name, conn, open, r);
      ok := Enqueue(AddRequestLog(t.entry));
      Walk(c, w, before, Record(r), Enqueued(open, AddRequestLog(t.entry)));
      steps := before + [Record(r)];
      if !ok {
        LoggedSteps(name, conn, open, r);
        followUps := followUps - {r};
        Walk(c, w, steps, Abandon(r), None);
        steps := steps + [Abandon(r)];
      }
    }

    ghost predicate At(t: Task, stage: Stage)
      reads this
    {
      t.entry.reference in conn.tasks && conn.tasks[t.entry.reference] == t.(stage := stage)
    }

    /** The follow-up is recorded and registered before the original is queued. */
    method PlanFollowUp(t: Task, now: int, ghost c: Conn, ghost w: seq<Op>, ghost before: seq<Step>)
      returns (ghost steps: seq<Step>)
      requires Valid() && t.followUp.Some? && t.stage == Drawn && At(t, Drawn) && Walked(c, w, before)
      modifies this`followUps, this`writes, this`conn
      ensures Valid() && At(t, Registered)
      ensures steps == before + [Schedule(t.entry.reference, now)] + [Register(t.entry.reference)]
      ensures Walked(c, w, steps)
    {
      hide Follow;
      var r := t.entry.reference;
      var plan := AddScheduledMessage(t.entry.testId, now, r, name, t.followUp.value.raw);
      var _ := Enqueue(plan);
      Walk(c, w, before, Schedule(r, now), Enqueued(open, plan));
      followUps := followUps[r := t.followUp.value];
      Walk(c, w, before + [Schedule(r, now)], Register(r), None);
      steps := before + [Schedule(r, now)] + [Register(r)];
    }

    /** The push, or everything taken back. */
    method HandOver(t: Task, ghost c: Conn, ghost w: seq<Op>, ghost before: seq<Step>)
      returns (ghost steps: seq<Step>)
      requires Valid() && open && At(t, Recorded) && Walked(c, w, before)
      modifies this`writeChannel, this`followUps, this`writes, this`conn
      ensures Valid() && Walked(c, w, steps) && OwnSteps(before, steps, t.entry.reference)
      ensures At(t, if |old(writeChannel)| < 1024 then Handed else Dropped)
    {
      hide Follow;
      hide Do;
      hide Enqueued;
      var r := t.entry.reference;
      steps := before + [Push(r)];
      HandOverSteps(name, conn, open, r);
      if |writeChannel| < CHANNEL_SIZE {
        writeChannel := writeChannel + [Request(r, MtiOf(t), t.entry.requestMessage)];
        Walk(c, w, before, Push(r), None);
        return;
      }
      Walk(c, w, before, Push(r), None);
      HandOverSteps(name, conn, open, r);
      followUps := followUps - {r};
      Walk(c, w, steps, Withdraw(r), None);
      steps := steps + [Withdraw(r)];
      HandOverSteps(name, conn, open, r);
      var _ := Enqueue(DeleteRequestLog(r, name, MtiOf(t)));
      Walk(c, w, steps, Erase(r), Enqueued(open, DeleteRequestLog(r, name, MtiOf(t))));
      steps := steps + [Erase(r)];
    }

    /** The write: only a message that carries no reference, or whose stamp is already in sentTimes, goes out. */
    method Write(socket: Socket, msg: Request, now: int)
      requires msg.reference != "" && |msg.mti| >= 4 ==>
                 MatchKey(msg.mti, msg.reference) in sentTimes &&
                 sentTimes[MatchKey(msg.mti, msg.reference)] == SentRequest(msg.mti, now)
      modifies socket`outgoing
      ensures socket.outgoing == old(socket.outgoing) + Frame(msg.raw)
    {
      socket.WriteMessage(msg.raw);
    }

    /** One message of HandleChannelEvents: taken, stamped, and only then written, as one frame. */
    method WriteNext(socket: Socket, now: int)
      requires Valid() && writeChannel != [] && conn.held.None?
      modifies this`writeChannel, this`sentTimes, this`conn, socket`outgoing
      ensures Valid() && writeChannel == old(writeChannel)[1..]
      ensures socket.outgoing == old(socket.outgoing) + Frame(old(writeChannel)[0].raw)
      ensures Walked(old(conn), old(writes), [TakeNext] + [Stamp(now)])
    {
      hide Follow;
      hide MatchKey;
      hide Do;
      hide Frame;
      ghost var c, w := conn, writes;
      Standing(c, w);
      WriterSteps(name, conn, open, now);
      var msg := writeChannel[0];
      writeChannel := writeChannel[1..];
      Walk(c, w, [], TakeNext, None);
      assert [] + [TakeNext] == [TakeNext];
      WriterSteps(name, conn, open, now);
      if msg.reference != "" && |msg.mti| >= 4 {
        sentTimes := sentTimes[MatchKey(msg.mti, msg.reference) := SentRequest(msg.mti, now)];
      }
      Walk(c, w, [TakeNext], Stamp(now), None);
      Write(socket, msg, now);
    }
  }
}
