/** Requests, responses and follow-ups (network/server/iso_server.go) as a transition system. Each action is
    one atomic step of one goroutine: a stress or refund worker, a connection's write loop or read loop, or
    the peer. The steps read no table; each emits at most one statement for the log. */
module Protocol {
  import opened Wrappers
  import opened Matching
  import opened Log

  const CHANNEL_SIZE := 1024

  /** An element of a write channel; its reference is empty for answers and operator messages. */
  datatype Request = Request(reference: string, mti: string, raw: string)

  datatype FollowUp = FollowUp(mti: string, raw: string, testId: int)

  datatype SentRequest = SentRequest(mti: string, at: int)

  /** Where the read loop stands while it handles one matched response. */
  datatype Reader =
    | Idle
    | Matched(reference: string, sent: SentRequest, receivedAt: int, code: string, auth: string)
    | Updated(reference: string)
    | Releasing(reference: string, followUp: FollowUp, now: int)
    | Logged(reference: string, followUp: FollowUp, now: int)
    | Pushed(reference: string, now: int)
    | Refused(reference: string, followUp: FollowUp)

  /** Where a worker stands in handing over the request it drew a reference for. */
  datatype Stage =
    | Drawn | Planned | Registered | Recorded | Full | Withdrawn | Handed | Dropped | Rejected | Abandoned

  datatype Task = Task(entry: Entry, followUp: Option<FollowUp>, stage: Stage)

  /** A connection with the workers sending on it, by reference. released lists the follow-ups that entered
      the write channel, in order. */
  datatype Conn = Conn(
    tasks: map<string, Task>,
    channel: seq<Request>,
    held: Option<Request>,
    sent: map<string, SentRequest>,
    followUps: map<string, FollowUp>,
    reader: Reader,
    released: seq<string>)

  datatype Step =
    | Draw(task: Task)
    | Schedule(r: string, now: int)
    | Register(r: string)
    | Record(r: string)
    | Abandon(r: string)
    | Push(r: string)
    | Withdraw(r: string)
    | Erase(r: string)
    | PushRaw(raw: string)
    | TakeNext
    | Stamp(now: int)
    | Receive(mti: string, reference: string, code: string, auth: string, now: int)
    | Update
    | Release(now: int)
    | RecordFollowUp
    | PushFollowUp
    | MarkSent
    | EraseFollowUp

  datatype Effect = Effect(conn: Conn, op: Option<Op>)

  const NEW_CONN := Conn(map[], [], None, map[], map[], Idle, [])

  /** What a worker draws a reference for: a request of its own test, on its own connection, and perhaps the
      follow-up of the same test. */
  predicate NewTask(name: string, t: Task) {
    && t.entry.reference != "" && t.entry.connectionId == name
    && t.entry.mti.Some? && |t.entry.mti.value| == 4
    && (t.followUp.Some? ==> |t.followUp.value.mti| == 4 && t.followUp.value.testId == t.entry.testId)
    && t.stage == Drawn
  }

  function MtiOf(t: Task): string {
    if t.entry.mti.Some? then t.entry.mti.value else ""
  }

  function SetStage(c: Conn, r: string, stage: Stage): Conn
    requires r in c.tasks
  {
    c.(tasks := c.tasks[r := c.tasks[r].(stage := stage)])
  }

  /** A goroutine queues a statement; a closed database refuses it. */
  function Enqueued(open: bool, op: Op): Option<Op> {
    if open then Some(op) else None
  }

  function FollowUpEntry(name: string, reference: string, f: FollowUp, now: int): Entry {
    Entry(f.testId, now, reference, name, Some(f.mti), "", "", "", "", "", None)
  }

  predicate IsWorkerStep(a: Step) {
    a.Schedule? || a.Register? || a.Record? || a.Abandon? || a.Push? || a.Withdraw? || a.Erase?
  }

  predicate IsReaderStep(a: Step) {
    a.Receive? || a.Update? || a.Release? || a.RecordFollowUp? || a.PushFollowUp? || a.MarkSent? ||
    a.EraseFollowUp?
  }

  /** The effect of one step on the connection called `name`, or none when the step is not enabled. */
  function Do(name: string, c: Conn, open: bool, a: Step): Option<Effect> {
    if a.Draw? then
      if !NewTask(name, a.task) || a.task.entry.reference in c.tasks then None
      else Some(Effect(c.(tasks := c.tasks[a.task.entry.reference := a.task]), None))
    else if IsWorkerStep(a) then
      if a.r in c.tasks then DoWorker(name, c, open, a) else None
    else if IsReaderStep(a) then DoReader(name, c, open, a)
    else DoWriter(c, a)
  }

  /** sendSingleMessage and sendRefund, from the drawn reference on. */
  function DoWorker(name: string, c: Conn, open: bool, a: Step): Option<Effect>
    requires IsWorkerStep(a) && a.r in c.tasks
  {
    var r, t := a.r, c.tasks[a.r];
    match a
    case Schedule(_, now) =>
      if t.stage != Drawn || t.followUp.None? then None
      else Some(Effect(SetStage(c, r, Planned),
                       Enqueued(open, AddScheduledMessage(t.entry.testId, now, r, name,
                                                          t.followUp.value.raw))))
    case Register(_) =>
      if t.stage != Planned || t.followUp.None? then None
      else Some(Effect(SetStage(c, r, Registered).(followUps := c.followUps[r := t.followUp.value]), None))
    case Record(_) =>
      if t.stage != Registered && !(t.stage == Drawn && t.followUp.None?) then None
      else Some(Effect(SetStage(c, r, if open then Recorded else Rejected),
                       Enqueued(open, AddRequestLog(t.entry))))
    case Abandon(_) =>
      if t.stage != Rejected then None
      else Some(Effect(SetStage(c, r, Abandoned).(followUps := c.followUps - {r}), None))
    case Push(_) =>
      if t.stage != Recorded then None
      else if |c.channel| >= CHANNEL_SIZE then Some(Effect(SetStage(c, r, Full), None))
      else
        var q := Request(r, MtiOf(t), t.entry.requestMessage);
        Some(Effect(SetStage(c, r, Handed).(channel := c.channel + [q]), None))
    case Withdraw(_) =>
      if t.stage != Full then None
      else Some(Effect(SetStage(c, r, Withdrawn).(followUps := c.followUps - {r}), None))
    case Erase(_) =>
      if t.stage != Withdrawn then None
      else Some(Effect(SetStage(c, r, Dropped), Enqueued(open, DeleteRequestLog(r, name, MtiOf(t)))))
  }

  /** The write loop, and anything else that puts messages without a reference on the channel. */
  function DoWriter(c: Conn, a: Step): Option<Effect>
    requires a.PushRaw? || a.TakeNext? || a.Stamp?
  {
    match a
    case PushRaw(raw) =>
      if |c.channel| >= CHANNEL_SIZE then None
      else Some(Effect(c.(channel := c.channel + [Request("", "", raw)]), None))
    case TakeNext =>
      if c.held.Some? || c.channel == [] then None
      else Some(Effect(c.(held := Some(c.channel[0]), channel := c.channel[1..]), None))
    case Stamp(now) =>
      if c.held.None? then None
      else if c.held.value.reference == "" || |c.held.value.mti| < 4 then
        Some(Effect(c.(held := None), None))
      else
        var key := MatchKey(c.held.value.mti, c.held.value.reference);
        Some(Effect(c.(held := None, sent := c.sent[key := SentRequest(c.held.value.mti, now)]), None))
  }

  /** The read loop, for a peer that may send any message of a response type at any time. */
  function DoReader(name: string, c: Conn, open: bool, a: Step): Option<Effect>
    requires IsReaderStep(a)
  {
    var rd := c.reader;
    match a
    case Receive(mti, reference, code, auth, now) =>
      if rd != Idle || !IsResponseMti(mti) then None
      else
        var key := MatchKey(mti, reference);
        if key !in c.sent then Some(Effect(c, None))
        else Some(Effect(c.(sent := c.sent - {key},
                            reader := Matched(reference, c.sent[key], now, code, auth)), None))
    case Update =>
      if !rd.Matched? then None
      else Some(Effect(c.(reader := Updated(rd.reference)),
                       Enqueued(open, UpdateResponseTime(rd.reference, name, rd.sent.mti, rd.sent.at,
                                                         rd.receivedAt, rd.code, rd.auth))))
    case Release(now) =>
      if !rd.Updated? then None
      else if rd.reference !in c.followUps then Some(Effect(c.(reader := Idle), None))
      else Some(Effect(c.(followUps := c.followUps - {rd.reference},
                          reader := Releasing(rd.reference, c.followUps[rd.reference], now)), None))
    case RecordFollowUp =>
      if !rd.Releasing? then None
      else Some(Effect(c.(reader := if open then Logged(rd.reference, rd.followUp, rd.now) else Idle),
                       Enqueued(open, AddRequestLog(FollowUpEntry(name, rd.reference, rd.followUp, rd.now)))))
    case PushFollowUp =>
      if !rd.Logged? then None
      else if |c.channel| >= CHANNEL_SIZE then
        Some(Effect(c.(reader := Refused(rd.reference, rd.followUp)), None))
      else
        var q := Request(rd.reference, rd.followUp.mti, rd.followUp.raw);
        Some(Effect(c.(channel := c.channel + [q], reader := Pushed(rd.reference, rd.now),
                       released := c.released + [rd.reference]), None))
    case MarkSent =>
      if !rd.Pushed? then None
      else Some(Effect(c.(reader := Idle),
                       Enqueued(open, MarkScheduledMessageSent(rd.reference, name, rd.now))))
    case EraseFollowUp =>
      if !rd.Refused? then None
      else Some(Effect(c.(reader := Idle),
                       Enqueued(open, DeleteRequestLog(rd.reference, name, rd.followUp.mti))))
  }

  // ---------------------------------------------------------------- the whole server

  /** Every connection, every reference ever drawn, and whether the database accepts statements. */
  datatype State = State(conns: map<string, Conn>, used: set<string>, open: bool)

  datatype Action =
    | Connect(name: string)
    | CloseDb
    | On(name: string, step: Step)

  /** References are never drawn twice. */
  function Next(s: State, a: Action): Option<(State, Option<Op>)> {
    match a
    case Connect(name) =>
      if name in s.conns then None else Some((s.(conns := s.conns[name := NEW_CONN]), None))
    case CloseDb => Some((s.(open := false), None))
    case On(name, step) =>
      if name !in s.conns || (step.Draw? && step.task.entry.reference in s.used) then None
      else
        match Do(name, s.conns[name], s.open, step)
        case None => None
        case Some(e) =>
          var used := if step.Draw? then s.used + {step.task.entry.reference} else s.used;
          Some((s.(conns := s.conns[name := e.conn], used := used), e.op))
  }
}
