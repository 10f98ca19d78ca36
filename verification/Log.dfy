/** The tables of database/dao.go and its queued statements as operations on them. A table maps primary
    keys to rows; AUTOINCREMENT never reuses a key. Times are nanoseconds. */
module Log {
  import opened Wrappers

  /** The columns an INSERT into request_response_log supplies. The type identifier is absent only in rows
      older than the column, and the original log id only in rows that are no refund. */
  datatype Entry = Entry(
    testId: int,
    requestTime: int,
    reference: string,
    connectionId: string,
    mti: Option<string>,
    processingCode: string,
    pan: string,
    amount: string,
    currency: string,
    requestMessage: string,
    originalLogId: Option<nat>)

  datatype Row = Row(
    entry: Entry,
    responseTime: Option<int>,
    timeTaken: Option<int>,
    responseCode: Option<string>,
    authId: Option<string>)

  datatype Scheduled = Scheduled(
    testId: int,
    createdAt: int,
    reference: string,
    connectionId: string,
    message: string,
    sentAt: Option<int>)

  datatype Db = Db(rows: map<nat, Row>, nextId: nat, scheduled: map<nat, Scheduled>, nextScheduledId: nat)

  datatype Op =
    | AddRequestLog(entry: Entry)
    | UpdateResponseTime(reference: string, connectionId: string, mti: string, requestTime: int,
                         responseTime: int, responseCode: string, authId: string)
    | DeleteRequestLog(reference: string, connectionId: string, mti: string)
    | AddScheduledMessage(testId: int, createdAt: int, reference: string, connectionId: string,
                          message: string)
    | MarkScheduledMessageSent(reference: string, connectionId: string, sentAt: int)

  /** time.Duration.Milliseconds: towards zero. */
  function Millis(d: int): int {
    if d >= 0 then d / 1_000_000 else -((-d) / 1_000_000)
  }

  function NewRow(entry: Entry): Row {
    Row(entry, None, None, None, None)
  }

  /** The WHERE clause of the UPDATE and the DELETE: the key matches and the row is unanswered. */
  predicate Targets(row: Row, reference: string, connectionId: string, mti: string) {
    && row.entry.reference == reference && row.entry.connectionId == connectionId
    && row.entry.mti == Some(mti) && row.timeTaken.None?
  }

  function Answered(row: Row, op: Op): Row
    requires op.UpdateResponseTime?
  {
    Row(row.entry.(requestTime := op.requestTime), Some(op.responseTime),
        Some(Millis(op.responseTime - op.requestTime)), Some(op.responseCode), Some(op.authId))
  }

  function Apply(db: Db, op: Op): Db {
    match op
    case AddRequestLog(entry) =>
      db.(rows := db.rows[db.nextId := NewRow(entry)], nextId := db.nextId + 1)
    case UpdateResponseTime(reference, connectionId, mti, _, _, _, _) =>
      db.(rows := map id | id in db.rows ::
                  if Targets(db.rows[id], reference, connectionId, mti) then Answered(db.rows[id], op)
                  else db.rows[id])
    case DeleteRequestLog(reference, connectionId, mti) =>
      db.(rows := map id | id in db.rows && !Targets(db.rows[id], reference, connectionId, mti) ::
                  db.rows[id])
    case AddScheduledMessage(testId, createdAt, reference, connectionId, message) =>
      db.(scheduled := db.scheduled[db.nextScheduledId :=
            Scheduled(testId, createdAt, reference, connectionId, message, None)],
          nextScheduledId := db.nextScheduledId + 1)
    case MarkScheduledMessageSent(reference, connectionId, sentAt) =>
      db.(scheduled := map id | id in db.scheduled ::
            if db.scheduled[id].reference == reference && db.scheduled[id].connectionId == connectionId
            then db.scheduled[id].(sentAt := Some(sentAt))
            else db.scheduled[id])
  }

  /** The operations one after another. */
  function ApplyAll(db: Db, ops: seq<Op>): Db {
    if ops == [] then db else Apply(ApplyAll(db, ops[..|ops| - 1]), ops[|ops| - 1])
  }

  lemma {:induction false} ApplyAllConcat(db: Db, a: seq<Op>, b: seq<Op>)
    ensures ApplyAll(db, a + b) == ApplyAll(ApplyAll(db, a), b)
  {
    if b == [] {
      assert a + b == a;
    } else {
      ApplyAllConcat(db, a, b[..|b| - 1]);
      assert (a + b)[..|a + b| - 1] == a + b[..|b| - 1];
    }
  }

  lemma ApplyAllSnoc(db: Db, a: seq<Op>, op: Op)
    ensures ApplyAll(db, a + [op]) == Apply(ApplyAll(db, a), op)
  {
    assert (a + [op])[..|a|] == a;
  }

  /** Milliseconds are whole and cut towards zero. */
  lemma MillisExact(d: int)
    ensures d >= 0 ==> Millis(d) * 1_000_000 <= d < (Millis(d) + 1) * 1_000_000
    ensures d <= 0 ==> (Millis(d) - 1) * 1_000_000 < d <= Millis(d) * 1_000_000
  {}

  /** An insert adds one unanswered row with exactly the columns given, under the next key. */
  lemma InsertExact(db: Db, entry: Entry, id: nat)
    ensures var d := Apply(db, AddRequestLog(entry));
            && (id in d.rows <==> id == db.nextId || id in db.rows)
            && (id == db.nextId ==> d.rows[id] == Row(entry, None, None, None, None))
            && (id != db.nextId && id in db.rows ==> d.rows[id] == db.rows[id])
            && d.nextId == db.nextId + 1 && d.scheduled == db.scheduled
  {}

  /** The UPDATE changes exactly the unanswered rows with this reference, connection and type: their request
      time and their answer. */
  lemma UpdateExact(db: Db, op: Op, id: nat)
    requires op.UpdateResponseTime? && id in db.rows
    ensures var row := db.rows[id];
            var d := Apply(db, op);
            && id in d.rows && d.rows.Keys == db.rows.Keys && d.nextId == db.nextId && d.scheduled == db.scheduled
            && d.rows[id] ==
               if row.entry.reference == op.reference && row.entry.connectionId == op.connectionId &&
                  row.entry.mti == Some(op.mti) && row.timeTaken.None?
               then Row(row.entry.(requestTime := op.requestTime), Some(op.responseTime),
                        Some(Millis(op.responseTime - op.requestTime)), Some(op.responseCode), Some(op.authId))
               else row
  {}

  /** The DELETE removes exactly the unanswered rows with this reference, connection and type. */
  lemma DeleteExact(db: Db, op: Op, id: nat)
    requires op.DeleteRequestLog? && id in db.rows
    ensures var row := db.rows[id];
            var d := Apply(db, op);
            && (id in d.rows <==>
                  !(row.entry.reference == op.reference && row.entry.connectionId == op.connectionId &&
                    row.entry.mti == Some(op.mti) && row.timeTaken.None?))
            && (id in d.rows ==> d.rows[id] == row)
            && d.nextId == db.nextId && d.scheduled == db.scheduled
  {}

  /** A plan is inserted with what was given and no time; the mark sets the time of exactly the plans with this
      reference and connection. */
  lemma PlanExact(db: Db, op: Op, id: nat)
    requires op.AddScheduledMessage? || (op.MarkScheduledMessageSent? && id in db.scheduled)
    ensures var d := Apply(db, op);
            && d.rows == db.rows
            && (op.AddScheduledMessage? ==>
                  && db.nextScheduledId in d.scheduled
                  && d.scheduled[db.nextScheduledId] ==
                     Scheduled(op.testId, op.createdAt, op.reference, op.connectionId, op.message, None)
                  && (id in db.scheduled && id != db.nextScheduledId ==>
                        id in d.scheduled && d.scheduled[id] == db.scheduled[id]))
            && (op.MarkScheduledMessageSent? ==>
                  && id in d.scheduled
                  && d.scheduled[id].sentAt ==
                     (if db.scheduled[id].reference == op.reference && db.scheduled[id].connectionId == op.connectionId
                      then Some(op.sentAt) else db.scheduled[id].sentAt)
                  && d.scheduled[id].(sentAt := None) == db.scheduled[id].(sentAt := None))
  {}

  /** Fresh keys: what AUTOINCREMENT guarantees. */
  predicate KeysBelow(db: Db) {
    && (forall id :: id in db.rows ==> id < db.nextId)
    && (forall id :: id in db.scheduled ==> id < db.nextScheduledId)
  }

  /** A response time and a response code are only ever written together. */
  predicate AnswersComplete(db: Db) {
    forall id :: id in db.rows ==> db.rows[id].timeTaken.None? == db.rows[id].responseCode.None?
  }

  /** An answered row is final: no queued statement changes or removes it. */
  lemma AnsweredRowsFinal(db: Db, op: Op, id: nat)
    requires KeysBelow(db) && id in db.rows && db.rows[id].timeTaken.Some?
    ensures id in Apply(db, op).rows && Apply(db, op).rows[id] == db.rows[id]
  {}

  /** Keys stay fresh, and answers stay complete, under every statement. */
  lemma ApplyKeeps(db: Db, op: Op)
    requires KeysBelow(db) && AnswersComplete(db)
    ensures KeysBelow(Apply(db, op)) && AnswersComplete(Apply(db, op))
  {}
}
