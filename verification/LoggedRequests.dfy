/** The log seen through one reference: while the database is open its unanswered rows are the requests
    under way, and a follow-up is logged only after its original is answered. */
module LoggedRequests {
  import opened Wrappers
  import opened Sets
  import opened Matching
  import opened Log
  import opened Protocol
  import opened Conservation

  ghost predicate RowOf(rows: map<nat, Row>, id: nat, r: string) {
    id in rows && rows[id].entry.reference == r
  }

  ghost predicate Unanswered(rows: map<nat, Row>, id: nat, r: string) {
    RowOf(rows, id, r) && rows[id].timeTaken.None?
  }

  ghost predicate HasUnanswered(rows: map<nat, Row>, r: string) {
    exists id :: Unanswered(rows, id, r)
  }

  ghost predicate AnswerOf(rows: map<nat, Row>, id: nat, entry: Entry) {
    && RowOf(rows, id, entry.reference) && rows[id].timeTaken.Some?
    && rows[id].entry.connectionId == entry.connectionId && rows[id].entry.mti == entry.mti
  }

  /** The request logged with `entry` is in the log, answered. */
  ghost predicate IsAnswered(rows: map<nat, Row>, entry: Entry) {
    exists id :: AnswerOf(rows, id, entry)
  }

  ghost predicate PlanOf(plans: map<nat, Scheduled>, id: nat, r: string) {
    id in plans && plans[id].reference == r
  }

  ghost predicate HasPlan(plans: map<nat, Scheduled>, r: string) {
    exists id :: PlanOf(plans, id, r)
  }

  // ---------------------------------------------------------------- the invariant

  predicate IsLogged(stage: Stage) {
    Handing(stage) || stage == Dropped || stage == Handed
  }

  /** The live request is the follow-up, not the original. */
  predicate FollowUpLive(v: View) {
    v.releases > 0 || v.reader.Logged? || v.reader.Refused?
  }

  /** The type identifier of the request under way. */
  function CurrentMti(v: View): string
    requires v.task.Some?
  {
    if FollowUpLive(v) && v.task.value.followUp.Some? then v.task.value.followUp.value.mti
    else MtiOf(v.task.value)
  }

  /** At most one row of r is unanswered. While the database is open there is one exactly when r is in some
      place, and it is the row of the request under way. */
  ghost predicate RowsOk(name: string, r: string, v: View, open: bool, rows: map<nat, Row>)
    requires v.task.Some?
  {
    && (forall i, j :: Unanswered(rows, i, r) && Unanswered(rows, j, r) ==> i == j)
    && (open ==> (HasUnanswered(rows, r) <==> Places(v) == 1))
    && (forall id :: open && Unanswered(rows, id, r) ==>
          rows[id].entry.connectionId == name && rows[id].entry.mti == Some(CurrentMti(v)))
    && (forall id :: RowOf(rows, id, r) ==>
          && IsLogged(v.task.value.stage) && (open ==> v.task.value.stage != Dropped)
          && (Handing(v.task.value.stage) ==> rows[id].timeTaken.None?))
  }

  /** An original is answered once its request is in no place, and before its follow-up is logged. */
  ghost predicate AnswersOk(v: View, open: bool, rows: map<nat, Row>)
    requires v.task.Some?
  {
    (open && v.task.value.stage == Handed && Places(v) == 0) || FollowUpLive(v) ==>
      IsAnswered(rows, v.task.value.entry)
  }

  /** A planned follow-up is marked sent only if it was released, and always once the mark is queued. */
  ghost predicate PlansOk(name: string, r: string, v: View, open: bool, plans: map<nat, Scheduled>)
    requires v.task.Some?
  {
    var t := v.task.value;
    && (forall i, j :: PlanOf(plans, i, r) && PlanOf(plans, j, r) ==> i == j)
    && (forall id :: PlanOf(plans, id, r) ==>
          && plans[id].connectionId == name && t.followUp.Some? && t.stage != Drawn
          && (plans[id].sentAt.Some? ==> v.releases > 0)
          && (open && v.releases > 0 && !v.reader.Pushed? ==> plans[id].sentAt.Some?))
    && (open && t.followUp.Some? && t.stage != Drawn ==> HasPlan(plans, r))
  }

  ghost predicate FactsOk(name: string, r: string, v: View, open: bool, db: Db) {
    v.task.Some? ==>
      && RowsOk(name, r, v, open, db.rows)
      && AnswersOk(v, open, db.rows)
      && PlansOk(name, r, v, open, db.scheduled)
  }

  function RowsFor(rows: map<nat, Row>, r: string): set<nat> {
    set id | id in rows && rows[id].entry.reference == r
  }

  /** How many rows the requests made under this reference have: the original's once it is logged and unless
      it was dropped, and the follow-up's once the read loop has logged it. */
  function LoggedRows(v: View): nat
    requires v.task.Some?
  {
    (if IsLogged(v.task.value.stage) && v.task.value.stage != Dropped then 1 else 0) +
    (if FollowUpLive(v) then 1 else 0)
  }

  ghost predicate CountOk(r: string, v: View, open: bool, rows: map<nat, Row>) {
    v.task.Some? && open ==> |RowsFor(rows, r)| == LoggedRows(v)
  }

  ghost predicate RefOk(name: string, r: string, v: View, open: bool, db: Db) {
    FactsOk(name, r, v, open, db) && CountOk(r, v, open, db.rows)
  }

  // ---------------------------------------------------------------- statements about other references

  function OpReference(op: Op): string {
    match op
    case AddRequestLog(entry) => entry.reference
    case UpdateResponseTime(reference, _, _, _, _, _, _) => reference
    case DeleteRequestLog(reference, _, _) => reference
    case AddScheduledMessage(_, _, reference, _, _) => reference
    case MarkScheduledMessageSent(reference, _, _) => reference
  }

  ghost predicate SameRows(a: map<nat, Row>, b: map<nat, Row>, r: string) {
    forall id :: (RowOf(a, id, r) <==> RowOf(b, id, r)) && (RowOf(a, id, r) ==> b[id] == a[id])
  }

  ghost predicate SamePlans(a: map<nat, Scheduled>, b: map<nat, Scheduled>, r: string) {
    forall id :: (PlanOf(a, id, r) <==> PlanOf(b, id, r)) && (PlanOf(a, id, r) ==> b[id] == a[id])
  }

  lemma ApplyOthers(db: Db, op: Op, r: string)
    requires KeysBelow(db) && OpReference(op) != r
    ensures SameRows(db.rows, Apply(db, op).rows, r) && SamePlans(db.scheduled, Apply(db, op).scheduled, r)
  {}

  lemma SameRowsFacts(a: map<nat, Row>, b: map<nat, Row>, r: string)
    requires SameRows(a, b, r)
    ensures HasUnanswered(a, r) <==> HasUnanswered(b, r)
    ensures forall id :: Unanswered(a, id, r) <==> Unanswered(b, id, r)
    ensures forall entry: Entry :: entry.reference == r && IsAnswered(a, entry) ==> IsAnswered(b, entry)
  {
    if HasUnanswered(a, r) {
      var id :| Unanswered(a, id, r);
      assert Unanswered(b, id, r);
    }
    if HasUnanswered(b, r) {
      var id :| Unanswered(b, id, r);
      assert Unanswered(a, id, r);
    }
    forall entry: Entry | entry.reference == r && IsAnswered(a, entry) ensures IsAnswered(b, entry) {
      var id :| AnswerOf(a, id, entry);
      assert AnswerOf(b, id, entry);
    }
  }

  lemma OtherPlansKept(name: string, r: string, v: View, open: bool, db: Db, op: Op)
    requires v.task.Some? && KeysBelow(db) && OpReference(op) != r
    requires PlansOk(name, r, v, open, db.scheduled)
    ensures PlansOk(name, r, v, open, Apply(db, op).scheduled)
  {
    var d := Apply(db, op);
    ApplyOthers(db, op, r);
    hide Apply;
    if HasPlan(db.scheduled, r) {
      var id :| PlanOf(db.scheduled, id, r);
      assert PlanOf(d.scheduled, id, r);
    }
  }

  lemma OtherFactsKept(name: string, r: string, v: View, open: bool, db: Db, op: Op)
    requires KeysBelow(db) && OpReference(op) != r && ViewOk(name, r, v) && FactsOk(name, r, v, open, db)
    ensures FactsOk(name, r, v, open, Apply(db, op))
  {
    hide ViewOk;
    hide HasUnanswered;
    hide IsAnswered;
    hide CurrentMti;
    hide Places;
    hide FollowUpLive;
    hide PlansOk;
    if v.task.Some? {
      NamedTask(name, r, v);
      var d := Apply(db, op);
      ApplyOthers(db, op, r);
      OtherPlansKept(name, r, v, open, db, op);
      hide Apply;
      SameRowsFacts(db.rows, d.rows, r);
    }
  }

  lemma NamedTask(name: string, r: string, v: View)
    requires ViewOk(name, r, v) && v.task.Some?
    ensures v.task.value.entry.reference == r
  {
    hide HandedOk;
  }

  /** What is known of a reference survives every statement about another one. */
  lemma OthersKept(name: string, r: string, v: View, open: bool, db: Db, op: Op)
    requires KeysBelow(db) && OpReference(op) != r && ViewOk(name, r, v) && RefOk(name, r, v, open, db)
    ensures RefOk(name, r, v, open, Apply(db, op))
  {
    OtherFactsKept(name, r, v, open, db, op);
    ApplyOthers(db, op, r);
    hide FactsOk;
    hide Apply;
    hide LoggedRows;
    SameRowsFor(db.rows, Apply(db, op).rows, r);
  }

  lemma SameRowsFor(a: map<nat, Row>, b: map<nat, Row>, r: string)
    requires SameRows(a, b, r)
    ensures RowsFor(a, r) == RowsFor(b, r)
  {
    assert forall id :: id in RowsFor(a, r) <==> RowOf(a, id, r);
    assert forall id :: id in RowsFor(b, r) <==> RowOf(b, id, r);
  }

  // ---------------------------------------------------------------- statements about the acted reference

  /** The statement a step queues, as the reference it is about sees it. */
  function OpAfter(name: string, open: bool, r: string, v: View, a: Step): Option<Op>
    requires After(open, false, r, v, a).Some? || After(open, true, r, v, a).Some?
  {
    var rd := v.reader;
    if !open then None
    else
      match a
      case Schedule(_, now) =>
        Some(AddScheduledMessage(v.task.value.entry.testId, now, r, name, v.task.value.followUp.value.raw))
      case Record(_) => Some(AddRequestLog(v.task.value.entry))
      case Erase(_) => Some(DeleteRequestLog(r, name, MtiOf(v.task.value)))
      case Update =>
        Some(UpdateResponseTime(r, name, rd.sent.mti, rd.sent.at, rd.receivedAt, rd.code, rd.auth))
      case RecordFollowUp => Some(AddRequestLog(FollowUpEntry(name, r, rd.followUp, rd.now)))
      case MarkSent => Some(MarkScheduledMessageSent(r, name, rd.now))
      case EraseFollowUp => Some(DeleteRequestLog(r, name, rd.followUp.mti))
      case _ => None
  }

  lemma OpFollows(name: string, c: Conn, open: bool, a: Step)
    requires Do(name, c, open, a).Some?
    requires After(open, IsFull(c), Acted(c, a), ViewOf(c, Acted(c, a)), a).Some?
    ensures After(open, false, Acted(c, a), ViewOf(c, Acted(c, a)), a).Some? ||
            After(open, true, Acted(c, a), ViewOf(c, Acted(c, a)), a).Some?
    ensures Do(name, c, open, a).value.op == OpAfter(name, open, Acted(c, a), ViewOf(c, Acted(c, a)), a)
  {
    hide QueuedMtis;
    hide SentOf;
    hide MatchKey;
  }

  ghost predicate Effective(name: string, r: string, v: View, open: bool, full: bool, db: Db, a: Step) {
    && KeysBelow(db) && ViewOk(name, r, v) && FactsOk(name, r, v, open, db) && v.task.Some?
    && After(open, full, r, v, a).Some?
  }

  lemma AnswersPersist(db: Db, op: Op, entry: Entry)
    requires KeysBelow(db) && IsAnswered(db.rows, entry)
    ensures IsAnswered(Apply(db, op).rows, entry)
  {
    var id :| AnswerOf(db.rows, id, entry);
    AnsweredRowsFinal(db, op, id);
    assert AnswerOf(Apply(db, op).rows, id, entry);
  }

  lemma RecordLogged(name: string, r: string, v: View, full: bool, db: Db, a: Step)
    requires Effective(name, r, v, true, full, db, a) && a.Record?
    ensures FactsOk(name, r, After(true, full, r, v, a).value, true,
                  Apply(db, OpAfter(name, true, r, v, a).value))
  {
    var d := Apply(db, AddRequestLog(v.task.value.entry));
    assert Unanswered(d.rows, db.nextId, r);
    assert forall id :: RowOf(d.rows, id, r) ==> id == db.nextId;
  }

  lemma FollowUpLogged(name: string, r: string, v: View, full: bool, db: Db, a: Step)
    requires Effective(name, r, v, true, full, db, a) && a.RecordFollowUp?
    ensures FactsOk(name, r, After(true, full, r, v, a).value, true,
                  Apply(db, OpAfter(name, true, r, v, a).value))
  {
    var op := AddRequestLog(FollowUpEntry(name, r, v.reader.followUp, v.reader.now));
    var d := Apply(db, op);
    assert Unanswered(d.rows, db.nextId, r);
    assert forall id :: Unanswered(d.rows, id, r) ==> id == db.nextId || Unanswered(db.rows, id, r);
    AnswersPersist(db, op, v.task.value.entry);
  }

  lemma ResponseLogged(name: string, r: string, v: View, full: bool, db: Db, a: Step)
    requires Effective(name, r, v, true, full, db, a) && a.Update?
    ensures FactsOk(name, r, After(true, full, r, v, a).value, true,
                  Apply(db, OpAfter(name, true, r, v, a).value))
  {
    var op := OpAfter(name, true, r, v, a).value;
    var d := Apply(db, op);
    var id :| Unanswered(db.rows, id, r);
    assert Targets(db.rows[id], r, name, v.reader.sent.mti);
    assert forall i :: !Unanswered(d.rows, i, r);
    if FollowUpLive(v) {
      AnswersPersist(db, op, v.task.value.entry);
    } else {
      assert AnswerOf(d.rows, id, v.task.value.entry);
    }
  }

  lemma Erased(name: string, r: string, v: View, db: Db, mti: string)
    requires v.task.Some? && RowsOk(name, r, v, true, db.rows) && Places(v) == 1 && CurrentMti(v) == mti
    ensures forall i :: RowOf(Apply(db, DeleteRequestLog(r, name, mti)).rows, i, r) <==>
                        RowOf(db.rows, i, r) && !Unanswered(db.rows, i, r)
    ensures forall i :: i in Apply(db, DeleteRequestLog(r, name, mti)).rows ==>
              i in db.rows && Apply(db, DeleteRequestLog(r, name, mti)).rows[i] == db.rows[i]
  {
    hide Places;
    hide CurrentMti;
    assert forall i :: Unanswered(db.rows, i, r) ==> Targets(db.rows[i], r, name, mti);
  }

  lemma DropFacts(name: string, r: string, v: View, w: View, db: Db, mti: string)
    requires KeysBelow(db) && v.task.Some? && w.task.Some? && FactsOk(name, r, v, true, db)
    requires w.task.value == v.task.value.(stage := Dropped) && v.task.value.stage == Withdrawn
    requires w.releases == v.releases == 0 && Places(v) == 1 && CurrentMti(v) == mti && Places(w) == 0
    requires !FollowUpLive(w)
    ensures FactsOk(name, r, w, true, Apply(db, DeleteRequestLog(r, name, mti)))
  {
    hide Places;
    hide FollowUpLive;
    hide CurrentMti;
    hide IsAnswered;
    Erased(name, r, v, db, mti);
    var d := Apply(db, DeleteRequestLog(r, name, mti));
    assert d.scheduled == db.scheduled;
    hide Apply;
    assert forall i :: RowOf(db.rows, i, r) ==> Unanswered(db.rows, i, r);
    assert forall i :: !RowOf(d.rows, i, r);
  }

  lemma DropLogged(name: string, r: string, v: View, full: bool, db: Db, a: Step)
    requires Effective(name, r, v, true, full, db, a) && a.Erase?
    ensures FactsOk(name, r, After(true, full, r, v, a).value, true,
                    Apply(db, OpAfter(name, true, r, v, a).value))
  {
    hide Apply;
    hide FactsOk;
    DropFacts(name, r, v, AtStage(v, Dropped), db, MtiOf(v.task.value));
  }

  lemma DropFollowUpFacts(name: string, r: string, v: View, w: View, db: Db, mti: string)
    requires KeysBelow(db) && v.task.Some? && FactsOk(name, r, v, true, db)
    requires w.task == v.task && w.releases == v.releases == 0 && v.task.value.stage == Handed
    requires Places(v) == 1 && FollowUpLive(v) && CurrentMti(v) == mti && Places(w) == 0 && !FollowUpLive(w)
    ensures FactsOk(name, r, w, true, Apply(db, DeleteRequestLog(r, name, mti)))
  {
    hide Places;
    hide FollowUpLive;
    hide CurrentMti;
    hide IsAnswered;
    var op := DeleteRequestLog(r, name, mti);
    Erased(name, r, v, db, mti);
    AnswersPersist(db, op, v.task.value.entry);
    var d := Apply(db, op);
    assert d.scheduled == db.scheduled;
    hide Apply;
    assert forall i :: !Unanswered(d.rows, i, r);
  }

  lemma DropFollowUpLogged(name: string, r: string, v: View, full: bool, db: Db, a: Step)
    requires Effective(name, r, v, true, full, db, a) && a.EraseFollowUp?
    ensures FactsOk(name, r, After(true, full, r, v, a).value, true,
                    Apply(db, OpAfter(name, true, r, v, a).value))
  {
    hide Apply;
    hide FactsOk;
    Reading(name, r, v);
    DropFollowUpFacts(name, r, v, v.(reader := Idle), db, v.reader.followUp.mti);
  }

  lemma PlanLogged(name: string, r: string, v: View, full: bool, db: Db, a: Step)
    requires Effective(name, r, v, true, full, db, a) && a.Schedule?
    ensures FactsOk(name, r, After(true, full, r, v, a).value, true,
                  Apply(db, OpAfter(name, true, r, v, a).value))
  {
    var d := Apply(db, OpAfter(name, true, r, v, a).value);
    assert PlanOf(d.scheduled, db.nextScheduledId, r);
    assert d.rows == db.rows && Places(v) == 0;
    hide Unanswered;
    hide IsAnswered;
  }

  /** The new view makes no new claim on the rows. */
  predicate QuietRows(v: View, w: View, open: bool) {
    && v.task.Some? && w.task.Some?
    && w.task.value.entry == v.task.value.entry && w.task.value.followUp == v.task.value.followUp
    && (FollowUpLive(w) ==> FollowUpLive(v))
    && (IsLogged(v.task.value.stage) ==> IsLogged(w.task.value.stage))
    && (Handing(w.task.value.stage) ==> Handing(v.task.value.stage))
    && (open ==>
          && Places(w) == Places(v) && FollowUpLive(w) == FollowUpLive(v)
          && (w.task.value.stage == Dropped ==> v.task.value.stage == Dropped)
          && (w.task.value.stage == Handed && Places(w) == 0 ==> v.task.value.stage == Handed))
  }

  /** Nor on the plans. */
  predicate QuietPlans(v: View, w: View, open: bool) {
    && v.task.Some? && w.task.Some?
    && w.task.value.entry == v.task.value.entry && w.task.value.followUp == v.task.value.followUp
    && (w.task.value.stage == Drawn ==> v.task.value.stage == Drawn)
    && v.releases <= w.releases
    && (open ==>
          && (w.task.value.followUp.Some? && v.task.value.stage == Drawn ==> w.task.value.stage == Drawn)
          && (w.releases > 0 && !w.reader.Pushed? ==> v.releases > 0 && !v.reader.Pushed?))
  }

  predicate Quiet(v: View, w: View, open: bool) {
    QuietRows(v, w, open) && QuietPlans(v, w, open)
  }

  lemma QuietRowsPreserve(name: string, r: string, v: View, w: View, open: bool, rows: map<nat, Row>)
    requires QuietRows(v, w, open) && RowsOk(name, r, v, open, rows) && AnswersOk(v, open, rows)
    ensures RowsOk(name, r, w, open, rows) && AnswersOk(w, open, rows)
  {
    hide Places;
    hide FollowUpLive;
    hide IsLogged;
    hide Handing;
  }

  lemma QuietPreserves(name: string, r: string, v: View, w: View, open: bool, db: Db)
    requires Quiet(v, w, open) && FactsOk(name, r, v, open, db)
    ensures FactsOk(name, r, w, open, db)
  {
    QuietRowsPreserve(name, r, v, w, open, db.rows);
    hide RowsOk;
    hide AnswersOk;
    hide QuietRows;
  }

  lemma MarkLogged(name: string, r: string, v: View, full: bool, db: Db, a: Step)
    requires Effective(name, r, v, true, full, db, a) && a.MarkSent?
    ensures FactsOk(name, r, After(true, full, r, v, a).value, true,
                  Apply(db, OpAfter(name, true, r, v, a).value))
  {
    var d := Apply(db, OpAfter(name, true, r, v, a).value);
    var w := v.(reader := Idle);
    assert After(true, full, r, v, a).value == w && d.rows == db.rows;
    assert QuietRows(v, w, true);
    QuietRowsPreserve(name, r, v, w, true, db.rows);
    hide RowsOk;
    hide AnswersOk;
    hide After;
    MarkedPlans(name, r, v, db, v.reader.now);
  }

  lemma MarkedPlans(name: string, r: string, v: View, db: Db, now: int)
    requires v.task.Some? && v.reader.Pushed? && v.releases > 0
    requires v.task.value.followUp.Some? && v.task.value.stage != Drawn
    requires PlansOk(name, r, v, true, db.scheduled)
    ensures PlansOk(name, r, v.(reader := Idle), true,
                    Apply(db, MarkScheduledMessageSent(r, name, now)).scheduled)
  {
    var d := Apply(db, MarkScheduledMessageSent(r, name, now));
    var id :| PlanOf(db.scheduled, id, r);
    assert PlanOf(d.scheduled, id, r);
    assert forall i :: PlanOf(d.scheduled, i, r) <==> PlanOf(db.scheduled, i, r);
  }

  predicate Emits(a: Step) {
    a.Schedule? || a.Record? || a.Erase? || a.Update? || a.RecordFollowUp? || a.MarkSent? || a.EraseFollowUp?
  }

  lemma QuietWorker(name: string, r: string, v: View, open: bool, full: bool, a: Step)
    requires ViewOk(name, r, v) && v.task.Some? && IsWorkerStep(a)
    requires AfterWorker(open, full, v, a).Some? && (open ==> !Emits(a))
    ensures Quiet(v, AfterWorker(open, full, v, a).value, open)
  {
    hide MatchKey;
    hide HandedOk;
  }

  lemma QuietWriter(name: string, r: string, v: View, open: bool, a: Step)
    requires (a.TakeNext? || a.Stamp?) && v.task.Some? && ViewOk(name, r, v) && AfterWriter(r, v, a).Some?
    ensures Quiet(v, AfterWriter(r, v, a).value, open)
  {
    hide MatchKey;
  }

  lemma QuietReceive(name: string, r: string, v: View, open: bool, full: bool, a: Step)
    requires a.Receive? && v.task.Some? && ViewOk(name, r, v) && AfterReader(open, full, r, v, a).Some?
    ensures Quiet(v, AfterReader(open, full, r, v, a).value, open)
  {
    if |a.mti| == 4 && MatchKey(a.mti, r) in v.sent {
      TakenOut(v.sent, MatchKey(a.mti, r));
    }
    hide MatchKey;
  }

  lemma QuietReader(name: string, r: string, v: View, open: bool, full: bool, a: Step)
    requires IsReaderStep(a) && !a.Receive? && v.task.Some? && ViewOk(name, r, v)
    requires AfterReader(open, full, r, v, a).Some? && (open ==> !Emits(a))
    ensures Quiet(v, AfterReader(open, full, r, v, a).value, open)
  {
    hide MatchKey;
  }

  lemma EmittingFacts(name: string, r: string, v: View, full: bool, db: Db, a: Step)
    requires Effective(name, r, v, true, full, db, a) && Emits(a)
    ensures FactsOk(name, r, After(true, full, r, v, a).value, true,
                    ApplyOpt(db, OpAfter(name, true, r, v, a)))
  {
    hide FactsOk;
    hide ViewOk;
    hide AfterWorker;
    hide AfterReader;
    hide Apply;
    match a
    case Schedule(_, _) => PlanLogged(name, r, v, full, db, a);
    case Record(_) => RecordLogged(name, r, v, full, db, a);
    case Erase(_) => DropLogged(name, r, v, full, db, a);
    case Update => ResponseLogged(name, r, v, full, db, a);
    case RecordFollowUp => FollowUpLogged(name, r, v, full, db, a);
    case MarkSent => MarkLogged(name, r, v, full, db, a);
    case EraseFollowUp => DropFollowUpLogged(name, r, v, full, db, a);
  }

  lemma QuietStep(name: string, r: string, v: View, open: bool, full: bool, a: Step)
    requires ViewOk(name, r, v) && v.task.Some? && After(open, full, r, v, a).Some?
    requires !a.PushRaw? && !(open && Emits(a))
    ensures Quiet(v, After(open, full, r, v, a).value, open)
  {
    hide ViewOk;
    hide Quiet;
    hide AfterWorker;
    hide AfterWriter;
    hide AfterReader;
    if IsWorkerStep(a) {
      QuietWorker(name, r, v, open, full, a);
    } else if a.Receive? {
      QuietReceive(name, r, v, open, full, a);
    } else if IsReaderStep(a) {
      QuietReader(name, r, v, open, full, a);
    } else {
      QuietWriter(name, r, v, open, a);
    }
  }

  /** A statement that adds a row for the request it logs. */
  lemma CountAdded(r: string, v: View, w: View, db: Db, entry: Entry)
    requires KeysBelow(db) && v.task.Some? && w.task.Some? && entry.reference == r
    requires CountOk(r, v, true, db.rows) && LoggedRows(w) == LoggedRows(v) + 1
    ensures CountOk(r, w, true, Apply(db, AddRequestLog(entry)).rows)
  {
    hide LoggedRows;
    var d := Apply(db, AddRequestLog(entry));
    assert RowsFor(d.rows, r) == RowsFor(db.rows, r) + {db.nextId};
    SizeWith(RowsFor(db.rows, r), db.nextId);
  }

  /** A statement that takes the row of an unsent request back. */
  lemma CountErased(name: string, r: string, v: View, w: View, db: Db, mti: string)
    requires v.task.Some? && w.task.Some? && RowsOk(name, r, v, true, db.rows)
    requires Places(v) == 1 && CurrentMti(v) == mti
    requires CountOk(r, v, true, db.rows) && LoggedRows(w) == LoggedRows(v) - 1
    ensures CountOk(r, w, true, Apply(db, DeleteRequestLog(r, name, mti)).rows)
  {
    hide LoggedRows;
    hide Places;
    hide CurrentMti;
    var d := Apply(db, DeleteRequestLog(r, name, mti));
    Erased(name, r, v, db, mti);
    hide Apply;
    var id :| Unanswered(db.rows, id, r);
    assert RowsFor(d.rows, r) == RowsFor(db.rows, r) - {id} by {
      assert forall i :: i in RowsFor(d.rows, r) <==> RowOf(d.rows, i, r);
      assert forall i :: i in RowsFor(db.rows, r) <==> RowOf(db.rows, i, r);
    }
    SizeWith(RowsFor(db.rows, r), id);
  }

  lemma CountSame(r: string, v: View, w: View, open: bool, rows: map<nat, Row>, more: map<nat, Row>)
    requires v.task.Some? && w.task.Some? && (open ==> LoggedRows(w) == LoggedRows(v))
    requires CountOk(r, v, open, rows) && RowsFor(more, r) == RowsFor(rows, r)
    ensures CountOk(r, w, open, more)
  {
    hide LoggedRows;
    hide RowsFor;
  }

  /** How a step changes the number of rows its reference should have. */
  lemma LoggedRowsAfter(name: string, r: string, v: View, open: bool, full: bool, a: Step)
    requires ViewOk(name, r, v) && v.task.Some? && After(open, full, r, v, a).Some? && !a.PushRaw?
    ensures After(open, full, r, v, a).value.task.Some?
    ensures open ==>
              LoggedRows(After(open, full, r, v, a).value) ==
              LoggedRows(v) + (if a.Record? || a.RecordFollowUp? then 1
                               else if a.Erase? || a.EraseFollowUp? then -1 else 0)
    ensures open && (a.Erase? || a.EraseFollowUp?) ==>
              Places(v) == 1 && CurrentMti(v) == if a.Erase? then MtiOf(v.task.value) else v.reader.followUp.mti
    ensures v.task.value.entry.reference == r
  {
    hide MatchKey;
    hide AfterReader;
    hide AfterWorker;
    if IsWorkerStep(a) {
      WorkerRows(name, r, v, open, full, a);
      hide LoggedRows;
      hide HandedOk;
    } else if IsReaderStep(a) {
      ReaderRows(name, r, v, open, full, a);
      hide LoggedRows;
      hide HandedOk;
    }
  }

  lemma WorkerRows(name: string, r: string, v: View, open: bool, full: bool, a: Step)
    requires ViewOk(name, r, v) && v.task.Some? && IsWorkerStep(a) && AfterWorker(open, full, v, a).Some?
    ensures AfterWorker(open, full, v, a).value.task.Some?
    ensures open ==>
              LoggedRows(AfterWorker(open, full, v, a).value) ==
              LoggedRows(v) + (if a.Record? then 1 else if a.Erase? then -1 else 0)
    ensures a.Erase? ==> Places(v) == 1 && CurrentMti(v) == MtiOf(v.task.value)
  {
    hide HandedOk;
    hide MatchKey;
  }

  lemma Reading(name: string, r: string, v: View)
    requires ViewOk(name, r, v) && v.task.Some? && v.reader != Idle
    ensures v.task.value.stage == Handed
    ensures v.reader.Releasing? || v.reader.Logged? || v.reader.Refused? ==>
              v.releases == 0 && v.task.value.followUp == Some(v.reader.followUp)
    ensures v.reader.Pushed? ==> v.releases == 1
    ensures v.reader.Matched? || v.reader.Logged? || v.reader.Refused? ==> Places(v) == 1
  {
    hide MatchKey;
    hide Carries;
  }

  lemma ReaderRows(name: string, r: string, v: View, open: bool, full: bool, a: Step)
    requires ViewOk(name, r, v) && v.task.Some? && IsReaderStep(a) && AfterReader(open, full, r, v, a).Some?
    ensures AfterReader(open, full, r, v, a).value.task.Some?
    ensures open ==>
              LoggedRows(AfterReader(open, full, r, v, a).value) ==
              LoggedRows(v) + (if a.RecordFollowUp? then 1 else if a.EraseFollowUp? then -1 else 0)
    ensures a.EraseFollowUp? ==> Places(v) == 1 && CurrentMti(v) == v.reader.followUp.mti
  {
    if v.reader != Idle {
      Reading(name, r, v);
    }
    hide ViewOk;
    hide MatchKey;
    hide Places;
    hide IsLogged;
  }

  lemma OpOfActed(name: string, open: bool, full: bool, r: string, v: View, a: Step)
    requires After(open, full, r, v, a).Some? && v.task.Some? && v.task.value.entry.reference == r
    ensures After(open, false, r, v, a).Some? || After(open, true, r, v, a).Some?
    ensures OpAfter(name, open, r, v, a).Some? ==> OpReference(OpAfter(name, open, r, v, a).value) == r
  {}

  lemma SameKeys(db: Db, op: Option<Op>, r: string)
    requires op.Some? ==> !op.value.AddRequestLog? && !op.value.DeleteRequestLog?
    ensures RowsFor(ApplyOpt(db, op).rows, r) == RowsFor(db.rows, r)
  {}

  lemma ActedCount(name: string, r: string, v: View, open: bool, full: bool, db: Db, a: Step)
    requires Effective(name, r, v, open, full, db, a) && CountOk(r, v, open, db.rows) && !a.PushRaw?
    ensures CountOk(r, After(open, full, r, v, a).value, open, ApplyOpt(db, OpAfter(name, open, r, v, a)).rows)
  {
    hide After;
    hide ViewOk;
    hide LoggedRows;
    hide Places;
    hide CurrentMti;
    hide CountOk;
    hide FollowUpEntry;
    hide PlansOk;
    hide AnswersOk;
    hide RowsOk;
    var w := After(open, full, r, v, a).value;
    var op := OpAfter(name, open, r, v, a);
    LoggedRowsAfter(name, r, v, open, full, a);
    OpOfActed(name, open, full, r, v, a);
    if op.Some? && op.value.AddRequestLog? {
      CountAdded(r, v, w, db, op.value.entry);
    } else if op.Some? && op.value.DeleteRequestLog? {
      CountErased(name, r, v, w, db, op.value.mti);
    } else {
      SameKeys(db, op, r);
      CountSame(r, v, w, open, db.rows, ApplyOpt(db, op).rows);
    }
  }

  /** A step, its statement applied if the database is open, keeps what is known of the reference it is
      about; a newly drawn reference must be unknown to the log. */
  lemma ActedLogged(name: string, r: string, v: View, open: bool, full: bool, db: Db, a: Step)
    requires Effective(name, r, v, open, full, db, a) && CountOk(r, v, open, db.rows) && !a.PushRaw?
    ensures RefOk(name, r, After(open, full, r, v, a).value, open,
                  ApplyOpt(db, OpAfter(name, open, r, v, a)))
  {
    ActedCount(name, r, v, open, full, db, a);
    hide CountOk;
    hide After;
    hide FactsOk;
    if open && Emits(a) {
      EmittingFacts(name, r, v, full, db, a);
    } else {
      assert OpAfter(name, open, r, v, a).None?;
      QuietStep(name, r, v, open, full, a);
      hide ViewOk;
      hide Quiet;
      QuietPreserves(name, r, v, After(open, full, r, v, a).value, open, db);
    }
  }

  function ApplyOpt(db: Db, op: Option<Op>): Db {
    if op.None? then db else Apply(db, op.value)
  }
}
