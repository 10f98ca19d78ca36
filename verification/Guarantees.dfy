/** What the protocol promises in every reachable state: any peer, any interleaving, any batching. */
module Guarantees {
  import opened Wrappers
  import opened Sets
  import opened Matching
  import opened Log
  import opened Protocol
  import opened Conservation
  import opened LoggedRequests
  import opened Pipeline

  function UnansweredRows(db: Db, r: string): set<nat> {
    set id | id in db.rows && db.rows[id].entry.reference == r && db.rows[id].timeTaken.None?
  }

  function TargetRows(db: Db, reference: string, connectionId: string, mti: string): set<nat> {
    set id | id in db.rows && Targets(db.rows[id], reference, connectionId, mti)
  }

  function AnsweredRows(db: Db, r: string): set<nat> {
    set id | id in db.rows && db.rows[id].entry.reference == r && db.rows[id].timeTaken.Some?
  }

  lemma UnansweredCount(name: string, r: string, v: View, open: bool, db: Db)
    requires v.task.Some? && ViewOk(name, r, v) && RefOk(name, r, v, open, db)
    ensures Places(v) <= 1 && |UnansweredRows(db, r)| <= 1
    ensures open ==> |UnansweredRows(db, r)| == Places(v)
    ensures open ==> forall id :: id in UnansweredRows(db, r) ==>
              Targets(db.rows[id], r, name, CurrentMti(v))
  {
    var s := UnansweredRows(db, r);
    assert forall id :: id in s <==> Unanswered(db.rows, id, r);
    AtMostOneElement(s);
    assert Places(v) <= 1;
    hide Places;
    hide CurrentMti;
    if open && Places(v) == 1 {
      var id :| Unanswered(db.rows, id, r);
      assert id in s;
    }
  }

  lemma RefFacts(s: State, db: Db, g: Global, name: string, r: string)
    requires Initial(s, db) && Reachable(s, db, g) && name in g.server.conns
    ensures ViewOk(name, r, ViewOf(g.server.conns[name], r))
    ensures RefOk(name, r, ViewOf(g.server.conns[name], r), g.server.open, Logical(g.log))
  {
    ReachableInv(s, db, g);
    hide RefOk;
    hide ViewOk;
  }

  /** Conservation. A reference has at most one unanswered row, and while the database is open it has exactly
      as many as there are places holding its request: a worker about to hand it over, the write channel,
      the write loop, sentTimes, or the read loop. The row is that request's own. */
  lemma UnansweredAreUnderWay(s: State, db: Db, g: Global, name: string, r: string)
    requires Initial(s, db) && Reachable(s, db, g)
    requires name in g.server.conns && r in g.server.conns[name].tasks
    ensures var v := ViewOf(g.server.conns[name], r);
            var rows := UnansweredRows(Logical(g.log), r);
            && |rows| <= 1
            && (g.server.open ==> |rows| == Places(v))
            && (g.server.open ==> forall id :: id in rows ==>
                  Targets(Logical(g.log).rows[id], r, name, CurrentMti(v)))
  {
    RefFacts(s, db, g, name, r);
    UnansweredCount(name, r, ViewOf(g.server.conns[name], r), g.server.open, Logical(g.log));
  }

  /** The UPDATE of a matched response finds exactly one row; every answered row stays as it was. */
  lemma ResponseUpdatesOneRow(s: State, db: Db, g: Global, name: string)
    requires Initial(s, db) && Reachable(s, db, g) && g.server.open
    requires name in g.server.conns && g.server.conns[name].reader.Matched?
    ensures var rd := g.server.conns[name].reader;
            && |TargetRows(Logical(g.log), rd.reference, name, rd.sent.mti)| == 1
            && Next(g.server, On(name, Update)).Some?
            && Next(g.server, On(name, Update)).value.1 ==
               Some(UpdateResponseTime(rd.reference, name, rd.sent.mti, rd.sent.at, rd.receivedAt, rd.code,
                                       rd.auth))
  {
    var c := g.server.conns[name];
    var rd := c.reader;
    var v := ViewOf(c, rd.reference);
    RefFacts(s, db, g, name, rd.reference);
    assert v.reader == rd && v.task.Some?;
    UnansweredCount(name, rd.reference, v, true, Logical(g.log));
    assert Places(v) == 1 && CurrentMti(v) == rd.sent.mti;
    assert TargetRows(Logical(g.log), rd.reference, name, rd.sent.mti) ==
           UnansweredRows(Logical(g.log), rd.reference);
  }

  lemma AnsweredCount(r: string, v: View, db: Db)
    requires v.task.Some? && CountOk(r, v, true, db.rows)
    ensures |AnsweredRows(db, r)| + |UnansweredRows(db, r)| == LoggedRows(v)
  {
    hide LoggedRows;
    assert AnsweredRows(db, r) + UnansweredRows(db, r) == RowsFor(db.rows, r);
    assert AnsweredRows(db, r) * UnansweredRows(db, r) == {};
  }

  /** A dropped request leaves no row and a request never logged has none. One that was handed over and is
      nowhere any more has been answered, in exactly one row; its follow-up, once released and answered, in
      exactly one more. */
  lemma OutcomeOfRequest(s: State, db: Db, g: Global, name: string, r: string)
    requires Initial(s, db) && Reachable(s, db, g)
    requires name in g.server.conns && r in g.server.conns[name].tasks
    ensures var c := g.server.conns[name];
            var t := c.tasks[r];
            && (!IsLogged(t.stage) || (g.server.open && t.stage == Dropped) ==>
                  forall id :: !RowOf(Logical(g.log).rows, id, r))
            && (g.server.open && t.stage == Handed && Places(ViewOf(c, r)) == 0 ==>
                  && IsAnswered(Logical(g.log).rows, t.entry) && UnansweredRows(Logical(g.log), r) == {}
                  && |AnsweredRows(Logical(g.log), r)| == if r in c.released then 2 else 1)
  {
    hide Places;
    hide FollowUpLive;
    hide IsAnswered;
    hide ViewOk;
    hide PlansOk;
    var v := ViewOf(g.server.conns[name], r);
    RefFacts(s, db, g, name, r);
    UnansweredCount(name, r, v, g.server.open, Logical(g.log));
    if g.server.open {
      AnsweredCount(r, v, Logical(g.log));
    }
    NothingLive(v);
  }

  lemma NothingLive(v: View)
    ensures Places(v) == 0 ==> (FollowUpLive(v) <==> v.releases > 0)
  {}

  /** Only a request of an answerable type is ever taken out of sentTimes; any other stays unanswered. */
  lemma TakenIsAnswerable(s: State, db: Db, g: Global, name: string, a: Step)
    requires Initial(s, db) && Reachable(s, db, g) && name in g.server.conns && a.Receive?
    requires Do(name, g.server.conns[name], g.server.open, a).Some?
    ensures var d := Do(name, g.server.conns[name], g.server.open, a).value.conn;
            d.reader.Matched? ==> |d.reader.sent.mti| == 4 && Answerable(d.reader.sent.mti)
  {
    var c := g.server.conns[name];
    var key := MatchKey(a.mti, a.reference);
    RefFacts(s, db, g, name, a.reference);
    if key in c.sent {
      KeyReferenceOf(a.mti, a.reference);
      var v := ViewOf(c, a.reference);
      assert key in v.sent && v.sent[key] == c.sent[key];
      SentCarries(name, a.reference, v, key);
      AnswerableExactly(c.sent[key].mti, a.reference);
      hide MatchKey;
      hide Answerable;
    }
  }

  lemma SentCarries(name: string, r: string, v: View, key: string)
    requires ViewOk(name, r, v) && key in v.sent
    ensures |v.sent[key].mti| == 4 && key == MatchKey(v.sent[key].mti, r)
  {
    hide MatchKey;
    SizeWith(v.sent.Keys, key);
    assert |v.sent| == |v.sent.Keys|;
  }

  /** A follow-up enters the write channel at most once, and only after its original's response was matched
      and its UPDATE queued. */
  lemma FollowUpsSafe(s: State, db: Db, g: Global, name: string)
    requires Initial(s, db) && Reachable(s, db, g) && name in g.server.conns
    ensures var c := g.server.conns[name];
            && (forall i, j :: 0 <= i < j < |c.released| ==> c.released[i] != c.released[j])
            && (forall r :: r in c.released ==>
                  r in c.tasks && c.tasks[r].followUp.Some? && r !in c.followUps &&
                  IsAnswered(Logical(g.log).rows, c.tasks[r].entry))
  {
    var c := g.server.conns[name];
    forall r | r in c.released
      ensures r in c.tasks && c.tasks[r].followUp.Some? && r !in c.followUps
      ensures IsAnswered(Logical(g.log).rows, c.tasks[r].entry)
      ensures multiset(c.released)[r] == 1
    {
      RefFacts(s, db, g, name, r);
      assert ViewOf(c, r).releases > 0;
    }
    forall i, j | 0 <= i < j < |c.released| ensures c.released[i] != c.released[j] {
      Occurrences(c.released, i, j);
    }
  }

  lemma Occurrences(s: seq<string>, i: nat, j: nat)
    requires i < j < |s|
    ensures s[i] == s[j] ==> multiset(s)[s[i]] >= 2
  {
    assert s == s[..i] + [s[i]] + s[i + 1..j] + [s[j]] + s[j + 1..];
  }

  /** The read loop has pushed r's follow-up and not yet queued the mark. */
  predicate IsMarking(rd: Reader, r: string) {
    rd.Pushed? && rd.reference == r
  }

  /** While the database is open a planned follow-up has one row in scheduled_message, whose sent_at is set
      exactly when the follow-up was pushed on the write channel (and the read loop has queued the mark). */
  lemma SentAtExact(s: State, db: Db, g: Global, name: string, r: string)
    requires Initial(s, db) && Reachable(s, db, g) && g.server.open
    requires name in g.server.conns && r in g.server.conns[name].tasks
    requires g.server.conns[name].tasks[r].followUp.Some? && g.server.conns[name].tasks[r].stage != Drawn
    ensures var c := g.server.conns[name];
            var plans := Logical(g.log).scheduled;
            && (exists id :: PlanOf(plans, id, r))
            && (forall i, j :: PlanOf(plans, i, r) && PlanOf(plans, j, r) ==> i == j)
            && (forall id :: PlanOf(plans, id, r) && plans[id].sentAt.Some? ==> r in c.released)
            && (r in c.released && !IsMarking(c.reader, r) ==>
                  forall id :: PlanOf(plans, id, r) ==> plans[id].sentAt.Some?)
  {
    RefFacts(s, db, g, name, r);
    assert HasPlan(Logical(g.log).scheduled, r);
    hide QueuedMtis;
    hide SentOf;
    hide ViewOk;
  }
}
