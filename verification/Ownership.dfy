/** Whose a logged row is (network/server/iso_server.go): every row and every queued insert made under a drawn
    reference carries the test and the connection of the worker that drew it, and the type of its request or of
    its follow-up. A released reversal therefore takes its sale off every candidate list (database/dao.go). */
module Ownership {
  import opened Wrappers
  import opened Codec
  import opened Matching
  import opened Log
  import opened Protocol
  import opened Conservation
  import opened LoggedRequests
  import opened Pipeline
  import opened Outgoing
  import opened Refunds

  // ---------------------------------------------------------------- rows and queued inserts

  /** The entry is this worker's request or its follow-up. */
  predicate MadeFor(e: Entry, name: string, t: Task) {
    && e.testId == t.entry.testId && e.connectionId == name
    && (e.mti == t.entry.mti || (t.followUp.Some? && e.mti == Some(t.followUp.value.mti)))
  }

  ghost predicate Owned(s: State, e: Entry) {
    && e.reference in s.used
    && forall n :: n in s.conns && e.reference in s.conns[n].tasks ==>
         MadeFor(e, n, s.conns[n].tasks[e.reference])
  }

  ghost predicate RowsOwned(s: State, db: Db) {
    forall id :: id in db.rows ==> Owned(s, db.rows[id].entry)
  }

  ghost predicate OpsOwned(s: State, ops: seq<Op>) {
    forall op :: op in ops && op.AddRequestLog? ==> Owned(s, op.entry)
  }

  ghost predicate AllOwned(g: Global) {
    KeysBelow(g.log.db) && RowsOwned(g.server, g.log.db) && OpsOwned(g.server, g.log.batch) &&
    OpsOwned(g.server, g.log.queue)
  }

  /** Later actions change neither a worker's request nor its follow-up, and draw only new references. */
  lemma OwnedStays(s: State, a: Action, e: Entry)
    requires Next(s, a).Some? && Owned(s, e)
    ensures Owned(Next(s, a).value.0, e)
  {
    hide Do;
    hide MadeFor;
    var t := Next(s, a).value.0;
    if a.On? {
      TasksKept(a.name, s.conns[a.name], s.open, a.step);
      TasksAfter(a.name, s.conns[a.name], s.open, a.step);
      forall n | n in t.conns && e.reference in t.conns[n].tasks
        ensures MadeFor(e, n, t.conns[n].tasks[e.reference])
      {
        var x := t.conns[n].tasks[e.reference];
        assert e.reference in s.conns[n].tasks by {
          assert n == a.name ==> e.reference in t.conns[n].tasks.Keys;
        }
        SameMade(e, n, s.conns[n].tasks[e.reference], x);
      }
    }
  }

  lemma SameMade(e: Entry, name: string, t: Task, u: Task)
    requires MadeFor(e, name, t) && u.entry == t.entry && u.followUp == t.followUp
    ensures MadeFor(e, name, u)
  {}

  /** Only two steps queue an insert. */
  lemma Inserts(name: string, c: Conn, open: bool, a: Step)
    requires Do(name, c, open, a).Some? && Do(name, c, open, a).value.op.Some?
    requires Do(name, c, open, a).value.op.value.AddRequestLog?
    ensures var e := Do(name, c, open, a).value.op.value.entry;
            || (a.Record? && a.r in c.tasks && e == c.tasks[a.r].entry)
            || (a.RecordFollowUp? && c.reader.Releasing? && e.reference == c.reader.reference &&
                e.testId == c.reader.followUp.testId && e.connectionId == name &&
                e.mti == Some(c.reader.followUp.mti))
  {}

  lemma TaskIsOk(name: string, c: Conn, r: string)
    requires ConnOk(name, c) && r in c.tasks
    ensures TaskOk(name, r, c.tasks[r])
  {
    hide QueuedMtis;
    hide SentOf;
    hide HandedOk;
    assert ViewOk(name, r, ViewOf(c, r));
  }

  /** What the read loop is releasing is the follow-up its worker registered. */
  lemma ReleasesOwn(name: string, c: Conn)
    requires ConnOk(name, c) && (c.reader.Releasing? || c.reader.Logged? || c.reader.Refused?)
    ensures c.reader.reference in c.tasks
    ensures c.tasks[c.reader.reference].followUp == Some(c.reader.followUp)
    ensures c.reader.reference !in c.released
  {
    hide QueuedMtis;
    hide SentOf;
    hide HandedOk;
    var r := c.reader.reference;
    ReaderHasTask(name, c);
    assert ViewOk(name, r, ViewOf(c, r));
    Reading(name, r, ViewOf(c, r));
  }

  /** An insert is for the worker that drew its reference. */
  lemma InsertOwned(s: State, name: string, a: Step)
    requires Owners(s) && name in s.conns && ConnOk(name, s.conns[name])
    requires Do(name, s.conns[name], s.open, a).Some? && Do(name, s.conns[name], s.open, a).value.op.Some?
    requires Do(name, s.conns[name], s.open, a).value.op.value.AddRequestLog?
    ensures Owned(s, Do(name, s.conns[name], s.open, a).value.op.value.entry)
  {
    var c := s.conns[name];
    var e := Do(name, c, s.open, a).value.op.value.entry;
    Inserts(name, c, s.open, a);
    hide Do;
    if a.RecordFollowUp? {
      ReleasesOwn(name, c);
      TaskIsOk(name, c, c.reader.reference);
    } else {
      TaskIsOk(name, c, a.r);
    }
    hide ConnOk;
    assert e.reference in c.tasks && MadeFor(e, name, c.tasks[e.reference]);
    hide MadeFor;
  }

  lemma ApplyOwned(s: State, db: Db, op: Op)
    requires RowsOwned(s, db) && (op.AddRequestLog? ==> Owned(s, op.entry))
    ensures RowsOwned(s, Apply(db, op))
  {
    hide MadeFor;
    forall id | id in Apply(db, op).rows ensures Owned(s, Apply(db, op).rows[id].entry) {
      if id in db.rows && Apply(db, op).rows[id] != NewRow(if op.AddRequestLog? then op.entry else db.rows[id].entry) {
        SameOwner(s, db.rows[id].entry, Apply(db, op).rows[id].entry);
      }
    }
  }

  lemma SameOwner(s: State, e: Entry, f: Entry)
    requires Owned(s, e) && f == e.(requestTime := f.requestTime)
    ensures Owned(s, f)
  {}

  lemma {:induction false} ApplyAllOwned(s: State, db: Db, ops: seq<Op>)
    requires RowsOwned(s, db) && OpsOwned(s, ops)
    ensures RowsOwned(s, ApplyAll(db, ops))
  {
    hide Owned;
    if ops != [] {
      ApplyAllOwned(s, db, ops[..|ops| - 1]);
      ApplyOwned(s, ApplyAll(db, ops[..|ops| - 1]), ops[|ops| - 1]);
    }
  }

  lemma {:induction false} KeysAll(db: Db, ops: seq<Op>)
    requires KeysBelow(db)
    ensures KeysBelow(ApplyAll(db, ops))
  {
    hide KeysBelow;
    if ops != [] {
      KeysAll(db, ops[..|ops| - 1]);
      KeysAfter(ApplyAll(db, ops[..|ops| - 1]), Some(ops[|ops| - 1]));
    }
  }

  lemma ServerOwned(g: Global, a: Action)
    requires AllOwned(g) && Inv(g.server, Logical(g.log)) && Next(g.server, a).Some?
    ensures var e := Next(g.server, a).value;
            && RowsOwned(e.0, g.log.db) && OpsOwned(e.0, g.log.batch) && OpsOwned(e.0, g.log.queue)
            && (e.1.Some? && e.1.value.AddRequestLog? ==> Owned(e.0, e.1.value.entry))
  {
    hide Do;
    hide KeysBelow;
    hide ConnOk;
    hide RefOk;
    hide Known;
    hide Owners;
    if Next(g.server, a).value.1.Some? && Next(g.server, a).value.1.value.AddRequestLog? {
      InsertOwned(g.server, a.name, a.step);
      OwnedStays(g.server, a, Next(g.server, a).value.1.value.entry);
    }
    hide Next;
    hide Owned;
    forall e | Owned(g.server, e) ensures Owned(Next(g.server, a).value.0, e) {
      OwnedStays(g.server, a, e);
    }
  }

  lemma AdvanceOwned(g: Global, m: Move)
    requires AllOwned(g) && Inv(g.server, Logical(g.log)) && Advance(g, m).Some?
    ensures AllOwned(Advance(g, m).value)
  {
    hide Owned;
    hide Inv;
    hide Next;
    hide KeysBelow;
    match m
    case Actor(a) => ServerOwned(g, a);
    case TakeOp =>
    case CommitBatch =>
      ApplyAllOwned(g.server, g.log.db, g.log.batch);
      KeysAll(g.log.db, g.log.batch);
      hide RowsOwned;
  }

  lemma {:induction false} MovesOwned(s: State, db: Db, moves: seq<Move>)
    requires Initial(s, db) && RunBatched(Global(s, Writer(db, [], [])), moves).Some?
    ensures AllOwned(RunBatched(Global(s, Writer(db, [], [])), moves).value)
  {
    if moves != [] {
      var before := RunBatched(Global(s, Writer(db, [], [])), moves[..|moves| - 1]).value;
      MovesOwned(s, db, moves[..|moves| - 1]);
      assert Reachable(s, db, before);
      ReachableInv(s, db, before);
      hide Inv;
      hide AllOwned;
      AdvanceOwned(before, moves[|moves| - 1]);
    }
  }

  lemma ReachableOwned(s: State, db: Db, g: Global)
    requires Initial(s, db) && Reachable(s, db, g)
    ensures AllOwned(g) && RowsOwned(g.server, Logical(g.log)) && OpsOwned(g.server, g.log.batch + g.log.queue)
    ensures KeysBelow(Logical(g.log))
  {
    var moves :| RunBatched(Global(s, Writer(db, [], [])), moves) == Some(g);
    MovesOwned(s, db, moves);
    hide Owned;
    ApplyAllOwned(g.server, g.log.db, g.log.batch + g.log.queue);
    KeysAll(g.log.db, g.log.batch + g.log.queue);
  }

  /** Every row of a drawn reference, committed or queued, belongs to the test and the connection of the worker
      that drew it, and is its request or its follow-up. */
  lemma RowsBelong(s: State, db: Db, g: Global, name: string, r: string, e: Entry)
    requires Initial(s, db) && Reachable(s, db, g) && name in g.server.conns && r in g.server.conns[name].tasks
    requires || (exists id :: id in g.log.db.rows && g.log.db.rows[id].entry == e)
             || (exists id :: id in Logical(g.log).rows && Logical(g.log).rows[id].entry == e)
             || AddRequestLog(e) in g.log.batch + g.log.queue
    requires e.reference == r
    ensures var t := g.server.conns[name].tasks[r];
            && e.testId == t.entry.testId && e.connectionId == name
            && (e.mti == t.entry.mti || (t.followUp.Some? && e.mti == Some(t.followUp.value.mti)))
  {
    ReachableOwned(s, db, g);
    hide KeysBelow;
    hide Reachable;
    hide Initial;
    hide Logical;
    assert Owned(g.server, e);
  }

  // ---------------------------------------------------------------- a released follow-up has its row

  /** The follow-up of r has been logged and not taken back. */
  predicate FollowUpOut(c: Conn, r: string) {
    r in c.released || ((c.reader.Logged? || c.reader.Refused?) && c.reader.reference == r)
  }

  ghost predicate FollowUpRow(rows: map<nat, Row>, r: string, f: Option<FollowUp>) {
    f.Some? && exists id :: RowOf(rows, id, r) && rows[id].entry.mti == Some(f.value.mti)
  }

  ghost predicate FollowUpRows(s: State, db: Db) {
    forall n, r :: n in s.conns && FollowUpOut(s.conns[n], r) ==>
      r in s.conns[n].tasks && FollowUpRow(db.rows, r, s.conns[n].tasks[r].followUp)
  }

  /** A follow-up comes out by being logged, and never while its statement takes rows away. */
  lemma OutAfter(name: string, c: Conn, open: bool, a: Step, r: string)
    requires ConnOk(name, c) && Do(name, c, open, a).Some? && FollowUpOut(Do(name, c, open, a).value.conn, r)
    ensures var op := Do(name, c, open, a).value.op;
            if a.RecordFollowUp? && c.reader.Releasing? && c.reader.reference == r then
              && r in c.tasks && c.tasks[r].followUp == Some(c.reader.followUp)
              && op.Some? && op.value.AddRequestLog? && op.value.entry.reference == r
              && op.value.entry.mti == Some(c.reader.followUp.mti)
            else FollowUpOut(c, r) && !(op.Some? && op.value.DeleteRequestLog? && op.value.reference == r)
  {
    if c.reader.Releasing? || c.reader.Refused? || c.reader.Logged? {
      ReleasesOwn(name, c);
    }
    if a.Erase? {
      WithdrawnIsIn(name, c, a.r);
    }
    hide ConnOk;
    hide MatchKey;
    hide IsResponseMti;
  }

  lemma WithdrawnIsIn(name: string, c: Conn, r: string)
    requires ConnOk(name, c) && r in c.tasks && c.tasks[r].stage == Withdrawn
    ensures !FollowUpOut(c, r)
  {
    hide QueuedMtis;
    hide SentOf;
    hide HandedOk;
    assert ViewOk(name, r, ViewOf(c, r));
    assert r in c.released ==> multiset(c.released)[r] > 0;
  }

  lemma RowKept(db: Db, op: Option<Op>, r: string, f: Option<FollowUp>)
    requires KeysBelow(db) && FollowUpRow(db.rows, r, f)
    requires !(op.Some? && op.value.DeleteRequestLog? && op.value.reference == r)
    ensures FollowUpRow(ApplyOpt(db, op).rows, r, f)
  {
    var id :| RowOf(db.rows, id, r) && db.rows[id].entry.mti == Some(f.value.mti);
    assert RowOf(ApplyOpt(db, op).rows, id, r);
  }

  lemma RowAdded(db: Db, e: Entry, f: FollowUp)
    requires e.mti == Some(f.mti)
    ensures FollowUpRow(Apply(db, AddRequestLog(e)).rows, e.reference, Some(f))
  {
    assert RowOf(Apply(db, AddRequestLog(e)).rows, db.nextId, e.reference);
  }

  lemma OutKeeps(s: State, db: Db, name: string, a: Step, n: string, r: string)
    requires Inv(s, db) && FollowUpRows(s, db) && Next(s, On(name, a)).Some?
    requires n in s.conns && FollowUpOut(Next(s, On(name, a)).value.0.conns[n], r)
    ensures r in s.conns[n].tasks
    ensures FollowUpRow(ApplyOpt(db, Next(s, On(name, a)).value.1).rows, r, s.conns[n].tasks[r].followUp)
  {
    hide Do;
    hide RefOk;
    hide Known;
    hide ConnOk;
    hide KeysBelow;
    hide FollowUpOut;
    hide FollowUpRow;
    hide Apply;
    var c := s.conns[name];
    var op := Do(name, c, s.open, a).value.op;
    if op.Some? {
      OpIsActed(name, c, s.open, a);
    }
    if n == name {
      OutAfter(name, c, s.open, a, r);
      if a.RecordFollowUp? && c.reader.Releasing? && c.reader.reference == r {
        RowAdded(db, op.value.entry, c.reader.followUp);
      } else {
        RowKept(db, op, r, c.tasks[r].followUp);
      }
    } else {
      RowKept(db, op, r, s.conns[n].tasks[r].followUp);
    }
  }

  lemma NextFollowUps(s: State, db: Db, a: Action)
    requires Inv(s, db) && FollowUpRows(s, db) && Next(s, a).Some?
    ensures FollowUpRows(Next(s, a).value.0, ApplyOpt(db, Next(s, a).value.1))
  {
    hide Do;
    hide FollowUpRow;
    hide Inv;
    hide ApplyOpt;
    var t := Next(s, a).value.0;
    if a.On? {
      TasksKept(a.name, s.conns[a.name], s.open, a.step);
      forall n, r | n in t.conns && FollowUpOut(t.conns[n], r)
        ensures r in t.conns[n].tasks
        ensures FollowUpRow(ApplyOpt(db, Next(s, a).value.1).rows, r, t.conns[n].tasks[r].followUp)
      {
        OutKeeps(s, db, a.name, a.step, n, r);
      }
    } else {
      Unchanged(db);
    }
  }

  lemma Unchanged(db: Db)
    ensures ApplyOpt(db, None) == db
  {}

  lemma {:induction false} RunFollowUps(s: State, db: Db, actions: seq<Action>)
    requires Initial(s, db) && Run(s, db, actions).Some?
    ensures FollowUpRows(Run(s, db, actions).value.0, Run(s, db, actions).value.1)
  {
    hide Next;
    if actions != [] {
      RunFollowUps(s, db, actions[..|actions| - 1]);
      RunKeeps(s, db, actions[..|actions| - 1]);
      var before := Run(s, db, actions[..|actions| - 1]).value;
      hide Inv;
      hide FollowUpRows;
      NextFollowUps(before.0, before.1, actions[|actions| - 1]);
    }
  }

  /** A follow-up pushed on the write channel has its row, of its type and its original's test. */
  lemma ReleasedHasRow(s: State, db: Db, g: Global, name: string, r: string) returns (id: nat)
    requires Initial(s, db) && Reachable(s, db, g) && name in g.server.conns && r in g.server.conns[name].released
    ensures var c := g.server.conns[name];
            var rows := Logical(g.log).rows;
            && r in c.tasks && c.tasks[r].followUp.Some?
            && id in rows && rows[id].entry.reference == r && rows[id].entry.testId == c.tasks[r].entry.testId
            && rows[id].entry.mti == Some(c.tasks[r].followUp.value.mti)
  {
    var start := Global(s, Writer(db, [], []));
    var moves :| RunBatched(start, moves) == Some(g);
    BatchingInvisible(start, moves);
    assert start.log.batch + start.log.queue == [];
    assert Logical(start.log) == db;
    RunFollowUps(s, db, Actions(moves));
    hide RunBatched;
    hide Run;
    hide Initial;
    hide Logical;
    assert FollowUpOut(g.server.conns[name], r);
    var rows, c := Logical(g.log).rows, g.server.conns[name];
    id :| RowOf(rows, id, r) && rows[id].entry.mti == Some(c.tasks[r].followUp.value.mti);
    RowsBelong(s, db, g, name, r, rows[id].entry);
  }

  // ---------------------------------------------------------------- reversed sales

  /** Rows of one drawn reference are of one test, so a committed reversal keeps its sale off every list. */
  lemma CommittedReversalBlocks(s: State, db: Db, g: Global, name: string, sale: nat, reversal: nat,
                                sourceTestId: int)
    requires Initial(s, db) && Reachable(s, db, g) && name in g.server.conns
    requires sale in g.log.db.rows && reversal in g.log.db.rows
    requires g.log.db.rows[sale].entry.reference in g.server.conns[name].tasks
    requires g.log.db.rows[reversal].entry.reference == g.log.db.rows[sale].entry.reference
    requires g.log.db.rows[reversal].entry.mti in {Some("0400"), Some("0420")}
    ensures !Selected(g.log.db, sourceTestId, sale)
  {
    var rows := g.log.db.rows;
    var r := rows[sale].entry.reference;
    RowsBelong(s, db, g, name, r, rows[sale].entry);
    RowsBelong(s, db, g, name, r, rows[reversal].entry);
    ReachableOwned(s, db, g);
    hide Reachable;
    hide Selected;
    hide RowsOwned;
    ReversalBlocks(g.log.db, sourceTestId, sale, reversal);
  }

  /** Once a sale's reversal is on the write channel, the sale is in no candidate list of the tables with the
      queue folded in. */
  lemma ReleasedReversalBlocks(s: State, db: Db, g: Global, name: string, r: string, sale: nat, sourceTestId: int)
    requires Initial(s, db) && Reachable(s, db, g) && name in g.server.conns && r in g.server.conns[name].released
    requires sale in Logical(g.log).rows && Logical(g.log).rows[sale].entry.reference == r
    requires r in g.server.conns[name].tasks && g.server.conns[name].tasks[r].followUp.Some?
    requires g.server.conns[name].tasks[r].followUp.value.mti in {"0400", "0420"}
    ensures !Selected(Logical(g.log), sourceTestId, sale)
  {
    var id := ReleasedHasRow(s, db, g, name, r);
    RowsBelong(s, db, g, name, r, Logical(g.log).rows[sale].entry);
    ReachableOwned(s, db, g);
    hide Reachable;
    hide Selected;
    hide Logical;
    hide AllOwned;
    ReversalBlocks(Logical(g.log), sourceTestId, sale, id);
  }

  // ---------------------------------------------------------------- refund runs

  lemma TurnMoves(spec: Spec, w: World, t: Turn) returns (moves: seq<Move>)
    requires TakeTurn(spec, w, t).Some?
    ensures |moves| <= 1
    ensures if moves == [] then TakeTurn(spec, w, t).value.g == w.g
            else Advance(w.g, moves[0]) == Some(TakeTurn(spec, w, t).value.g)
  {
    hide Advance;
    hide RefundFor;
    hide Candidates;
    if t.Serve? {
      moves := [t.m];
    } else if t.RecordRefund? {
      var (name, r) := w.runner.work.value.current.value;
      moves := [Actor(On(name, Record(r)))];
    } else if t.DrawRefund? {
      var run := w.runner.work.value;
      var name := run.nodes[run.sent % |run.nodes|];
      var e := RefundFor(spec, run.testId, t.now, t.stamp, t.reference, name, run.candidates[run.sent]).entry;
      moves := [Actor(On(name, Draw(Task(e, None, Drawn))))];
    } else {
      moves := [];
    }
  }

  /** Sale and refund runs move the server and the log by moves of Pipeline only. */
  lemma {:induction false} HistoryMoves(spec: Spec, start: World, turns: seq<Turn>) returns (moves: seq<Move>)
    requires RunWorld(spec, start, turns).Some?
    ensures RunBatched(start.g, moves) == Some(RunWorld(spec, start, turns).value.g)
  {
    hide Advance;
    hide TakeTurn;
    moves := [];
    if turns != [] {
      moves := HistoryMoves(spec, start, turns[..|turns| - 1]);
      var more := TurnMoves(spec, RunWorld(spec, start, turns[..|turns| - 1]).value, turns[|turns| - 1]);
      if more != [] {
        assert (moves + [more[0]])[..|moves|] == moves;
        moves := moves + [more[0]];
      }
    }
  }

  /** Over any sequence of sale and refund runs, a run never picks up a sale whose reversal is committed. */
  lemma NoReversedSaleIsRefunded(spec: Spec, start: World, turns: seq<Turn>, name: string, sale: nat,
                                 reversal: nat, sourceTestId: int)
    requires Initial(start.g.server, start.g.log.db) && start.g.log.batch == [] && start.g.log.queue == []
    requires RunWorld(spec, start, turns).Some?
    requires var g := RunWorld(spec, start, turns).value.g;
             && name in g.server.conns && sale in g.log.db.rows && reversal in g.log.db.rows
             && g.log.db.rows[sale].entry.reference in g.server.conns[name].tasks
             && g.log.db.rows[reversal].entry.reference == g.log.db.rows[sale].entry.reference
             && g.log.db.rows[reversal].entry.mti in {Some("0400"), Some("0420")}
    ensures forall c :: c in Candidates(RunWorld(spec, start, turns).value.g.log.db, sourceTestId) ==>
              c.logId != sale
  {
    var moves := HistoryMoves(spec, start, turns);
    var s, db, g := start.g.server, start.g.log.db, RunWorld(spec, start, turns).value.g;
    hide RunWorld;
    assert start.g == Global(s, Writer(db, [], []));
    assert Reachable(s, db, g);
    hide Reachable;
    hide Initial;
    CommittedReversalBlocks(s, db, g, name, sale, reversal, sourceTestId);
  }
}
