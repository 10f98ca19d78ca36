/** The whole server over the batched log: any number of connections, and the batch writer's goroutine
    between the statements they queue and the tables (database/batch_writer.go). */
module Pipeline {
  import opened Wrappers
  import opened Matching
  import opened Log
  import opened Protocol
  import opened Conservation
  import opened LoggedRequests

  const QUEUE_SIZE := 100_000
  const MAX_BATCH_SIZE := 2000

  // ---------------------------------------------------------------- the server over a synchronous log

  ghost predicate Known(db: Db, used: set<string>) {
    && (forall id :: id in db.rows ==> db.rows[id].entry.reference in used)
    && (forall id :: id in db.scheduled ==> db.scheduled[id].reference in used)
  }

  /** No reference has workers on two connections. */
  ghost predicate Owners(s: State) {
    && (forall n, r :: n in s.conns && r in s.conns[n].tasks ==> r in s.used)
    && (forall n, m, r :: n in s.conns && m in s.conns && r in s.conns[n].tasks && r in s.conns[m].tasks ==>
          n == m)
  }

  ghost predicate Inv(s: State, db: Db) {
    && KeysBelow(db) && Known(db, s.used) && Owners(s)
    && (forall n :: n in s.conns ==> ConnOk(n, s.conns[n]))
    && (forall n, r :: n in s.conns ==> RefOk(n, r, ViewOf(s.conns[n], r), s.open, db))
  }

  /** A server that knows the references of every row it finds. */
  ghost predicate Initial(s: State, db: Db) {
    KeysBelow(db) && Known(db, s.used) && s.conns == map[]
  }

  lemma NewConnOk(name: string, open: bool, db: Db)
    ensures ConnOk(name, NEW_CONN)
    ensures forall r :: RefOk(name, r, ViewOf(NEW_CONN, r), open, db)
  {}

  lemma ConnectKeeps(s: State, db: Db, name: string)
    requires Inv(s, db) && name !in s.conns
    ensures Inv(s.(conns := s.conns[name := NEW_CONN]), db)
  {
    NewConnOk(name, s.open, db);
    hide ConnOk;
    hide RefOk;
    hide ViewOf;
  }

  lemma CloseKeeps(s: State, db: Db)
    requires Inv(s, db)
    ensures Inv(s.(open := false), db)
  {
    hide ConnOk;
    hide ViewOf;
    forall n, r | n in s.conns ensures RefOk(n, r, ViewOf(s.conns[n], r), false, db) {
      ClosedRefOk(n, r, ViewOf(s.conns[n], r), s.open, db);
    }
    hide RefOk;
  }

  lemma ClosedRefOk(name: string, r: string, v: View, open: bool, db: Db)
    requires RefOk(name, r, v, open, db)
    ensures RefOk(name, r, v, false, db)
  {}

  lemma ReaderHasTask(name: string, c: Conn)
    requires ConnOk(name, c) && c.reader != Idle
    ensures c.reader.reference in c.tasks
  {
    hide QueuedMtis;
    hide SentOf;
    hide HandedOk;
    assert ViewOk(name, c.reader.reference, ViewOf(c, c.reader.reference));
  }

  lemma TaskReference(name: string, c: Conn, r: string)
    requires ConnOk(name, c) && r in c.tasks
    ensures c.tasks[r].entry.reference == r
  {
    hide QueuedMtis;
    hide SentOf;
    hide HandedOk;
    assert ViewOk(name, r, ViewOf(c, r));
  }

  /** The statement of a step is about the reference the step is about, which a worker drew. */
  lemma OpIsActed(name: string, c: Conn, open: bool, a: Step)
    requires Do(name, c, open, a).Some? && ConnOk(name, c) && Do(name, c, open, a).value.op.Some?
    ensures OpReference(Do(name, c, open, a).value.op.value) == Acted(c, a) && Acted(c, a) in c.tasks
    ensures !a.Draw? && !a.PushRaw?
  {
    hide ConnOk;
    hide IsResponseMti;
    if IsWorkerStep(a) {
      TaskReference(name, c, a.r);
      hide DoReader;
      hide DoWriter;
    } else if IsReaderStep(a) {
      if c.reader != Idle {
        ReaderHasTask(name, c);
      }
      hide DoWorker;
      hide DoWriter;
    }
  }

  lemma TasksAfter(name: string, c: Conn, open: bool, a: Step)
    requires Do(name, c, open, a).Some?
    ensures Do(name, c, open, a).value.conn.tasks.Keys ==
            c.tasks.Keys + (if a.Draw? then {a.task.entry.reference} else {})
  {}

  lemma UnloggedRefOk(name: string, r: string, v: View, open: bool, db: Db)
    requires v.task.Some? && v.task.value.stage == Drawn && Nowhere(v) && v.followUp.None?
    requires forall id :: id in db.rows ==> db.rows[id].entry.reference != r
    requires forall id :: id in db.scheduled ==> db.scheduled[id].reference != r
    ensures RefOk(name, r, v, open, db)
  {
    assert RowsFor(db.rows, r) == {};
  }

  /** A reference drawn for the first time. */
  lemma DrawnRefOk(name: string, c: Conn, open: bool, db: Db, a: Step)
    requires a.Draw? && Do(name, c, open, a).Some? && ConnOk(name, c)
    requires forall id :: id in db.rows ==> db.rows[id].entry.reference != a.task.entry.reference
    requires forall id :: id in db.scheduled ==> db.scheduled[id].reference != a.task.entry.reference
    ensures var r := a.task.entry.reference;
            RefOk(name, r, ViewOf(Do(name, c, open, a).value.conn, r), open, db)
  {
    hide RefOk;
    hide QueuedMtis;
    hide SentOf;
    hide HandedOk;
    var r := a.task.entry.reference;
    assert ViewOk(name, r, ViewOf(c, r));
    UnloggedRefOk(name, r, ViewOf(Do(name, c, open, a).value.conn, r), open, db);
  }

  lemma ActedRefOk(name: string, c: Conn, open: bool, db: Db, a: Step)
    requires Do(name, c, open, a).Some? && ConnOk(name, c) && KeysBelow(db) && !a.Draw?
    requires RefOk(name, Acted(c, a), ViewOf(c, Acted(c, a)), open, db)
    ensures RefOk(name, Acted(c, a), ViewOf(Do(name, c, open, a).value.conn, Acted(c, a)), open,
                  ApplyOpt(db, Do(name, c, open, a).value.op))
  {
    var r := Acted(c, a);
    var v := ViewOf(c, r);
    assert ViewOk(name, r, v);
    StepFollows(name, c, open, a);
    TasksAfter(name, c, open, a);
    if v.task.Some? {
      OpFollows(name, c, open, a);
      assert a.PushRaw? ==> r == "";
      hide After;
      hide RefOk;
      ActedLogged(name, r, v, open, IsFull(c), db, a);
    }
  }

  lemma OtherRefOk(name: string, r: string, v: View, open: bool, db: Db, op: Option<Op>)
    requires KeysBelow(db) && ViewOk(name, r, v) && RefOk(name, r, v, open, db)
    requires op.Some? ==> OpReference(op.value) != r
    ensures RefOk(name, r, v, open, ApplyOpt(db, op))
  {
    hide RefOk;
    if op.Some? {
      OthersKept(name, r, v, open, db, op.value);
    }
  }

  lemma NoTaskRefOk(name: string, r: string, v: View, open: bool, db: Db)
    requires v.task.None?
    ensures RefOk(name, r, v, open, db)
  {}

  lemma KeysAfter(db: Db, op: Option<Op>)
    requires KeysBelow(db)
    ensures KeysBelow(ApplyOpt(db, op))
  {}

  lemma KnownAfter(db: Db, op: Option<Op>, used: set<string>, more: set<string>)
    requires Known(db, used) && used <= more && (op.Some? ==> OpReference(op.value) in used)
    ensures Known(ApplyOpt(db, op), more)
  {}

  lemma OwnersGrow(s: State, t: State, name: string, drawn: set<string>)
    requires Owners(s) && name in s.conns && name in t.conns && drawn !! s.used && t.used == s.used + drawn
    requires t.conns == s.conns[name := t.conns[name]]
    requires t.conns[name].tasks.Keys == s.conns[name].tasks.Keys + drawn
    ensures Owners(t)
  {
    forall n, r | n in t.conns && r in t.conns[n].tasks
      ensures n in s.conns && (r in s.conns[n].tasks || (n == name && r in drawn))
    {
      assert n == name ==> r in t.conns[name].tasks.Keys;
    }
  }

  lemma OwnersAfter(s: State, name: string, a: Step)
    requires Owners(s) && Next(s, On(name, a)).Some?
    ensures Owners(Next(s, On(name, a)).value.0)
  {
    hide Do;
    hide Owners;
    TasksAfter(name, s.conns[name], s.open, a);
    OwnersGrow(s, Next(s, On(name, a)).value.0, name, if a.Draw? then {a.task.entry.reference} else {});
  }

  lemma StepKeeps(s: State, db: Db, name: string, a: Step)
    requires Inv(s, db) && Next(s, On(name, a)).Some?
    ensures Inv(Next(s, On(name, a)).value.0, ApplyOpt(db, Next(s, On(name, a)).value.1))
  {
    hide Do;
    hide ConnOk;
    hide ApplyOpt;
    hide Acted;
    hide ViewOf;
    hide RefOk;
    hide KeysBelow;
    var c := s.conns[name];
    var e := Do(name, c, s.open, a).value;
    var t := Next(s, On(name, a)).value.0;
    var d := ApplyOpt(db, e.op);
    StepKeepsConn(name, c, s.open, a);
    if e.op.Some? {
      OpIsActed(name, c, s.open, a);
      assert OpReference(e.op.value) in s.used;
    }
    KeysAfter(db, e.op);
    KnownAfter(db, e.op, s.used, t.used);
    OwnersAfter(s, name, a);
    assert t.conns == s.conns[name := e.conn] && t.open == s.open;
    forall n, r | n in t.conns ensures RefOk(n, r, ViewOf(t.conns[n], r), t.open, d) {
      EachRefOk(s, db, name, a, n, r);
    }
    hide Owners;
    hide Known;
  }

  lemma EachRefOk(s: State, db: Db, name: string, a: Step, n: string, r: string)
    requires Inv(s, db) && Next(s, On(name, a)).Some? && n in s.conns
    ensures var e := Do(name, s.conns[name], s.open, a).value;
            RefOk(n, r, ViewOf(if n == name then e.conn else s.conns[n], r), s.open, ApplyOpt(db, e.op))
  {
    var c := s.conns[name];
    var e := Do(name, c, s.open, a).value;
    var v := ViewOf(s.conns[n], r);
    if e.op.Some? {
      OpIsActed(name, c, s.open, a);
    }
    assert ConnOk(n, s.conns[n]) && RefOk(n, r, v, s.open, db);
    assert ViewOk(n, r, v);
    if n == name && r == Acted(c, a) {
      if a.Draw? {
        DrawnRefOk(name, c, s.open, db, a);
        assert e.op.None?;
      } else {
        ActedRefOk(name, c, s.open, db, a);
      }
    } else {
      if n == name {
        OthersUntouched(name, c, s.open, a, r);
      }
      if r in s.conns[n].tasks {
        OtherRefOk(n, r, v, s.open, db, e.op);
      } else {
        NoTaskRefOk(n, r, v, s.open, ApplyOpt(db, e.op));
      }
    }
  }

  /** Every action keeps the invariant when its statement is applied at once. */
  lemma NextKeeps(s: State, db: Db, a: Action)
    requires Inv(s, db) && Next(s, a).Some?
    ensures Inv(Next(s, a).value.0, ApplyOpt(db, Next(s, a).value.1))
  {
    hide Inv;
    match a
    case Connect(name) => ConnectKeeps(s, db, name);
    case CloseDb => CloseKeeps(s, db);
    case On(name, step) => StepKeeps(s, db, name, step);
  }

  /** The state and tables after a run of actions, or none if one of them was not enabled. */
  function Run(s: State, db: Db, actions: seq<Action>): Option<(State, Db)> {
    if actions == [] then Some((s, db))
    else
      match Run(s, db, actions[..|actions| - 1])
      case None => None
      case Some(before) =>
        match Next(before.0, actions[|actions| - 1])
        case None => None
        case Some(e) => Some((e.0, ApplyOpt(before.1, e.1)))
  }

  lemma {:induction false} RunKeeps(s: State, db: Db, actions: seq<Action>)
    requires Initial(s, db) && Run(s, db, actions).Some?
    ensures Inv(Run(s, db, actions).value.0, Run(s, db, actions).value.1)
  {
    if actions != [] {
      RunKeeps(s, db, actions[..|actions| - 1]);
      var before := Run(s, db, actions[..|actions| - 1]).value;
      hide Inv;
      NextKeeps(before.0, before.1, actions[|actions| - 1]);
    }
  }

  // ---------------------------------------------------------------- the batched log

  /** The tables, the batch in the writer's hands, and the statements still in the channel. */
  datatype Writer = Writer(db: Db, batch: seq<Op>, queue: seq<Op>)

  datatype Global = Global(server: State, log: Writer)

  datatype Move = Actor(a: Action) | TakeOp | CommitBatch

  /** The tables with every queued statement folded in, oldest first. */
  function Logical(w: Writer): Db {
    ApplyAll(w.db, w.batch + w.queue)
  }

  /** A goroutine whose statement finds the queue full waits: the action is not enabled. */
  function Advance(g: Global, m: Move): Option<Global> {
    var w := g.log;
    match m
    case Actor(a) =>
      (match Next(g.server, a)
       case None => None
       case Some(e) =>
         if e.1.None? then Some(Global(e.0, w))
         else if |w.queue| >= QUEUE_SIZE then None
         else Some(Global(e.0, w.(queue := w.queue + [e.1.value]))))
    case TakeOp =>
      if w.queue == [] || |w.batch| >= MAX_BATCH_SIZE then None
      else Some(g.(log := w.(batch := w.batch + [w.queue[0]], queue := w.queue[1..])))
    case CommitBatch =>
      if w.batch == [] then None
      else Some(g.(log := w.(db := ApplyAll(w.db, w.batch), batch := [])))
  }

  /** The batch writer never changes the logical tables, and every other step changes them by its own
      statement: the batched log refines a synchronous one. */
  lemma AdvanceRefines(g: Global, m: Move)
    requires Advance(g, m).Some?
    ensures var h := Advance(g, m).value;
            if m.Actor? then
              Next(g.server, m.a).Some? && h.server == Next(g.server, m.a).value.0 &&
              Logical(h.log) == ApplyOpt(Logical(g.log), Next(g.server, m.a).value.1)
            else h.server == g.server && Logical(h.log) == Logical(g.log)
  {
    hide Next;
    var w := g.log;
    match m
    case Actor(a) =>
      var op := Next(g.server, a).value.1;
      if op.Some? {
        ApplyAllSnoc(w.db, w.batch + w.queue, op.value);
        assert w.batch + (w.queue + [op.value]) == (w.batch + w.queue) + [op.value];
      }
    case TakeOp =>
      assert (w.batch + [w.queue[0]]) + w.queue[1..] == w.batch + w.queue;
    case CommitBatch =>
      ApplyAllConcat(w.db, w.batch, w.queue);
      assert [] + w.queue == w.queue;
  }

  /** When a step waits: an action for its own reasons, or because its statement finds 100000 queued; the batch
      writer with nothing to take or with 2000 statements in hand, or with nothing to commit. */
  lemma AdvanceEnabled(g: Global, m: Move)
    ensures var w := g.log;
            Advance(g, m).Some? <==>
            match m
            case Actor(a) => Next(g.server, a).Some? && (Next(g.server, a).value.1.Some? ==> |w.queue| < 100_000)
            case TakeOp => w.queue != [] && |w.batch| < 2000
            case CommitBatch => w.batch != []
  {
    hide Next;
  }

  function RunBatched(g: Global, moves: seq<Move>): Option<Global> {
    if moves == [] then Some(g)
    else
      match RunBatched(g, moves[..|moves| - 1])
      case None => None
      case Some(before) => Advance(before, moves[|moves| - 1])
  }

  function Actions(moves: seq<Move>): seq<Action> {
    if moves == [] then []
    else
      var last := moves[|moves| - 1];
      Actions(moves[..|moves| - 1]) + (if last.Actor? then [last.a] else [])
  }

  /** Any interleaving with the batch writer ends where the same actions end with every statement applied
      at once. */
  lemma {:induction false} BatchingInvisible(g: Global, moves: seq<Move>)
    requires RunBatched(g, moves).Some?
    ensures var h := RunBatched(g, moves).value;
            Run(g.server, Logical(g.log), Actions(moves)) == Some((h.server, Logical(h.log)))
  {
    if moves != [] {
      var front, last := moves[..|moves| - 1], moves[|moves| - 1];
      BatchingInvisible(g, front);
      var before := RunBatched(g, front).value;
      AdvanceRefines(before, last);
      if last.Actor? {
        assert Actions(moves)[..|Actions(moves)| - 1] == Actions(front);
      } else {
        assert Actions(moves) == Actions(front);
      }
    }
  }

  ghost predicate Reachable(s: State, db: Db, g: Global) {
    exists moves :: RunBatched(Global(s, Writer(db, [], [])), moves) == Some(g)
  }

  /** The invariant holds of the logical tables in every reachable state of the batched server. */
  lemma ReachableInv(s: State, db: Db, g: Global)
    requires Initial(s, db) && Reachable(s, db, g)
    ensures Inv(g.server, Logical(g.log))
  {
    var start := Global(s, Writer(db, [], []));
    var moves :| RunBatched(start, moves) == Some(g);
    BatchingInvisible(start, moves);
    assert start.log.batch + start.log.queue == [];
    RunKeeps(s, db, Actions(moves));
  }
}
