/** When a refund run may start (network/server/refund.go): the condition under which starting keeps every sale
    at one live refund is exact. A start that breaks it reaches two live refunds of one sale, and such starts
    are reachable. */
module RefundStarts {
  import opened Wrappers
  import opened Codec
  import opened Log
  import opened Protocol
  import opened Pipeline
  import opened Outgoing
  import opened Refunds

  predicate NoStarts(turns: seq<Turn>) {
    forall i :: 0 <= i < |turns| ==> !turns[i].StartRefund?
  }

  lemma {:induction false} RunConcat(spec: Spec, w: World, a: seq<Turn>, b: seq<Turn>)
    requires RunWorld(spec, w, a).Some?
    ensures RunWorld(spec, w, a + b) == RunWorld(spec, RunWorld(spec, w, a).value, b)
  {
    hide TakeTurn;
    if b == [] {
      assert a + b == a;
    } else {
      RunConcat(spec, w, a, b[..|b| - 1]);
      assert (a + b)[..|a + b| - 1] == a + b[..|b| - 1];
    }
  }

  lemma OneTurn(spec: Spec, w: World, t: Turn)
    ensures RunWorld(spec, w, [t]) == TakeTurn(spec, w, t)
  {
    hide TakeTurn;
    assert [t][..0] == [];
  }

  lemma TwoTurns(spec: Spec, w: World, a: Turn, b: Turn)
    requires TakeTurn(spec, w, a).Some?
    ensures RunWorld(spec, w, [a] + [b]) == TakeTurn(spec, TakeTurn(spec, w, a).value, b)
  {
    OneTurn(spec, w, a);
    RunConcat(spec, w, [a], [b]);
    hide RunWorld;
    OneTurn(spec, TakeTurn(spec, w, a).value, b);
  }

  // ---------------------------------------------------------------- the server goes on

  /** What a server with an open database keeps whatever the log holds; channels are bounded. */
  ghost predicate Able(w: World) {
    && KeysBelow(w.g.log.db) && AnswersComplete(w.g.log.db) && w.g.server.open
    && |w.g.log.batch| <= MAX_BATCH_SIZE && |w.g.log.queue| <= QUEUE_SIZE
    && (forall n, r :: n in w.g.server.conns && r in w.g.server.conns[n].tasks ==> r in w.g.server.used)
  }

  lemma WriterTurn(spec: Spec, w: World, m: Move)
    requires Able(w) && (m.CommitBatch? || m.TakeOp?) && Advance(w.g, m).Some?
    ensures TakeTurn(spec, w, Serve(m)) == Some(w.(g := Advance(w.g, m).value))
    ensures var v := w.(g := Advance(w.g, m).value);
            && Able(v) && v.g.server == w.g.server && Logical(v.g.log) == Logical(w.g.log)
            && (m.CommitBatch? ==> v.g.log.batch == [] && v.g.log.queue == w.g.log.queue)
            && (m.TakeOp? ==> |v.g.log.queue| == |w.g.log.queue| - 1)
  {
    AdvanceRefines(w.g, m);
    if m.CommitBatch? {
      AllKeep(w.g.log.db, w.g.log.batch);
    }
    hide Logical;
    hide KeysBelow;
    hide AnswersComplete;
    hide ApplyAll;
  }

  /** The batch writer can always make room for one more statement. */
  lemma MakeRoom(spec: Spec, w: World) returns (turns: seq<Turn>, v: World)
    requires Able(w)
    ensures RunWorld(spec, w, turns) == Some(v) && NoStarts(turns) && Able(v)
    ensures v.runner == w.runner && v.g.server == w.g.server && Logical(v.g.log) == Logical(w.g.log)
    ensures |v.g.log.queue| < QUEUE_SIZE
  {
    hide Able;
    hide TakeTurn;
    hide Logical;
    turns, v := [], w;
    assert RunWorld(spec, w, []) == Some(w);
    if |w.g.log.queue| >= QUEUE_SIZE {
      FullQueue(w);
      if w.g.log.batch == [] {
        WriterTurn(spec, w, TakeOp);
        OneTurn(spec, w, Serve(TakeOp));
        turns, v := [Serve(TakeOp)], w.(g := Advance(w.g, TakeOp).value);
      } else {
        WriterTurn(spec, w, CommitBatch);
        var u := w.(g := Advance(w.g, CommitBatch).value);
        WriterTurn(spec, u, TakeOp);
        TwoTurns(spec, w, Serve(CommitBatch), Serve(TakeOp));
        turns, v := [Serve(CommitBatch)] + [Serve(TakeOp)], u.(g := Advance(u.g, TakeOp).value);
      }
    }
  }

  lemma FullQueue(w: World)
    requires Able(w) && |w.g.log.queue| >= QUEUE_SIZE
    ensures |w.g.log.queue| == QUEUE_SIZE
  {}

  // ---------------------------------------------------------------- sending one refund

  /** The run stands before candidate number `sent`, with every node connected. */
  ghost predicate Ongoing(w: World, run: Work) {
    && w.runner.work == Some(run) && run.Refunding? && run.current.None? && run.sent <= |run.candidates|
    && run.nodes != [] && (forall i :: 0 <= i < |run.nodes| ==> run.nodes[i] in w.g.server.conns)
  }

  lemma DrawEnabled(g: Global, name: string, task: Task)
    requires name in g.server.conns && task.entry.reference !in g.server.used
    requires task.entry.reference !in g.server.conns[name].tasks && NewTask(name, task)
    ensures Advance(g, Actor(On(name, Draw(task)))).Some?
    ensures var h := Advance(g, Actor(On(name, Draw(task)))).value;
            && h.log == g.log && h.server.open == g.server.open
            && h.server.used == g.server.used + {task.entry.reference}
            && h.server.conns == g.server.conns[name := h.server.conns[name]]
            && h.server.conns[name].tasks == g.server.conns[name].tasks[task.entry.reference := task]
  {}

  lemma RecordEnabled(g: Global, name: string, r: string)
    requires name in g.server.conns && r in g.server.conns[name].tasks && g.server.open
    requires g.server.conns[name].tasks[r].stage == Drawn && g.server.conns[name].tasks[r].followUp.None?
    requires |g.log.queue| < QUEUE_SIZE
    ensures Advance(g, Actor(On(name, Record(r)))).Some?
    ensures var h := Advance(g, Actor(On(name, Record(r)))).value;
            && h.log == g.log.(queue := g.log.queue + [AddRequestLog(g.server.conns[name].tasks[r].entry)])
            && h.server.open && h.server.used == g.server.used
            && h.server.conns == g.server.conns[name := h.server.conns[name]]
            && h.server.conns[name].tasks.Keys == g.server.conns[name].tasks.Keys
  {}

  lemma RefundTask(spec: Spec, testId: int, now: int, stamp: string, reference: string, name: string,
                   original: Candidate)
    requires |reference| == 12 && RefundFor(spec, testId, now, stamp, reference, name, original).Ready?
    ensures var e := RefundFor(spec, testId, now, stamp, reference, name, original).entry;
            e.reference == reference && NewTask(name, Task(e, None, Drawn))
  {
    hide Print;
    hide Parse;
    hide RefundMessage;
    RefundMti(spec, reference, stamp, original.requestMessage);
  }

  lemma RefundMti(spec: Spec, reference: string, stamp: string, text: string)
    requires |reference| == 12 && Parse(spec, text).Success?
    ensures var r := RefundMessage(Parse(spec, text).value.msg, reference, stamp);
            r.Some? ==> |r.value.mti| == 4
  {
    HeaderRead(spec, text);
    hide Parse;
    hide Header;
  }

  lemma DrawTurn(spec: Spec, w: World, run: Work, reference: string, now: int, stamp: string)
    requires Ongoing(w, run) && run.sent < |run.candidates| && |reference| == 12
    requires RefundFor(spec, run.testId, now, stamp, reference, run.nodes[run.sent % |run.nodes|],
                       run.candidates[run.sent]).Ready?
    requires var name := run.nodes[run.sent % |run.nodes|];
             var e := RefundFor(spec, run.testId, now, stamp, reference, name, run.candidates[run.sent]).entry;
             Advance(w.g, Actor(On(name, Draw(Task(e, None, Drawn))))).Some?
    ensures var name := run.nodes[run.sent % |run.nodes|];
            var e := RefundFor(spec, run.testId, now, stamp, reference, name, run.candidates[run.sent]).entry;
            var g := Advance(w.g, Actor(On(name, Draw(Task(e, None, Drawn))))).value;
            TakeTurn(spec, w, DrawRefund(reference, now, stamp)) ==
            Some(World(g, w.runner.(work := Some(run.(current := Some((name, reference)))))))
  {
    hide RefundFor;
    hide Advance;
  }

  lemma RecordTurn(spec: Spec, w: World, run: Work, name: string, reference: string)
    requires w.runner.work == Some(run) && run.Refunding? && run.current == Some((name, reference))
    requires Advance(w.g, Actor(On(name, Record(reference)))).Some?
    ensures TakeTurn(spec, w, RecordRefund) ==
            Some(World(Advance(w.g, Actor(On(name, Record(reference)))).value,
                       w.runner.(work := Some(run.(sent := run.sent + 1, current := None)))))
  {
    hide Advance;
  }

  lemma SkipTurn(spec: Spec, w: World, run: Work, reference: string, now: int, stamp: string)
    requires Ongoing(w, run) && run.sent < |run.candidates| && |reference| == 12
    requires RefundFor(spec, run.testId, now, stamp, reference, run.nodes[run.sent % |run.nodes|],
                       run.candidates[run.sent]).Skipped?
    ensures TakeTurn(spec, w, SkipRefund(reference, now, stamp)) ==
            Some(w.(runner := w.runner.(work := Some(run.(sent := run.sent + 1)))))
  {
    hide RefundFor;
  }

  lemma AppliedLive(d: Db, entry: Entry)
    requires KeysBelow(d)
    ensures var e := Apply(d, AddRequestLog(entry));
            && d.nextId !in d.rows
            && (forall i: nat, sale: nat :: Live(d.rows, i, sale) ==> Live(e.rows, i, sale))
            && (forall sale: nat :: entry.originalLogId == Some(sale) ==> Live(e.rows, d.nextId, sale))
  {}

  /** The log after a refund's insert: nothing that was live has gone, and the refund is live. */
  lemma InsertedLive(w: Writer, entry: Entry)
    requires KeysBelow(w.db) && AnswersComplete(w.db)
    ensures var d, e := Logical(w), Logical(w.(queue := w.queue + [AddRequestLog(entry)]));
            && d.nextId !in d.rows
            && (forall i: nat, sale: nat :: Live(d.rows, i, sale) ==> Live(e.rows, i, sale))
            && (forall sale: nat :: entry.originalLogId == Some(sale) ==> Live(e.rows, d.nextId, sale))
  {
    hide Live;
    hide KeysBelow;
    hide AnswersComplete;
    hide Apply;
    hide ApplyAll;
    AllKeep(w.db, w.batch + w.queue);
    ApplyAllSnoc(w.db, w.batch + w.queue, AddRequestLog(entry));
    assert w.batch + (w.queue + [AddRequestLog(entry)]) == (w.batch + w.queue) + [AddRequestLog(entry)];
    AppliedLive(Logical(w), entry);
  }

  /** The entry logged for the run's next candidate. */
  function NextEntry(spec: Spec, run: Work, reference: string, now: int, stamp: string): Refund
    requires run.Refunding? && run.sent < |run.candidates| && run.nodes != [] && |reference| == 12
  {
    RefundFor(spec, run.testId, now, stamp, reference, run.nodes[run.sent % |run.nodes|],
              run.candidates[run.sent])
  }

  /** The refund is drawn and about to be logged. */
  ghost predicate Drawing(w: World, run: Work, name: string, reference: string, e: Entry)
    requires run.Refunding?
  {
    && w.runner.work == Some(run.(current := Some((name, reference)))) && run.nodes != []
    && run.sent < |run.candidates|
    && (forall i :: 0 <= i < |run.nodes| ==> run.nodes[i] in w.g.server.conns)
    && name in w.g.server.conns && reference in w.g.server.conns[name].tasks
    && w.g.server.conns[name].tasks[reference] == Task(e, None, Drawn)
  }

  lemma DrawNext(spec: Spec, w: World, run: Work, reference: string, now: int, stamp: string) returns (u: World)
    requires Able(w) && Ongoing(w, run) && run.sent < |run.candidates|
    requires |reference| == 12 && reference !in w.g.server.used
    requires NextEntry(spec, run, reference, now, stamp).Ready?
    ensures TakeTurn(spec, w, DrawRefund(reference, now, stamp)) == Some(u)
    ensures Able(u) && u.g.log == w.g.log && u.g.server.used == w.g.server.used + {reference}
    ensures Drawing(u, run, run.nodes[run.sent % |run.nodes|], reference,
                    NextEntry(spec, run, reference, now, stamp).entry)
    ensures u.runner.holders == w.runner.holders && u.runner.busy == w.runner.busy
  {
    var name := run.nodes[run.sent % |run.nodes|];
    var e := NextEntry(spec, run, reference, now, stamp).entry;
    RefundTask(spec, run.testId, now, stamp, reference, name, run.candidates[run.sent]);
    hide RefundFor;
    hide TakeTurn;
    hide Advance;
    hide KeysBelow;
    hide AnswersComplete;
    hide NewTask;
    DrawEnabled(w.g, name, Task(e, None, Drawn));
    DrawTurn(spec, w, run, reference, now, stamp);
    u := TakeTurn(spec, w, DrawRefund(reference, now, stamp)).value;
  }

  lemma Recording(spec: Spec, u: World, run: Work, name: string, reference: string, e: Entry) returns (v: World)
    requires run.Refunding? && Able(u) && Drawing(u, run, name, reference, e) && |u.g.log.queue| < QUEUE_SIZE
    ensures TakeTurn(spec, u, RecordRefund) == Some(v)
    ensures Able(v) && v.runner.work == Some(run.(sent := run.sent + 1, current := None))
    ensures forall i :: 0 <= i < |run.nodes| ==> run.nodes[i] in v.g.server.conns
    ensures v.g.server.used == u.g.server.used && v.g.log == u.g.log.(queue := u.g.log.queue + [AddRequestLog(e)])
    ensures v.runner.holders == u.runner.holders && v.runner.busy == u.runner.busy
  {
    hide TakeTurn;
    hide Advance;
    hide KeysBelow;
    hide AnswersComplete;
    RecordEnabled(u.g, name, reference);
    RecordTurn(spec, u, run.(current := Some((name, reference))), name, reference);
    v := TakeTurn(spec, u, RecordRefund).value;
  }

  /** Draw and record, where there is room. */
  lemma DrawAndRecord(spec: Spec, w: World, run: Work, reference: string, now: int, stamp: string)
    returns (v: World)
    requires Able(w) && Ongoing(w, run) && run.sent < |run.candidates| && |w.g.log.queue| < QUEUE_SIZE
    requires |reference| == 12 && reference !in w.g.server.used
    requires NextEntry(spec, run, reference, now, stamp).Ready?
    ensures RunWorld(spec, w, [DrawRefund(reference, now, stamp)] + [RecordRefund]) == Some(v)
    ensures Able(v) && Ongoing(v, run.(sent := run.sent + 1)) && v.g.server.used == w.g.server.used + {reference}
    ensures v.g.log == w.g.log.(queue := w.g.log.queue + [AddRequestLog(NextEntry(spec, run, reference, now,
                                                                                     stamp).entry)])
    ensures v.runner.holders == w.runner.holders && v.runner.busy == w.runner.busy
  {
    hide TakeTurn;
    hide RunWorld;
    hide Able;
    hide NextEntry;
    var u := DrawNext(spec, w, run, reference, now, stamp);
    v := Recording(spec, u, run, run.nodes[run.sent % |run.nodes|], reference,
                   NextEntry(spec, run, reference, now, stamp).entry);
    TwoTurns(spec, w, DrawRefund(reference, now, stamp), RecordRefund);
  }

  /** From any such world the run can get past its next candidate, unless it crashes on it. */
  lemma SendOne(spec: Spec, w: World, run: Work, reference: string, now: int, stamp: string)
    returns (turns: seq<Turn>, v: World)
    requires Able(w) && Ongoing(w, run) && run.sent < |run.candidates|
    requires |reference| == 12 && reference !in w.g.server.used && !Crashes(spec, run.candidates[run.sent])
    ensures RunWorld(spec, w, turns) == Some(v) && NoStarts(turns)
    ensures Able(v) && Ongoing(v, run.(sent := run.sent + 1)) && v.g.server.used <= w.g.server.used + {reference}
    ensures v.runner.holders == w.runner.holders && v.runner.busy == w.runner.busy
    ensures forall i: nat, sale: nat :: Live(Logical(w.g.log).rows, i, sale) ==> Live(Logical(v.g.log).rows, i, sale)
    ensures Sends(spec, run.candidates[run.sent]) ==>
              Logical(w.g.log).nextId !in Logical(w.g.log).rows &&
              Live(Logical(v.g.log).rows, Logical(w.g.log).nextId, run.candidates[run.sent].logId)
  {
    hide Live;
    hide Logical;
    hide TakeTurn;
    hide RefundFor;
    hide Sends;
    hide Crashes;
    hide Able;
    var name := run.nodes[run.sent % |run.nodes|];
    var original := run.candidates[run.sent];
    RefundOutcome(spec, run.testId, now, stamp, reference, name, original);
    if NextEntry(spec, run, reference, now, stamp).Skipped? {
      SkipTurn(spec, w, run, reference, now, stamp);
      OneTurn(spec, w, SkipRefund(reference, now, stamp));
      turns := [SkipRefund(reference, now, stamp)];
      v := w.(runner := w.runner.(work := Some(run.(sent := run.sent + 1))));
      AbleStays(w, v);
    } else {
      turns, v := SendReady(spec, w, run, reference, now, stamp);
    }
  }

  lemma AbleStays(w: World, v: World)
    requires Able(w) && v.g == w.g
    ensures Able(v)
  {}

  lemma SendReady(spec: Spec, w: World, run: Work, reference: string, now: int, stamp: string)
    returns (turns: seq<Turn>, v: World)
    requires Able(w) && Ongoing(w, run) && run.sent < |run.candidates|
    requires |reference| == 12 && reference !in w.g.server.used
    requires NextEntry(spec, run, reference, now, stamp).Ready?
    ensures RunWorld(spec, w, turns) == Some(v) && NoStarts(turns)
    ensures Able(v) && Ongoing(v, run.(sent := run.sent + 1)) && v.g.server.used <= w.g.server.used + {reference}
    ensures v.runner.holders == w.runner.holders && v.runner.busy == w.runner.busy
    ensures forall i: nat, sale: nat :: Live(Logical(w.g.log).rows, i, sale) ==> Live(Logical(v.g.log).rows, i, sale)
    ensures Sends(spec, run.candidates[run.sent]) ==>
              Logical(w.g.log).nextId !in Logical(w.g.log).rows &&
              Live(Logical(v.g.log).rows, Logical(w.g.log).nextId, run.candidates[run.sent].logId)
  {
    hide Live;
    hide Logical;
    hide TakeTurn;
    hide RefundFor;
    hide Sends;
    hide RunWorld;
    var name := run.nodes[run.sent % |run.nodes|];
    RefundOutcome(spec, run.testId, now, stamp, reference, name, run.candidates[run.sent]);
    RefundEntryNames(spec, run.testId, now, stamp, reference, name, run.candidates[run.sent]);
    var e := NextEntry(spec, run, reference, now, stamp).entry;
    var room, u := MakeRoom(spec, w);
    v := DrawAndRecord(spec, u, run, reference, now, stamp);
    RunConcat(spec, w, room, [DrawRefund(reference, now, stamp)] + [RecordRefund]);
    turns := room + ([DrawRefund(reference, now, stamp)] + [RecordRefund]);
    InsertedLive(u.g.log, e);
  }

  predicate FreshReferences(refs: seq<string>, used: set<string>) {
    && (forall i :: 0 <= i < |refs| ==> |refs[i]| == 12 && refs[i] !in used)
    && (forall i, j :: 0 <= i < j < |refs| ==> refs[i] != refs[j])
  }

  // ---------------------------------------------------------------- exactness

  /** A run that is going to send a sale which has a live refund already gives it a second one. */
  lemma {:induction false} SendUpTo(spec: Spec, w: World, run: Work, k: nat, refs: seq<string>, now: int,
                                    stamp: string, i: nat) returns (turns: seq<Turn>, v: World)
    requires Able(w) && Ongoing(w, run) && Reached(spec, run.candidates, run.sent, k)
    requires FreshReferences(refs, w.g.server.used) && |refs| == k + 1 - run.sent
    requires Live(Logical(w.g.log).rows, i, run.candidates[k].logId)
    ensures RunWorld(spec, w, turns) == Some(v) && NoStarts(turns) && !AtMostOne(Logical(v.g.log).rows)
    decreases k - run.sent
  {
    hide Able;
    hide Sends;
    hide Crashes;
    hide Logical;
    var sale := run.candidates[k].logId;
    if run.sent < k {
      assert !Crashes(spec, run.candidates[run.sent]);
    } else {
      SendsNoCrash(spec, run.candidates[k]);
    }
    var first, u := SendOne(spec, w, run, refs[0], now, stamp);
    if run.sent == k {
      turns, v := first, u;
      assert Live(Logical(u.g.log).rows, i, sale);
      InRows(Logical(w.g.log).rows, i, sale);
    } else {
      hide Live;
      hide AtMostOne;
      FewerReferences(refs, w.g.server.used, u.g.server.used);
      var rest, z := SendUpTo(spec, u, run.(sent := run.sent + 1), k, refs[1..], now, stamp, i);
      RunConcat(spec, w, first, rest);
      turns, v := first + rest, z;
    }
  }

  lemma SendsNoCrash(spec: Spec, c: Candidate)
    requires Sends(spec, c)
    ensures !Crashes(spec, c)
  {
    hide Parse;
  }

  lemma InRows(rows: map<nat, Row>, i: nat, sale: nat)
    requires Live(rows, i, sale)
    ensures i in rows
  {}

  lemma FewerReferences(refs: seq<string>, used: set<string>, more: set<string>)
    requires refs != [] && FreshReferences(refs, used) && more <= used + {refs[0]}
    ensures FreshReferences(refs[1..], more)
  {}

  lemma StartTurn(spec: Spec, w: World, testId: int, sourceTestId: int, nodes: seq<string>)
    requires w.runner.holders > 0 && nodes != []
    ensures var run := Refunding(testId, Candidates(w.g.log.db, sourceTestId), nodes, 0, None);
            TakeTurn(spec, w, StartRefund(testId, sourceTestId, nodes)) ==
            Some(World(w.g, w.runner.(holders := w.runner.holders - 1, work := Some(run))))
  {
    hide Candidates;
  }

  /** A test is reserved, clients are connected, and there are references left to draw. */
  ghost predicate ReadyToStart(w: World, sourceTestId: int, nodes: seq<string>, refs: seq<string>) {
    && Able(w) && w.runner.holders > 0 && nodes != []
    && (forall i :: 0 <= i < |nodes| ==> nodes[i] in w.g.server.conns)
    && FreshReferences(refs, w.g.server.used) && |refs| == |Candidates(w.g.log.db, sourceTestId)|
  }

  /** Every unsafe start reaches two live refunds of one sale. */
  lemma UnsafeStartDoubles(spec: Spec, w: World, testId: int, sourceTestId: int, nodes: seq<string>,
                           refs: seq<string>, now: int, stamp: string) returns (turns: seq<Turn>)
    requires ReadyToStart(w, sourceTestId, nodes, refs) && !SafeStart(spec, w, sourceTestId, nodes)
    ensures NoStarts(turns)
    ensures RunWorld(spec, w, [StartRefund(testId, sourceTestId, nodes)] + turns).Some?
    ensures !AtMostOne(Logical(RunWorld(spec, w, [StartRefund(testId, sourceTestId, nodes)] + turns).value.g.log).rows)
  {
    hide Sends;
    hide Crashes;
    hide Live;
    hide AtMostOne;
    hide Logical;
    hide Candidates;
    hide TakeTurn;
    var c := Candidates(w.g.log.db, sourceTestId);
    var k, i :| Reached(spec, c, 0, k) && Live(Logical(w.g.log).rows, i, c[k].logId);
    var start := StartRefund(testId, sourceTestId, nodes);
    StartTurn(spec, w, testId, sourceTestId, nodes);
    OneTurn(spec, w, start);
    var u := TakeTurn(spec, w, start).value;
    Shorter(refs, w.g.server.used, k + 1);
    var rest, v := SendUpTo(spec, u, u.runner.work.value, k, refs[..k + 1], now, stamp, i);
    RunConcat(spec, w, [start], rest);
    turns := rest;
  }

  lemma Shorter(refs: seq<string>, used: set<string>, n: nat)
    requires n <= |refs| && FreshReferences(refs, used)
    ensures FreshReferences(refs[..n], used)
  {}

  lemma {:induction false} NoStartsAreSafe(spec: Spec, w: World, turns: seq<Turn>)
    requires NoStarts(turns)
    ensures SafeStarts(spec, w, turns)
  {
    hide RunWorld;
    if turns != [] {
      NoStartsAreSafe(spec, w, turns[..|turns| - 1]);
    }
  }

  lemma SafeStartKeeps(spec: Spec, w: World, start: Turn, turns: seq<Turn>)
    requires WorldOk(spec, w) && start.StartRefund? && SafeTurn(spec, w, start) && NoStarts(turns)
    requires RunWorld(spec, w, [start] + turns).Some?
    ensures AtMostOne(Logical(RunWorld(spec, w, [start] + turns).value.g.log).rows)
  {
    hide WorldOk;
    hide SafeTurn;
    FirstTurn(spec, w, start, turns);
    TakeKeeps(spec, w, start);
    var u := TakeTurn(spec, w, start).value;
    NoStartsAreSafe(spec, u, turns);
    HistoryOk(spec, u, turns);
    WorldSound(spec, RunWorld(spec, u, turns).value);
    hide RunWorld;
    hide SafeStarts;
  }

  lemma {:induction false} FirstTurn(spec: Spec, w: World, start: Turn, turns: seq<Turn>)
    requires RunWorld(spec, w, [start] + turns).Some?
    ensures TakeTurn(spec, w, start).Some?
    ensures RunWorld(spec, w, [start] + turns) == RunWorld(spec, TakeTurn(spec, w, start).value, turns)
  {
    hide TakeTurn;
    if turns == [] {
      assert [start] + turns == [start];
      OneTurn(spec, w, start);
    } else {
      assert ([start] + turns)[..|turns|] == [start] + turns[..|turns| - 1];
      FirstTurn(spec, w, start, turns[..|turns| - 1]);
    }
  }

  lemma WorldSound(spec: Spec, w: World)
    requires WorldOk(spec, w)
    ensures AtMostOne(Logical(w.g.log).rows)
  {
    hide WorkOk;
    LogicalSound(w.g.log);
    hide LogOk;
  }

  /** A start is safe exactly when no history of the run it starts gives a sale two live refunds. */
  lemma StartSafeExactly(spec: Spec, w: World, testId: int, sourceTestId: int, nodes: seq<string>,
                         refs: seq<string>, now: int, stamp: string)
    requires WorldOk(spec, w) && ReadyToStart(w, sourceTestId, nodes, refs)
    ensures var start := StartRefund(testId, sourceTestId, nodes);
            SafeStart(spec, w, sourceTestId, nodes) <==>
            forall turns :: NoStarts(turns) && RunWorld(spec, w, [start] + turns).Some? ==>
              AtMostOne(Logical(RunWorld(spec, w, [start] + turns).value.g.log).rows)
  {
    var start := StartRefund(testId, sourceTestId, nodes);
    if SafeStart(spec, w, sourceTestId, nodes) {
      forall turns | NoStarts(turns) && RunWorld(spec, w, [start] + turns).Some?
        ensures AtMostOne(Logical(RunWorld(spec, w, [start] + turns).value.g.log).rows)
      {
        SafeStartKeeps(spec, w, start, turns);
      }
    } else {
      var turns := UnsafeStartDoubles(spec, w, testId, sourceTestId, nodes, refs, now, stamp);
      assert NoStarts(turns);
    }
    hide WorldOk;
    hide SafeStart;
    hide ReadyToStart;
    hide RunWorld;
    hide AtMostOne;
    hide Logical;
  }
}
