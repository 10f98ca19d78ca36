/** A history in which a sale is refunded twice (database/dao.go, network/server/refund.go): two runs for the
    same test, the second started before the batch writer has committed the first one's insert. */
module EarlyStart {
  import opened Wrappers
  import opened Codec
  import opened Log
  import opened Protocol
  import opened Pipeline
  import opened Outgoing
  import opened Shipped
  import opened Refunds
  import opened RefundStarts
  import Witnesses

  const SALE_REFERENCE := "000000000001"
  const FIRST := "000000000002"
  const SECOND := "000000000003"
  const NODES := ["c"]

  predicate IsSale(m: Msg) {
    && WellFormed(SHIPPED, m) && m.mti == "0200"
    && PROCESSING_CODE in m.fields && m.fields[PROCESSING_CODE] == "000000"
  }

  /** A purchase with DE3 and DE37. */
  function SaleMessage(): Msg {
    MarkAndSet(MarkAndSet(Witnesses.Bare("0200"), PROCESSING_CODE, "000000"), REFERENCE, SALE_REFERENCE)
  }

  lemma SaleMessageOk()
    ensures IsSale(SaleMessage())
  {
    Witnesses.BareOk(SHIPPED, "0200");
    Witnesses.Adds(SHIPPED, Witnesses.Bare("0200"), PROCESSING_CODE, "000000");
    Witnesses.Adds(SHIPPED, MarkAndSet(Witnesses.Bare("0200"), PROCESSING_CODE, "000000"), REFERENCE,
                   SALE_REFERENCE);
    hide WellFormed;
    hide MarkAndSet;
  }

  /** The sale's row, approved. */
  function SaleRow(m: Msg): Row
    requires IsSale(m)
  {
    Row(LogEntry(1, 0, SALE_REFERENCE, "c", SHIPPED, m), Some(0), Some(0), Some("00"), Some(""))
  }

  /** The tables after a sale test: one approved sale, nothing queued, no test running. */
  function Start(m: Msg): World
    requires IsSale(m)
  {
    World(Global(State(map[], {SALE_REFERENCE}, true), Writer(Db(map[1 := SaleRow(m)], 2, map[], 1), [], [])),
          Runner(false, 0, None))
  }

  lemma StartFresh(m: Msg)
    requires IsSale(m)
    ensures Fresh(Start(m))
  {
    hide Print;
    hide IsSale;
  }

  lemma SaleRowOk(m: Msg)
    requires IsSale(m)
    ensures var row := SaleRow(m);
            && row.entry.testId == 1 && row.entry.mti == Some("0200") && row.entry.processingCode == "000000"
            && row.responseCode == Some("00") && row.entry.originalLogId.None?
    ensures Parse(SHIPPED, SaleRow(m).entry.requestMessage) ==
            Success(Parsed(m, |SaleRow(m).entry.requestMessage|))
  {
    RoundTripExactly(SHIPPED, m);
    hide Print;
    hide Parse;
  }

  /** The sale is the one candidate, and can be refunded. */
  lemma OneCandidate(m: Msg)
    requires IsSale(m)
    ensures Candidates(Start(m).g.log.db, 1) == [CandidateOf(Start(m).g.log.db.rows, 1)]
    ensures var c := CandidateOf(Start(m).g.log.db.rows, 1);
            Sends(SHIPPED, c) && !Crashes(SHIPPED, c)
  {
    SaleRowOk(m);
    OneOfOne(SaleRow(m));
    hide Parse;
    hide SaleRow;
    hide Candidates;
  }

  lemma OneOfOne(row: Row)
    requires row.entry.testId == 1 && row.entry.mti == Some("0200") && row.entry.processingCode == "000000"
    requires row.responseCode == Some("00") && row.entry.originalLogId.None?
    ensures Candidates(Db(map[1 := row], 2, map[], 1), 1) == [CandidateOf(map[1 := row], 1)]
  {
    var rows := map[1 := row];
    assert Eligible(rows, 1, 1);
    assert !Eligible(rows, 1, 0);
    assert CandidatesBelow(rows, 1, 0) == [];
    assert CandidatesBelow(rows, 1, 1) == [];
    assert CandidatesBelow(rows, 1, 2) == [CandidateOf(rows, 1)];
  }

  function Connected(m: Msg): World
    requires IsSale(m)
  {
    var w := Start(m);
    w.(g := w.g.(server := State(map["c" := NEW_CONN], {SALE_REFERENCE}, true)))
  }

  /** A client connects and a first run is reserved. */
  lemma FirstReserved(m: Msg) returns (turns: seq<Turn>, w: World)
    requires IsSale(m)
    ensures RunWorld(SHIPPED, Start(m), turns) == Some(w) && SafeStarts(SHIPPED, Start(m), turns)
    ensures w == Connected(m).(runner := Runner(true, 1, None))
  {
    ConnectTurn(m);
    ReserveTurn(Connected(m));
    hide TakeTurn;
    hide RunWorld;
    hide SafeStarts;
    hide Start;
    hide Connected;
    var t0, t1 := Turn.Serve(Actor(Connect("c"))), Turn.Reserve;
    TwoTurns(SHIPPED, Start(m), t0, t1);
    turns, w := [t0] + [t1], Connected(m).(runner := Runner(true, 1, None));
    NoStartsAreSafe(SHIPPED, Start(m), turns);
  }

  lemma ReserveTurn(w: World)
    requires w.runner == Runner(false, 0, None)
    ensures TakeTurn(SHIPPED, w, Turn.Reserve) == Some(w.(runner := Runner(true, 1, None)))
  {}

  /** The first run is started. */
  lemma FirstRun(m: Msg) returns (turns: seq<Turn>, w: World, run: Work)
    requires IsSale(m)
    ensures RunWorld(SHIPPED, Start(m), turns) == Some(w) && SafeStarts(SHIPPED, Start(m), turns)
    ensures w.g == Connected(m).g && w.runner == Runner(true, 0, Some(run))
    ensures run == Refunding(2, Candidates(Start(m).g.log.db, 1), NODES, 0, None)
  {
    ConnectedParts(m);
    hide Start;
    hide Connected;
    hide Candidates;
    hide SafeStart;
    hide SafeStarts;
    hide RunWorld;
    hide TakeTurn;
    var reserved, u := FirstReserved(m);
    var t := StartRefund(2, 1, NODES);
    StartTurn(SHIPPED, u, 2, 1, NODES);
    RunConcat(SHIPPED, Start(m), reserved, [t]);
    OneTurn(SHIPPED, u, t);
    QuietSecond(m, u);
    Snoc(SHIPPED, Start(m), reserved, t);
    turns := reserved + [t];
    run := Refunding(2, Candidates(Start(m).g.log.db, 1), NODES, 0, None);
    w := u.(runner := Runner(true, 0, Some(run)));
  }

  lemma ConnectTurn(m: Msg)
    requires IsSale(m)
    ensures TakeTurn(SHIPPED, Start(m), Turn.Serve(Actor(Connect("c")))) == Some(Connected(m))
    ensures Connected(m).runner == Runner(false, 0, None) && Connected(m).g.log == Start(m).g.log
  {
    hide SaleRow;
  }

  lemma QuietSecond(m: Msg, w: World)
    requires IsSale(m) && w.g == Connected(m).g
    ensures SafeStart(SHIPPED, w, 1, NODES)
  {
    StartFresh(m);
    FreshOk(SHIPPED, Start(m));
    hide Fresh;
    hide SafeStart;
    assert w.g.log == Start(m).g.log && w.g.log.batch + w.g.log.queue == [];
    hide Start;
    hide Connected;
    QuietStartsAreSafe(SHIPPED, w, 1, NODES);
  }

  lemma Snoc(spec: Spec, w: World, turns: seq<Turn>, t: Turn)
    requires SafeStarts(spec, w, turns)
    requires RunWorld(spec, w, turns).Some? ==> SafeTurn(spec, RunWorld(spec, w, turns).value, t)
    ensures SafeStarts(spec, w, turns + [t])
  {
    assert (turns + [t])[..|turns|] == turns;
    hide RunWorld;
    hide SafeTurn;
  }

  lemma {:induction false} SafeConcat(spec: Spec, w: World, a: seq<Turn>, b: seq<Turn>)
    requires SafeStarts(spec, w, a) && NoStarts(b)
    ensures SafeStarts(spec, w, a + b)
  {
    if b == [] {
      assert a + b == a;
    } else {
      SafeConcat(spec, w, a, b[..|b| - 1]);
      assert (a + (b[..|b| - 1])) + [b[|b| - 1]] == a + b;
      Snoc(spec, w, a + b[..|b| - 1], b[|b| - 1]);
    }
  }

  lemma ConnectedAble(m: Msg, w: World)
    requires IsSale(m) && w.g == Connected(m).g
    ensures Able(w)
  {
    StartFresh(m);
    hide SaleRow;
  }

  /** The one refund of the first run. */
  lemma SendFirst(m: Msg, w: World, run: Work) returns (v: World)
    requires IsSale(m) && w.g == Connected(m).g && w.runner == Runner(true, 0, Some(run))
    requires run == Refunding(2, Candidates(Start(m).g.log.db, 1), NODES, 0, None)
    ensures |run.candidates| == 1
    ensures RunWorld(SHIPPED, w, [DrawRefund(FIRST, 0, "")] + [RecordRefund]) == Some(v)
    ensures Able(v) && v.runner == Runner(true, 0, Some(run.(sent := 1)))
    ensures v.g.server.used == {SALE_REFERENCE, FIRST} && "c" in v.g.server.conns
    ensures v.g.log.db == Start(m).g.log.db && Live(Logical(v.g.log).rows, 2, 1)
  {
    ConnectedAble(m, w);
    FirstReady(m, run);
    ConnectedParts(m);
    FirstUnused();
    AtNode(w, run);
    hide Ongoing;
    hide FIRST;
    hide SALE_REFERENCE;
    hide NextEntry;
    hide TakeTurn;
    hide RunWorld;
    hide Able;
    hide Start;
    hide Connected;
    hide Candidates;
    hide Live;
    hide Logical;
    v := DrawAndRecord(SHIPPED, w, run, FIRST, 0, "");
    RefundLive(m, w.g.log, v.g.log, NextEntry(SHIPPED, run, FIRST, 0, "").entry);
    AtNode(v, run.(sent := 1));
  }

  lemma AtNode(w: World, run: Work)
    requires run.Refunding? && run.nodes == NODES && run.current.None? && run.sent <= |run.candidates|
    ensures Ongoing(w, run) <==> w.runner.work == Some(run) && "c" in w.g.server.conns
  {
    assert NODES[0] == "c";
  }

  lemma FirstUnused()
    ensures |FIRST| == 12 && FIRST != SALE_REFERENCE
  {
    assert FIRST[11] != SALE_REFERENCE[11];
  }

  lemma FirstSent(m: Msg) returns (turns: seq<Turn>, w: World, run: Work)
    requires IsSale(m)
    ensures RunWorld(SHIPPED, Start(m), turns) == Some(w) && SafeStarts(SHIPPED, Start(m), turns)
    ensures run.Refunding? && run.sent == |run.candidates| && w.runner == Runner(true, 0, Some(run))
    ensures Able(w) && w.g.server.used == {SALE_REFERENCE, FIRST} && "c" in w.g.server.conns
    ensures w.g.log.db == Start(m).g.log.db && Live(Logical(w.g.log).rows, 2, 1)
  {
    hide RunWorld;
    hide SafeStarts;
    hide Able;
    hide Start;
    hide Connected;
    hide Candidates;
    hide Live;
    hide Logical;
    hide FIRST;
    hide SALE_REFERENCE;
    var first, w1, run1 := FirstRun(m);
    w := SendFirst(m, w1, run1);
    var send := [DrawRefund(FIRST, 0, "")] + [RecordRefund];
    RunConcat(SHIPPED, Start(m), first, send);
    SafeConcat(SHIPPED, Start(m), first, send);
    turns, run := first + send, run1.(sent := 1);
  }

  lemma ConnectedParts(m: Msg)
    requires IsSale(m)
    ensures "c" in Connected(m).g.server.conns && Connected(m).g.server.used == {SALE_REFERENCE}
    ensures Connected(m).g.log == Start(m).g.log
    ensures Start(m).g.log.queue == [] && Start(m).g.log.batch == []
  {
    hide SaleRow;
  }

  lemma FirstReady(m: Msg, run: Work)
    requires IsSale(m) && run == Refunding(2, Candidates(Start(m).g.log.db, 1), NODES, 0, None)
    ensures |run.candidates| == 1
    ensures var r := NextEntry(SHIPPED, run, FIRST, 0, ""); r.Ready? && r.entry.originalLogId == Some(1)
  {
    OneCandidate(m);
    hide Sends;
    hide Crashes;
    hide Candidates;
    hide SaleRow;
    RefundOutcome(SHIPPED, 2, 0, "", FIRST, "c", run.candidates[0]);
    hide RefundFor;
    if NextEntry(SHIPPED, run, FIRST, 0, "").Ready? {
      RefundEntryNames(SHIPPED, 2, 0, "", FIRST, "c", run.candidates[0]);
    }
  }

  /** The first run ends and a second one is reserved. The refund's insert is still queued. */
  lemma SecondReserved(m: Msg) returns (turns: seq<Turn>, w: World)
    requires IsSale(m)
    ensures RunWorld(SHIPPED, Start(m), turns) == Some(w) && SafeStarts(SHIPPED, Start(m), turns)
    ensures w.g.log.db == Start(m).g.log.db && w.runner == Runner(true, 1, None)
    ensures ReadyToStart(w, 1, NODES, [SECOND])
    ensures Live(Logical(w.g.log).rows, 2, 1)
  {
    hide TakeTurn;
    hide RunWorld;
    hide SafeStarts;
    hide Able;
    hide Candidates;
    hide Live;
    hide Logical;
    hide SaleRow;
    OneCandidate(m);
    var sent, w2, run := FirstSent(m);
    var again := [Turn.Finish] + [Turn.Reserve];
    w := w2.(runner := Runner(true, 1, None));
    EndAndReserve(w2, run);
    TwoTurns(SHIPPED, w2, Turn.Finish, Turn.Reserve);
    RunConcat(SHIPPED, Start(m), sent, again);
    SafeConcat(SHIPPED, Start(m), sent, again);
    turns := sent + again;
    AbleStays(w2, w);
    assert SECOND[11] != FIRST[11] && SECOND[11] != SALE_REFERENCE[11];
  }

  lemma EndAndReserve(w: World, run: Work)
    requires w.runner == Runner(true, 0, Some(run)) && run.Refunding? && run.sent == |run.candidates|
    ensures TakeTurn(SHIPPED, w, Turn.Finish) == Some(w.(runner := Runner(false, 0, None)))
    ensures TakeTurn(SHIPPED, w.(runner := Runner(false, 0, None)), Turn.Reserve) ==
            Some(w.(runner := Runner(true, 1, None)))
  {}

  lemma RefundLive(m: Msg, before: Pipeline.Writer, after: Pipeline.Writer, e: Entry)
    requires IsSale(m) && before == Start(m).g.log && after == before.(queue := before.queue + [AddRequestLog(e)])
    requires e.originalLogId == Some(1)
    ensures Live(Logical(after).rows, 2, 1)
  {
    StartFresh(m);
    InsertedLive(before, e);
    assert before.batch + before.queue == [];
    assert Logical(before) == before.db;
    hide SaleRow;
  }

  /** The empty queue is needed. From a fresh world with one approved sale, after a history in which every run
      started safely, a second run started before the first one's insert is committed reaches two live
      refunds of the sale. */
  lemma EarlyStartReachable(m: Msg) returns (before: seq<Turn>, after: seq<Turn>)
    requires IsSale(m)
    ensures Fresh(Start(m)) && SafeStarts(SHIPPED, Start(m), before) && RunWorld(SHIPPED, Start(m), before).Some?
    ensures var w := RunWorld(SHIPPED, Start(m), before).value;
            && !SafeStart(SHIPPED, w, 1, NODES)
            && RunWorld(SHIPPED, w, [StartRefund(3, 1, NODES)] + after).Some?
            && !AtMostOne(Logical(RunWorld(SHIPPED, w, [StartRefund(3, 1, NODES)] + after).value.g.log).rows)
  {
    StartFresh(m);
    OneCandidate(m);
    hide Start;
    hide Candidates;
    hide Sends;
    hide Crashes;
    hide Live;
    hide Logical;
    hide RunWorld;
    hide AtMostOne;
    var turns, w := SecondReserved(m);
    before := turns;
    FirstIsLive(w, 2);
    hide SafeStart;
    after := UnsafeStartDoubles(SHIPPED, w, 3, 1, NODES, [SECOND], 0, "");
  }

  lemma FirstIsLive(w: World, i: nat)
    requires var c := Candidates(w.g.log.db, 1);
             c != [] && Sends(SHIPPED, c[0]) && Live(Logical(w.g.log).rows, i, c[0].logId)
    ensures !SafeStart(SHIPPED, w, 1, NODES)
  {
    hide Candidates;
    hide Sends;
    hide Crashes;
    hide Live;
    assert Reached(SHIPPED, Candidates(w.g.log.db, 1), 0, 0);
  }
}
