/** Refund tests: which sales are selected (database/dao.go), how runs are serialised
    (runner/stresstest_runner.go), and what repeated runs leave in the log (network/server/refund.go), with
    the whole server of Pipeline going on around them. */
module Refunds {
  import opened Wrappers
  import opened Sets
  import opened Codec
  import opened Log
  import opened Protocol
  import opened Pipeline
  import opened Outgoing

  // ---------------------------------------------------------------- candidates

  /** Row i is a refund of `sale` that is approved or still unanswered. */
  predicate Live(rows: map<nat, Row>, i: nat, sale: nat) {
    && i in rows && rows[i].entry.originalLogId == Some(sale)
    && (rows[i].responseCode.None? || rows[i].responseCode.value == "00")
  }

  predicate ApprovedPurchase(row: Row, sourceTestId: int) {
    && row.entry.testId == sourceTestId
    && (row.entry.mti == Some("0100") || row.entry.mti == Some("0200"))
    && |row.entry.processingCode| >= 2 && row.entry.processingCode[..2] == "00"
    && row.responseCode == Some("00")
  }

  predicate Reverses(row: Row, sale: Row) {
    && row.entry.testId == sale.entry.testId && row.entry.reference == sale.entry.reference
    && (row.entry.mti == Some("0400") || row.entry.mti == Some("0420"))
  }

  predicate Eligible(rows: map<nat, Row>, sourceTestId: int, id: nat) {
    && id in rows && ApprovedPurchase(rows[id], sourceTestId)
    && (forall rv :: rv in rows ==> !Reverses(rows[rv], rows[id]))
    && (forall rf :: rf in rows ==> !Live(rows, rf, id))
  }

  function CandidateOf(rows: map<nat, Row>, id: nat): Candidate
    requires id in rows
  {
    Candidate(id, rows[id].entry.reference, rows[id].entry.requestMessage)
  }

  function CandidatesBelow(rows: map<nat, Row>, sourceTestId: int, bound: nat): seq<Candidate> {
    if bound == 0 then []
    else
      CandidatesBelow(rows, sourceTestId, bound - 1) +
      if Eligible(rows, sourceTestId, bound - 1) then [CandidateOf(rows, bound - 1)] else []
  }

  /** The rows of the SELECT, in the order of their keys. */
  function Candidates(db: Db, sourceTestId: int): seq<Candidate> {
    CandidatesBelow(db.rows, sourceTestId, db.nextId)
  }

  predicate Increasing(c: seq<Candidate>) {
    forall i, j :: 0 <= i < j < |c| ==> c[i].logId < c[j].logId
  }

  lemma {:induction false} CandidatesBelowExact(rows: map<nat, Row>, sourceTestId: int, bound: nat)
    ensures var c := CandidatesBelow(rows, sourceTestId, bound);
            && Increasing(c)
            && (forall k :: 0 <= k < |c| ==>
                  && c[k].logId < bound && Eligible(rows, sourceTestId, c[k].logId)
                  && c[k] == CandidateOf(rows, c[k].logId))
            && (forall id: nat :: id < bound && Eligible(rows, sourceTestId, id) ==> CandidateOf(rows, id) in c)
  {
    if bound > 0 {
      CandidatesBelowExact(rows, sourceTestId, bound - 1);
      var before := CandidatesBelow(rows, sourceTestId, bound - 1);
      var c := CandidatesBelow(rows, sourceTestId, bound);
      assert |c| > |before| ==> c[|before|] == CandidateOf(rows, bound - 1);
      assert forall k :: 0 <= k < |before| ==> c[k] == before[k];
      assert forall x :: x in before ==> x in c;
    }
  }

  /** A candidate list holds each eligible sale exactly once, oldest first, and nothing else. */
  lemma CandidatesExact(db: Db, sourceTestId: int)
    requires KeysBelow(db)
    ensures Increasing(Candidates(db, sourceTestId))
    ensures forall k :: 0 <= k < |Candidates(db, sourceTestId)| ==>
              Eligible(db.rows, sourceTestId, Candidates(db, sourceTestId)[k].logId) &&
              Candidates(db, sourceTestId)[k] == CandidateOf(db.rows, Candidates(db, sourceTestId)[k].logId)
    ensures forall id: nat :: Eligible(db.rows, sourceTestId, id) ==>
              CandidateOf(db.rows, id) in Candidates(db, sourceTestId)
  {
    CandidatesBelowExact(db.rows, sourceTestId, db.nextId);
    assert forall id: nat :: Eligible(db.rows, sourceTestId, id) ==> id < db.nextId;
    hide Eligible;
  }

  /** The sale is in the candidate list of its test. */
  ghost predicate Selected(db: Db, sourceTestId: int, id: nat) {
    exists k :: 0 <= k < |Candidates(db, sourceTestId)| && Candidates(db, sourceTestId)[k].logId == id
  }

  /** What the SELECT promises, column by column: an approved purchase of the test, of type 0100 or 0200 with a
      processing code starting with 00 and response code 00; no row of the same test and reference is a
      reversal, of type 0400 or 0420; and every refund of it was refused. */
  lemma CandidatesMeaning(db: Db, sourceTestId: int, id: nat)
    requires KeysBelow(db)
    ensures Selected(db, sourceTestId, id) <==>
            && id in db.rows
            && var row := db.rows[id];
               && row.entry.testId == sourceTestId && row.entry.mti in {Some("0100"), Some("0200")}
               && |row.entry.processingCode| >= 2
               && row.entry.processingCode[0] == '0' && row.entry.processingCode[1] == '0'
               && row.responseCode == Some("00")
               && (forall rv :: rv in db.rows && db.rows[rv].entry.reference == row.entry.reference &&
                                db.rows[rv].entry.testId == sourceTestId ==>
                     db.rows[rv].entry.mti != Some("0400") && db.rows[rv].entry.mti != Some("0420"))
               && (forall rf :: rf in db.rows && db.rows[rf].entry.originalLogId == Some(id) ==>
                     db.rows[rf].responseCode.Some? && db.rows[rf].responseCode.value != "00")
    ensures forall c :: c in Candidates(db, sourceTestId) && c.logId == id ==>
              id in db.rows && c.reference == db.rows[id].entry.reference &&
              c.requestMessage == db.rows[id].entry.requestMessage
  {
    CandidatesExact(db, sourceTestId);
    var c := Candidates(db, sourceTestId);
    hide Candidates;
    EligibleMeaning(db.rows, sourceTestId, id);
    hide Eligible;
    if Eligible(db.rows, sourceTestId, id) {
      var k :| 0 <= k < |c| && c[k] == CandidateOf(db.rows, id);
      assert c[k].logId == id;
    }
    forall x | x in c && x.logId == id
      ensures id in db.rows && x == CandidateOf(db.rows, id)
    {
      var k :| 0 <= k < |c| && c[k] == x;
      InTables(db, sourceTestId, id);
    }
  }

  lemma InTables(db: Db, sourceTestId: int, id: nat)
    requires KeysBelow(db)
    ensures Eligible(db.rows, sourceTestId, id) ==> id in db.rows && id < db.nextId
  {}

  lemma EligibleMeaning(rows: map<nat, Row>, sourceTestId: int, id: nat)
    ensures Eligible(rows, sourceTestId, id) <==>
            && id in rows
            && var row := rows[id];
               && row.entry.testId == sourceTestId && row.entry.mti in {Some("0100"), Some("0200")}
               && |row.entry.processingCode| >= 2
               && row.entry.processingCode[0] == '0' && row.entry.processingCode[1] == '0'
               && row.responseCode == Some("00")
               && (forall rv :: rv in rows && rows[rv].entry.reference == row.entry.reference &&
                                rows[rv].entry.testId == sourceTestId ==>
                     rows[rv].entry.mti != Some("0400") && rows[rv].entry.mti != Some("0420"))
               && (forall rf :: rf in rows && rows[rf].entry.originalLogId == Some(id) ==>
                     rows[rf].responseCode.Some? && rows[rf].responseCode.value != "00")
  {
    if id in rows {
      var code := rows[id].entry.processingCode;
      assert |code| >= 2 ==> (code[..2] == "00" <==> code[0] == '0' && code[1] == '0');
      ReversedExactly(rows, rows[id]);
    }
  }

  lemma ReversedExactly(rows: map<nat, Row>, sale: Row)
    ensures (forall rv :: rv in rows ==> !Reverses(rows[rv], sale)) <==>
            forall rv :: rv in rows && rows[rv].entry.reference == sale.entry.reference &&
                         rows[rv].entry.testId == sale.entry.testId ==>
              rows[rv].entry.mti != Some("0400") && rows[rv].entry.mti != Some("0420")
  {}

  /** The insert of a row takes a sale off the list exactly when the row is a reversal of the sale's reference
      in the sale's test, or a new refund of it. */
  lemma InsertUnselects(db: Db, sourceTestId: int, sale: nat, entry: Entry)
    requires KeysBelow(db) && Selected(db, sourceTestId, sale)
    ensures sale in db.rows
    ensures !Selected(Apply(db, AddRequestLog(entry)), sourceTestId, sale) <==>
            (entry.testId == sourceTestId && entry.reference == db.rows[sale].entry.reference &&
             entry.mti in {Some("0400"), Some("0420")}) ||
            entry.originalLogId == Some(sale)
  {
    hide Selected;
    var d := Apply(db, AddRequestLog(entry));
    CandidatesMeaning(db, sourceTestId, sale);
    CandidatesMeaning(d, sourceTestId, sale);
    assert d.rows[db.nextId] == NewRow(entry);
  }

  /** Once a reversal of its reference is in the tables of its test, a sale is in no candidate list. */
  lemma ReversalBlocks(db: Db, sourceTestId: int, sale: nat, reversal: nat)
    requires KeysBelow(db) && sale in db.rows && reversal in db.rows
    requires db.rows[reversal].entry.testId == db.rows[sale].entry.testId
    requires db.rows[reversal].entry.reference == db.rows[sale].entry.reference
    requires db.rows[reversal].entry.mti in {Some("0400"), Some("0420")}
    ensures !Selected(db, sourceTestId, sale)
  {
    hide Selected;
    CandidatesMeaning(db, sourceTestId, sale);
  }

  /** GetRefundCandidates: the scan in key order. */
  method GetRefundCandidates(db: Db, sourceTestId: int) returns (candidates: seq<Candidate>)
    ensures candidates == Candidates(db, sourceTestId)
  {
    candidates := [];
    for id := 0 to db.nextId
      invariant candidates == CandidatesBelow(db.rows, sourceTestId, id)
    {
      if Eligible(db.rows, sourceTestId, id) {
        candidates := candidates + [CandidateOf(db.rows, id)];
      }
    }
  }

  // ---------------------------------------------------------------- what statements do to live refunds

  ghost predicate AtMostOne(rows: map<nat, Row>) {
    forall i: nat, j: nat, sale: nat :: Live(rows, i, sale) && Live(rows, j, sale) ==> i == j
  }

  predicate RefundInsert(op: Op) {
    op.AddRequestLog? && op.entry.originalLogId.Some?
  }

  /** No statement but the insert of a refund makes a refund live: refused refunds stay refused. */
  lemma NoneRevived(db: Db, op: Op)
    requires AnswersComplete(db) && !RefundInsert(op)
    ensures forall i: nat, sale: nat :: Live(Apply(db, op).rows, i, sale) ==> Live(db.rows, i, sale)
  {}

  lemma OneMore(db: Db, op: Op)
    requires RefundInsert(op)
    ensures forall i: nat, sale: nat :: Live(Apply(db, op).rows, i, sale) ==>
              Live(db.rows, i, sale) || (i == db.nextId && op.entry.originalLogId == Some(sale))
  {}

  lemma NoneRevivedSafe(db: Db, op: Op)
    requires AtMostOne(db.rows) && AnswersComplete(db) && !RefundInsert(op)
    ensures AtMostOne(Apply(db, op).rows)
  {
    NoneRevived(db, op);
    hide Live;
    hide Apply;
  }

  lemma OneMoreSafe(db: Db, op: Op)
    requires AtMostOne(db.rows) && RefundInsert(op)
    requires forall i: nat :: !Live(db.rows, i, op.entry.originalLogId.value)
    ensures AtMostOne(Apply(db, op).rows)
  {
    OneMore(db, op);
    hide Live;
    hide Apply;
  }

  lemma {:induction false} AllKeep(db: Db, ops: seq<Op>)
    requires KeysBelow(db) && AnswersComplete(db)
    ensures KeysBelow(ApplyAll(db, ops)) && AnswersComplete(ApplyAll(db, ops))
  {
    if ops != [] {
      AllKeep(db, ops[..|ops| - 1]);
      ApplyKeeps(ApplyAll(db, ops[..|ops| - 1]), ops[|ops| - 1]);
    }
  }

  /** Pending statements without a refund insert among them add no live refund to the tables. */
  lemma {:induction false} QuietPending(db: Db, ops: seq<Op>)
    requires KeysBelow(db) && AnswersComplete(db) && forall op :: op in ops ==> !RefundInsert(op)
    ensures forall i: nat, sale: nat :: Live(ApplyAll(db, ops).rows, i, sale) ==> Live(db.rows, i, sale)
  {
    if ops != [] {
      var front := ops[..|ops| - 1];
      QuietPending(db, front);
      AllKeep(db, front);
      NoneRevived(ApplyAll(db, front), ops[|ops| - 1]);
      hide Live;
    }
  }

  /** However many pending statements are committed, no sale has two live refunds. */
  ghost predicate NeverTwo(db: Db, ops: seq<Op>) {
    forall k :: 0 <= k <= |ops| ==> AtMostOne(ApplyAll(db, ops[..k]).rows)
  }

  lemma NeverTwoSnoc(db: Db, ops: seq<Op>, op: Op)
    requires NeverTwo(db, ops) && AtMostOne(ApplyAll(db, ops + [op]).rows)
    ensures NeverTwo(db, ops + [op])
  {
    hide AtMostOne;
    hide ApplyAll;
    forall k | 0 <= k <= |ops| + 1 ensures AtMostOne(ApplyAll(db, (ops + [op])[..k]).rows) {
      if k <= |ops| {
        assert (ops + [op])[..k] == ops[..k];
      } else {
        assert (ops + [op])[..k] == ops + [op];
      }
    }
  }

  lemma NeverTwoCommit(db: Db, batch: seq<Op>, queue: seq<Op>)
    requires NeverTwo(db, batch + queue)
    ensures NeverTwo(ApplyAll(db, batch), queue)
  {
    hide AtMostOne;
    forall k | 0 <= k <= |queue| ensures AtMostOne(ApplyAll(ApplyAll(db, batch), queue[..k]).rows) {
      ApplyAllConcat(db, batch, queue[..k]);
      assert (batch + queue)[..|batch| + k] == batch + queue[..k];
      hide ApplyAll;
    }
  }

  // ---------------------------------------------------------------- refunds of refunds

  predicate CodedEntry(e: Entry) {
    e.originalLogId.Some? ==> |e.processingCode| >= 2 && e.processingCode[..2] == "20"
  }

  /** Every refund in the tables has processing code 20xxxx. */
  ghost predicate Coded(db: Db) {
    forall id :: id in db.rows ==> CodedEntry(db.rows[id].entry)
  }

  ghost predicate CodedOps(ops: seq<Op>) {
    forall op :: op in ops && op.AddRequestLog? ==> CodedEntry(op.entry)
  }

  lemma {:induction false} AllCoded(db: Db, ops: seq<Op>)
    requires Coded(db) && CodedOps(ops)
    ensures Coded(ApplyAll(db, ops))
  {
    if ops != [] {
      AllCoded(db, ops[..|ops| - 1]);
      CodedStep(ApplyAll(db, ops[..|ops| - 1]), ops[|ops| - 1]);
    }
  }

  lemma CodedStep(db: Db, op: Op)
    requires Coded(db) && (op.AddRequestLog? ==> CodedEntry(op.entry))
    ensures Coded(Apply(db, op))
  {
    hide CodedEntry;
    if op.UpdateResponseTime? {
      forall id | id in db.rows
        ensures CodedEntry(Answered(db.rows[id], op).entry) == CodedEntry(db.rows[id].entry)
      {
        SameCode(db.rows[id].entry, op.requestTime);
      }
    }
  }

  lemma SameCode(e: Entry, requestTime: int)
    ensures CodedEntry(e.(requestTime := requestTime)) == CodedEntry(e)
  {}

  lemma CodedNeverEligible(db: Db, sourceTestId: int, id: nat)
    requires Coded(db) && id in db.rows && db.rows[id].entry.originalLogId.Some?
    ensures !Eligible(db.rows, sourceTestId, id)
  {
    assert CodedEntry(db.rows[id].entry);
  }

  // ---------------------------------------------------------------- the runner

  datatype Call = ReserveCall | ReleaseCall

  /** The flag after some calls, and which of them succeeded. */
  function BusyAfter(busy: bool, calls: seq<Call>): bool {
    if calls == [] then busy else calls[|calls| - 1].ReserveCall?
  }

  predicate Granted(busy: bool, calls: seq<Call>, i: nat)
    requires i < |calls|
  {
    calls[i].ReserveCall? && !BusyAfter(busy, calls[..i])
  }

  /** The busy flag of the test runner. */
  class StressTestRunner {
    var busy: bool

    constructor ()
      ensures !busy
    {
      busy := false;
    }

    /** A compare-and-swap. */
    method Reserve() returns (ok: bool)
      modifies this
      ensures busy && ok == !old(busy)
    {
      ok := !busy;
      if ok {
        busy := true;
      }
    }

    method Release()
      modifies this
      ensures !busy
    {
      busy := false;
    }

    /** The calls of any number of goroutines, in the order in which they take effect. */
    method Serve(calls: seq<Call>) returns (oks: seq<bool>)
      modifies this
      ensures busy == BusyAfter(old(busy), calls) && |oks| == |calls|
      ensures forall i :: 0 <= i < |calls| && calls[i].ReserveCall? ==> oks[i] == Granted(old(busy), calls, i)
    {
      oks := [];
      for i := 0 to |calls|
        invariant |oks| == i && busy == BusyAfter(old(busy), calls[..i])
        invariant forall j :: 0 <= j < i && calls[j].ReserveCall? ==> oks[j] == Granted(old(busy), calls, j)
      {
        var ok := true;
        match calls[i] {
          case ReserveCall => ok := Reserve();
          case ReleaseCall => Release();
        }
        assert calls[..i + 1][|calls[..i + 1]| - 1] == calls[i];
        oks := oks + [ok];
      }
      assert calls[..|calls|] == calls;
    }
  }

  predicate NoRelease(calls: seq<Call>, from: nat, to: nat)
    requires from <= to <= |calls|
  {
    forall k :: from <= k < to ==> calls[k].ReserveCall?
  }

  /** A reservation is refused exactly when an earlier one succeeded and nobody has released since, or the
      runner was busy from the start: of the callers between two releases exactly the first succeeds. */
  lemma {:induction false} FirstCallerWins(busy: bool, calls: seq<Call>, j: nat)
    requires j < |calls| && calls[j].ReserveCall?
    ensures !Granted(busy, calls, j) <==>
            (exists i: nat :: i < j && Granted(busy, calls, i) && NoRelease(calls, i + 1, j)) ||
            (busy && NoRelease(calls, 0, j))
  {
    if j > 0 {
      assert calls[..j][|calls[..j]| - 1] == calls[j - 1];
      if calls[j - 1].ReserveCall? {
        if Granted(busy, calls, j - 1) {
          assert NoRelease(calls, j - 1 + 1, j);
        } else {
          FirstCallerWins(busy, calls, j - 1);
          if i: nat :| i < j - 1 && Granted(busy, calls, i) && NoRelease(calls, i + 1, j - 1) {
            assert NoRelease(calls, i + 1, j);
          }
        }
      }
    }
  }

  /** What the runner's goroutine is doing. current is the refund drawn and not yet logged: its connection
      and its reference. */
  datatype Work =
    | Selling
    | Refunding(testId: int, candidates: seq<Candidate>, nodes: seq<string>, sent: nat,
                current: Option<(string, string)>)

  /** holders counts the handlers between a successful Reserve and the hand-over of their test. */
  datatype Runner = Runner(busy: bool, holders: nat, work: Option<Work>)

  datatype World = World(g: Global, runner: Runner)

  datatype Turn =
    | Reserve
    | GiveBack
    | StartSale
    | StartRefund(testId: int, sourceTestId: int, nodes: seq<string>)
    | SkipRefund(reference: string, now: int, stamp: string)
    | DrawRefund(reference: string, now: int, stamp: string)
    | RecordRefund
    | Finish
    | Serve(m: Move)

  /** Refunds are drawn and logged by the runner's goroutine only. */
  predicate RefundStep(s: State, m: Move) {
    && m.Actor? && m.a.On? && m.a.name in s.conns
    && (var step := m.a.step;
        || (step.Draw? && step.task.entry.originalLogId.Some?)
        || (step.Record? && step.r in s.conns[m.a.name].tasks &&
            s.conns[m.a.name].tasks[step.r].entry.originalLogId.Some?))
  }

  predicate IsRunnerTurn(t: Turn) {
    t.Reserve? || t.GiveBack? || t.StartSale? || t.StartRefund? || t.Finish?
  }

  function TakeTurn(spec: Spec, w: World, t: Turn): Option<World> {
    if t.Serve? then
      if RefundStep(w.g.server, t.m) || Advance(w.g, t.m).None? then None
      else Some(w.(g := Advance(w.g, t.m).value))
    else if IsRunnerTurn(t) then
      match TakeRunner(w, t)
      case None => None
      case Some(runner) => Some(w.(runner := runner))
    else if w.runner.work.Some? && w.runner.work.value.Refunding? then TakeRefund(spec, w, t, w.runner.work.value)
    else None
  }

  function TakeRunner(w: World, t: Turn): Option<Runner>
    requires IsRunnerTurn(t)
  {
    var r := w.runner;
    match t
    case Reserve => Some(if r.busy then r else r.(busy := true, holders := r.holders + 1))
    case GiveBack => if r.holders == 0 then None else Some(r.(busy := false, holders := r.holders - 1))
    case StartSale => if r.holders == 0 then None else Some(r.(holders := r.holders - 1, work := Some(Selling)))
    case StartRefund(testId, sourceTestId, nodes) =>
      if r.holders == 0 then None
      else
        // Aborted at once when no client is connected.
        var candidates := if nodes == [] then [] else Candidates(w.g.log.db, sourceTestId);
        Some(r.(holders := r.holders - 1, work := Some(Refunding(testId, candidates, nodes, 0, None))))
    case Finish =>
      if r.work.None? || (r.work.value.Refunding? && r.work.value.sent < |r.work.value.candidates|) then None
      else Some(r.(busy := false, work := None))
  }

  /** sendRefund for the next candidate: skipped when its text does not parse, otherwise drawn and then
      logged. Its push, or its removal when the channel is full, are steps of Protocol. */
  function TakeRefund(spec: Spec, w: World, t: Turn, run: Work): Option<World>
    requires !t.Serve? && !IsRunnerTurn(t) && run.Refunding?
  {
    if t.RecordRefund? then
      if run.current.None? then None
      else
        match Advance(w.g, Actor(On(run.current.value.0, Record(run.current.value.1))))
        case None => None
        case Some(g) => Some(World(g, w.runner.(work := Some(run.(sent := run.sent + 1, current := None)))))
    else if run.current.Some? || run.sent >= |run.candidates| || run.nodes == [] || |t.reference| != 12 then None
    else
      var name := run.nodes[run.sent % |run.nodes|];
      var refund := RefundFor(spec, run.testId, t.now, t.stamp, t.reference, name, run.candidates[run.sent]);
      if t.SkipRefund? then
        if refund.Skipped? then Some(w.(runner := w.runner.(work := Some(run.(sent := run.sent + 1))))) else None
      else if !refund.Ready? then None
      else
        match Advance(w.g, Actor(On(name, Draw(Task(refund.entry, None, Drawn)))))
        case None => None
        case Some(g) =>
          Some(World(g, w.runner.(work := Some(run.(current := Some((name, t.reference)))))))
  }

  // ---------------------------------------------------------------- the invariant

  /** The flag is set exactly while one test is reserved or running; no two ever are. */
  predicate RunnerOk(r: Runner) {
    r.holders + (if r.work.Some? then 1 else 0) == if r.busy then 1 else 0
  }

  /** sendRefund gets as far as logging a refund of this candidate. */
  predicate Sends(spec: Spec, c: Candidate) {
    c.logId > 0 && Parse(spec, c.requestMessage).Success? && !Crashes(spec, c)
  }

  /** sendRefund slices out of bounds, which ends the run. */
  predicate Crashes(spec: Spec, c: Candidate) {
    Parse(spec, c.requestMessage).Success? &&
    |GetField(Parse(spec, c.requestMessage).value.msg.fields, PROCESSING_CODE)| < 2
  }

  /** From candidate number `from` on, the run comes to send number k. */
  ghost predicate Reached(spec: Spec, c: seq<Candidate>, from: nat, k: int) {
    from <= k < |c| && Sends(spec, c[k]) && forall j :: from <= j < k ==> !Crashes(spec, c[j])
  }

  /** No sale the run has yet to send has a live refund. */
  ghost predicate Untouched(spec: Spec, rows: map<nat, Row>, c: seq<Candidate>, from: nat) {
    forall k, i :: Reached(spec, c, from, k) ==> !Live(rows, i, c[k].logId)
  }

  /** The refund being sent is that of candidate number `sent`, on node `sent` modulo their number. */
  predicate CurrentOk(spec: Spec, s: State, run: Work)
    requires run.Refunding?
  {
    run.current.Some? ==>
      var (name, r) := run.current.value;
      && run.sent < |run.candidates| && name in s.conns && r in s.conns[name].tasks
      && run.nodes != [] && name == run.nodes[run.sent % |run.nodes|]
      && !Crashes(spec, run.candidates[run.sent])
      && (s.conns[name].tasks[r].entry.originalLogId.Some? ==>
            s.conns[name].tasks[r].entry.originalLogId == Some(run.candidates[run.sent].logId) &&
            Sends(spec, run.candidates[run.sent]))
  }

  ghost predicate WorkOk(spec: Spec, g: Global, work: Option<Work>) {
    work.Some? && work.value.Refunding? ==>
      && Increasing(work.value.candidates) && work.value.sent <= |work.value.candidates|
      && CurrentOk(spec, g.server, work.value)
      && Untouched(spec, Logical(g.log).rows, work.value.candidates, work.value.sent)
  }

  ghost predicate LogOk(w: Writer) {
    KeysBelow(w.db) && AnswersComplete(w.db) && NeverTwo(w.db, w.batch + w.queue)
  }

  ghost predicate WorldOk(spec: Spec, w: World) {
    RunnerOk(w.runner) && LogOk(w.g.log) && WorkOk(spec, w.g, w.runner.work)
  }

  predicate SameEntries(before: map<string, Task>, after: map<string, Task>) {
    forall r :: r in before ==>
      r in after && after[r].entry == before[r].entry && after[r].followUp == before[r].followUp
  }

  lemma WorkerKeepsEntries(name: string, c: Conn, open: bool, a: Step)
    requires IsWorkerStep(a) && a.r in c.tasks && DoWorker(name, c, open, a).Some?
    ensures SameEntries(c.tasks, DoWorker(name, c, open, a).value.conn.tasks)
  {
    hide SameEntries;
    var tasks := DoWorker(name, c, open, a).value.conn.tasks;
    assert tasks == c.tasks[a.r := c.tasks[a.r].(stage := tasks[a.r].stage)];
    StageOnly(c.tasks, a.r, tasks[a.r].stage);
  }

  lemma StageOnly(tasks: map<string, Task>, r: string, stage: Stage)
    requires r in tasks
    ensures SameEntries(tasks, tasks[r := tasks[r].(stage := stage)])
  {}

  lemma ReaderKeepsEntries(name: string, c: Conn, open: bool, a: Step)
    requires IsReaderStep(a) && DoReader(name, c, open, a).Some?
    ensures DoReader(name, c, open, a).value.conn.tasks == c.tasks
  {}

  /** Every step keeps the log entry and the follow-up of every task. */
  lemma TasksKept(name: string, c: Conn, open: bool, a: Step)
    requires Do(name, c, open, a).Some?
    ensures SameEntries(c.tasks, Do(name, c, open, a).value.conn.tasks)
  {
    hide DoWorker;
    hide DoReader;
    if IsWorkerStep(a) {
      WorkerKeepsEntries(name, c, open, a);
    } else if IsReaderStep(a) {
      ReaderKeepsEntries(name, c, open, a);
    }
  }

  lemma CurrentKept(spec: Spec, g: Global, m: Move, run: Work)
    requires Advance(g, m).Some? && run.Refunding? && CurrentOk(spec, g.server, run)
    ensures CurrentOk(spec, Advance(g, m).value.server, run)
  {
    hide Sends;
    hide Crashes;
    if m.Actor? && m.a.On? {
      TasksKept(m.a.name, g.server.conns[m.a.name], g.server.open, m.a.step);
    }
    hide Do;
  }

  /** Outside the runner's own steps the server never queues the insert of a refund. */
  lemma OthersInsertNoRefund(s: State, a: Action)
    requires Next(s, a).Some? && Next(s, a).value.1.Some? && !RefundStep(s, Actor(a))
    ensures !RefundInsert(Next(s, a).value.1.value)
  {}

  lemma LogicalSound(w: Writer)
    requires LogOk(w)
    ensures AnswersComplete(Logical(w)) && AtMostOne(Logical(w).rows)
  {
    AllKeep(w.db, w.batch + w.queue);
    assert (w.batch + w.queue)[..|w.batch + w.queue|] == w.batch + w.queue;
    hide AtMostOne;
  }

  /** Every queued statement other than a refund insert. */
  lemma QuietOp(spec: Spec, w: Writer, op: Op, c: seq<Candidate>, from: nat)
    requires LogOk(w) && !RefundInsert(op)
    ensures LogOk(w.(queue := w.queue + [op]))
    ensures Untouched(spec, Logical(w).rows, c, from) ==>
              Untouched(spec, Logical(w.(queue := w.queue + [op])).rows, c, from)
  {
    hide Reached;
    LogicalSound(w);
    NoneRevived(Logical(w), op);
    NoneRevivedSafe(Logical(w), op);
    hide AtMostOne;
    ApplyAllSnoc(w.db, w.batch + w.queue, op);
    assert w.batch + (w.queue + [op]) == (w.batch + w.queue) + [op];
    hide Live;
    hide Apply;
    hide ApplyAll;
    hide NeverTwo;
    NeverTwoSnoc(w.db, w.batch + w.queue, op);
  }

  /** The insert of a refund of candidate number `sent`, which no live refund in the log names. */
  lemma RefundOp(spec: Spec, w: Writer, op: Op, c: seq<Candidate>, sent: nat)
    requires LogOk(w) && RefundInsert(op) && Increasing(c) && sent < |c|
    requires op.entry.originalLogId == Some(c[sent].logId) && Untouched(spec, Logical(w).rows, c, sent)
    requires Sends(spec, c[sent]) && !Crashes(spec, c[sent])
    ensures LogOk(w.(queue := w.queue + [op]))
    ensures Untouched(spec, Logical(w.(queue := w.queue + [op])).rows, c, sent + 1)
  {
    hide Sends;
    hide Crashes;
    hide Live;
    hide Apply;
    hide ApplyAll;
    hide NeverTwo;
    hide AtMostOne;
    assert Reached(spec, c, sent, sent);
    hide Reached;
    LogicalSound(w);
    OneMore(Logical(w), op);
    OneMoreSafe(Logical(w), op);
    ApplyAllSnoc(w.db, w.batch + w.queue, op);
    assert w.batch + (w.queue + [op]) == (w.batch + w.queue) + [op];
    NeverTwoSnoc(w.db, w.batch + w.queue, op);
    NextUntouched(spec, Logical(w).rows, Apply(Logical(w), op).rows, c, sent);
  }

  lemma NextUntouched(spec: Spec, before: map<nat, Row>, after: map<nat, Row>, c: seq<Candidate>, sent: nat)
    requires Increasing(c) && sent < |c| && !Crashes(spec, c[sent]) && Untouched(spec, before, c, sent)
    requires forall i: nat, sale: nat :: Live(after, i, sale) ==> Live(before, i, sale) || sale == c[sent].logId
    ensures Untouched(spec, after, c, sent + 1)
  {
    hide Sends;
    hide Crashes;
    hide Live;
    LaterReached(spec, c, sent);
  }

  lemma LaterReached(spec: Spec, c: seq<Candidate>, from: nat)
    requires from < |c| && !Crashes(spec, c[from])
    ensures forall k :: Reached(spec, c, from + 1, k) ==> Reached(spec, c, from, k)
  {
    hide Sends;
    hide Crashes;
  }

  /** A batch writer move. */
  lemma WriterMove(g: Global, m: Move)
    requires LogOk(g.log) && Advance(g, m).Some? && !m.Actor?
    ensures LogOk(Advance(g, m).value.log)
  {
    var w := g.log;
    hide NeverTwo;
    if m.TakeOp? {
      assert (w.batch + [w.queue[0]]) + w.queue[1..] == w.batch + w.queue;
    } else {
      AllKeep(w.db, w.batch);
      NeverTwoCommit(w.db, w.batch, w.queue);
      assert [] + w.queue == w.queue;
    }
  }

  lemma ServeKeeps(spec: Spec, w: World, m: Move)
    requires WorldOk(spec, w) && TakeTurn(spec, w, Serve(m)).Some?
    ensures WorldOk(spec, TakeTurn(spec, w, Serve(m)).value)
  {
    var g := w.g;
    var h := Advance(g, m).value;
    var work := w.runner.work;
    var refunding := work.Some? && work.value.Refunding?;
    var c := if refunding then work.value.candidates else [];
    var from := if refunding then work.value.sent else 0;
    if refunding {
      CurrentKept(spec, g, m, work.value);
    }
    AdvanceRefines(g, m);
    hide CurrentOk;
    hide Untouched;
    hide LogOk;
    if !m.Actor? {
      WriterMove(g, m);
    } else {
      var op := Next(g.server, m.a).value.1;
      if op.Some? {
        OthersInsertNoRefund(g.server, m.a);
        QuietOp(spec, g.log, op.value, c, from);
      }
    }
    hide Next;
    hide RefundStep;
  }

  /** No sale the new run is going to send has, with the queue folded in, a live refund; a run without a
      connected client sends nothing. */
  ghost predicate SafeStart(spec: Spec, w: World, sourceTestId: int, nodes: seq<string>) {
    nodes == [] || Untouched(spec, Logical(w.g.log).rows, Candidates(w.g.log.db, sourceTestId), 0)
  }

  ghost predicate SafeTurn(spec: Spec, w: World, t: Turn) {
    t.StartRefund? ==> SafeStart(spec, w, t.sourceTestId, t.nodes)
  }

  /** A start with no refund insert waiting for the batch writer, so one with an empty queue, is safe. */
  lemma QuietStartsAreSafe(spec: Spec, w: World, sourceTestId: int, nodes: seq<string>)
    requires LogOk(w.g.log)
    requires forall op :: op in w.g.log.batch + w.g.log.queue ==> !RefundInsert(op)
    ensures SafeStart(spec, w, sourceTestId, nodes)
  {
    CandidatesExact(w.g.log.db, sourceTestId);
    QuietPending(w.g.log.db, w.g.log.batch + w.g.log.queue);
    var c := Candidates(w.g.log.db, sourceTestId);
    hide Candidates;
    hide Sends;
    hide Crashes;
    forall k, i | Reached(spec, c, 0, k) ensures !Live(Logical(w.g.log).rows, i, c[k].logId) {
      assert Eligible(w.g.log.db.rows, sourceTestId, c[k].logId);
      assert !Live(w.g.log.db.rows, i, c[k].logId);
    }
  }

  lemma RunnerKeeps(spec: Spec, w: World, t: Turn)
    requires WorldOk(spec, w) && TakeTurn(spec, w, t).Some? && IsRunnerTurn(t) && SafeTurn(spec, w, t)
    ensures WorldOk(spec, TakeTurn(spec, w, t).value)
  {
    if t.StartRefund? {
      CandidatesExact(w.g.log.db, t.sourceTestId);
    }
    hide LogOk;
    hide Candidates;
    hide Sends;
    hide Crashes;
  }

  lemma RecordKeeps(spec: Spec, w: World)
    requires WorldOk(spec, w) && TakeTurn(spec, w, RecordRefund).Some?
    ensures WorldOk(spec, TakeTurn(spec, w, RecordRefund).value)
  {
    hide Sends;
    hide Crashes;
    var run := w.runner.work.value;
    var (name, r) := run.current.value;
    LaterReached(spec, run.candidates, run.sent);
    var a := On(name, Record(r));
    AdvanceRefines(w.g, Actor(a));
    RecordedEntry(w.g.server, name, r);
    hide LogOk;
    var op := Next(w.g.server, a).value.1;
    assert Advance(w.g, Actor(a)).value.log ==
           if op.None? then w.g.log else w.g.log.(queue := w.g.log.queue + [op.value]);
    hide Next;
    hide Advance;
    hide Logical;
    if op.Some? {
      if RefundInsert(op.value) {
        assert Sends(spec, run.candidates[run.sent]);
        RefundOp(spec, w.g.log, op.value, run.candidates, run.sent);
      } else {
        QuietOp(spec, w.g.log, op.value, run.candidates, run.sent);
      }
    }
  }

  lemma RecordedEntry(s: State, name: string, r: string)
    requires Next(s, On(name, Record(r))).Some?
    ensures name in s.conns && r in s.conns[name].tasks
    ensures var op := Next(s, On(name, Record(r))).value.1;
            op == Enqueued(s.open, AddRequestLog(s.conns[name].tasks[r].entry))
  {}

  lemma DrawKeeps(spec: Spec, w: World, t: Turn)
    requires WorldOk(spec, w) && TakeTurn(spec, w, t).Some? && t.DrawRefund?
    ensures WorldOk(spec, TakeTurn(spec, w, t).value)
  {
    var run := w.runner.work.value;
    var name := run.nodes[run.sent % |run.nodes|];
    var original := run.candidates[run.sent];
    var entry := RefundFor(spec, run.testId, t.now, t.stamp, t.reference, name, original).entry;
    RefundEntryNames(spec, run.testId, t.now, t.stamp, t.reference, name, original);
    RefundOutcome(spec, run.testId, t.now, t.stamp, t.reference, name, original);
    hide Sends;
    hide Crashes;
    hide RefundFor;
    DrawnTask(w.g, name, Task(entry, None, Drawn));
    hide LogOk;
    hide Advance;
    hide Logical;
  }

  /** Which of the three a candidate gives depends on its stored text only. */
  lemma RefundOutcome(spec: Spec, testId: int, now: int, stamp: string, reference: string, name: string,
                      original: Candidate)
    requires |reference| == 12
    ensures var r := RefundFor(spec, testId, now, stamp, reference, name, original);
            && (r.Crashed? <==> Crashes(spec, original))
            && (r.Skipped? ==> !Sends(spec, original))
            && (r.Ready? && r.entry.originalLogId.Some? <==> Sends(spec, original))
  {
    hide Parse;
    hide Print;
  }

  lemma DrawnTask(g: Global, name: string, task: Task)
    requires Advance(g, Actor(On(name, Draw(task)))).Some?
    ensures var h := Advance(g, Actor(On(name, Draw(task)))).value;
            && h.log == g.log && name in h.server.conns
            && task.entry.reference in h.server.conns[name].tasks
            && h.server.conns[name].tasks[task.entry.reference] == task
  {}

  lemma RefundEntryNames(spec: Spec, testId: int, now: int, stamp: string, reference: string, name: string,
                         original: Candidate)
    requires |reference| == 12
    requires RefundFor(spec, testId, now, stamp, reference, name, original).Ready?
    ensures var e := RefundFor(spec, testId, now, stamp, reference, name, original).entry;
            && e.reference == reference && CodedEntry(e)
            && (e.originalLogId.Some? ==> e.originalLogId == Some(original.logId))
  {
    hide Parse;
    hide Print;
    RefundCode(spec, reference, stamp, original.requestMessage);
    hide RefundMessage;
  }

  lemma RefundCode(spec: Spec, reference: string, stamp: string, text: string)
    requires |reference| == 12 && Parse(spec, text).Success?
    ensures var r := RefundMessage(Parse(spec, text).value.msg, reference, stamp);
            r.Some? ==> |GetField(r.value.fields, PROCESSING_CODE)| >= 2 &&
                        GetField(r.value.fields, PROCESSING_CODE)[..2] == "20"
  {
    hide Parse;
  }

  lemma SkipKeeps(spec: Spec, w: World, t: Turn)
    requires WorldOk(spec, w) && TakeTurn(spec, w, t).Some? && t.SkipRefund?
    ensures WorldOk(spec, TakeTurn(spec, w, t).value)
  {
    var run := w.runner.work.value;
    var name := run.nodes[run.sent % |run.nodes|];
    RefundOutcome(spec, run.testId, t.now, t.stamp, t.reference, name, run.candidates[run.sent]);
    hide LogOk;
    hide Logical;
    hide RefundFor;
    hide Sends;
    hide Crashes;
    LaterReached(spec, run.candidates, run.sent);
  }

  /** Every turn of the world keeps the invariant, provided refund runs start safely. */
  lemma TakeKeeps(spec: Spec, w: World, t: Turn)
    requires WorldOk(spec, w) && TakeTurn(spec, w, t).Some? && SafeTurn(spec, w, t)
    ensures WorldOk(spec, TakeTurn(spec, w, t).value)
  {
    if t.Serve? {
      ServeKeeps(spec, w, t.m);
    } else if IsRunnerTurn(t) {
      RunnerKeeps(spec, w, t);
    } else if t.RecordRefund? {
      RecordKeeps(spec, w);
    } else if t.DrawRefund? {
      DrawKeeps(spec, w, t);
    } else {
      SkipKeeps(spec, w, t);
    }
  }

  // ---------------------------------------------------------------- whole histories

  function RunWorld(spec: Spec, w: World, turns: seq<Turn>): Option<World> {
    if turns == [] then Some(w)
    else
      match RunWorld(spec, w, turns[..|turns| - 1])
      case None => None
      case Some(before) => TakeTurn(spec, before, turns[|turns| - 1])
  }

  /** Every refund run of the history started safely. */
  ghost predicate SafeStarts(spec: Spec, w: World, turns: seq<Turn>) {
    turns == [] ||
    (SafeStarts(spec, w, turns[..|turns| - 1]) &&
     (RunWorld(spec, w, turns[..|turns| - 1]).Some? ==>
        SafeTurn(spec, RunWorld(spec, w, turns[..|turns| - 1]).value, turns[|turns| - 1])))
  }

  ghost predicate Fresh(w: World) {
    && w.runner == Runner(false, 0, None) && w.g.log.batch == [] && w.g.log.queue == []
    && KeysBelow(w.g.log.db) && AnswersComplete(w.g.log.db) && AtMostOne(w.g.log.db.rows)
  }

  lemma FreshOk(spec: Spec, w: World)
    requires Fresh(w)
    ensures WorldOk(spec, w)
  {
    var pending := w.g.log.batch + w.g.log.queue;
    assert pending == [] && pending[..0] == [];
  }

  lemma {:induction false} HistoryOk(spec: Spec, w: World, turns: seq<Turn>)
    requires WorldOk(spec, w) && SafeStarts(spec, w, turns) && RunWorld(spec, w, turns).Some?
    ensures WorldOk(spec, RunWorld(spec, w, turns).value)
  {
    if turns != [] {
      HistoryOk(spec, w, turns[..|turns| - 1]);
      hide WorldOk;
      TakeKeeps(spec, RunWorld(spec, w, turns[..|turns| - 1]).value, turns[|turns| - 1]);
    }
  }

  /** The refunds of a sale that are unanswered or approved. */
  function LiveRefunds(db: Db, sale: nat): set<nat> {
    set i | i in db.rows && db.rows[i].entry.originalLogId == Some(sale) &&
            (db.rows[i].responseCode == None || db.rows[i].responseCode == Some("00"))
  }

  /** No sale has two live refunds: counted. */
  lemma AtMostOneExactly(db: Db)
    ensures AtMostOne(db.rows) <==> forall sale :: |LiveRefunds(db, sale)| <= 1
  {
    if AtMostOne(db.rows) {
      forall sale ensures |LiveRefunds(db, sale)| <= 1 {
        LiveExactly(db, sale);
        hide Live;
        hide LiveRefunds;
        AtMostOneElement(LiveRefunds(db, sale));
      }
    }
    if forall sale :: |LiveRefunds(db, sale)| <= 1 {
      forall i: nat, j: nat, sale: nat | Live(db.rows, i, sale) && Live(db.rows, j, sale) ensures i == j {
        var live := LiveRefunds(db, sale);
        LiveExactly(db, sale);
        SubsetSize({i, j}, live);
      }
    }
  }

  lemma LiveExactly(db: Db, sale: nat)
    ensures forall i :: i in LiveRefunds(db, sale) <==> Live(db.rows, i, sale)
  {}

  /** Over any sequence of sale and refund runs that start safely, with any peer and any interleaving, no sale
      ever has two refunds that are approved or unanswered, neither in the committed tables nor with the queue
      folded in. */
  lemma NeverTwoRefunds(spec: Spec, start: World, turns: seq<Turn>, sale: nat)
    requires Fresh(start) && SafeStarts(spec, start, turns) && RunWorld(spec, start, turns).Some?
    ensures var log := RunWorld(spec, start, turns).value.g.log;
            |LiveRefunds(log.db, sale)| <= 1 && |LiveRefunds(Logical(log), sale)| <= 1
  {
    FreshOk(spec, start);
    HistoryOk(spec, start, turns);
    var log := RunWorld(spec, start, turns).value.g.log;
    hide RunWorld;
    hide Live;
    hide LiveRefunds;
    LogicalSound(log);
    assert AtMostOne(ApplyAll(log.db, (log.batch + log.queue)[..0]).rows);
    assert (log.batch + log.queue)[..0] == [];
    hide AtMostOne;
    AtMostOneExactly(log.db);
    AtMostOneExactly(Logical(log));
  }

  // ---------------------------------------------------------------- properties of every history

  predicate CurrentCoded(s: State, run: Work)
    requires run.Refunding?
  {
    run.current.Some? ==>
      var (name, r) := run.current.value;
      name in s.conns && r in s.conns[name].tasks && CodedEntry(s.conns[name].tasks[r].entry)
  }

  ghost predicate WorkCoded(s: State, work: Option<Work>) {
    work.Some? && work.value.Refunding? ==> CurrentCoded(s, work.value)
  }

  ghost predicate LogCoded(w: Writer) {
    Coded(w.db) && CodedOps(w.batch) && CodedOps(w.queue)
  }

  ghost predicate WorldCoded(w: World) {
    LogCoded(w.g.log) && WorkCoded(w.g.server, w.runner.work)
  }

  lemma CodedMove(g: Global, m: Move)
    requires Advance(g, m).Some? && LogCoded(g.log)
    requires m.Actor? && Next(g.server, m.a).value.1.Some? ==>
               var op := Next(g.server, m.a).value.1.value; op.AddRequestLog? ==> CodedEntry(op.entry)
    ensures LogCoded(Advance(g, m).value.log)
  {
    hide Next;
    hide CodedEntry;
    if m.CommitBatch? {
      AllCoded(g.log.db, g.log.batch);
      hide Coded;
    }
  }

  lemma WorkStaysCoded(g: Global, m: Move, work: Option<Work>)
    requires Advance(g, m).Some? && WorkCoded(g.server, work)
    ensures WorkCoded(Advance(g, m).value.server, work)
  {
    hide CodedEntry;
    if m.Actor? && m.a.On? {
      TasksKept(m.a.name, g.server.conns[m.a.name], g.server.open, m.a.step);
    }
    hide Do;
  }

  lemma CodedServe(spec: Spec, w: World, m: Move)
    requires WorldCoded(w) && TakeTurn(spec, w, Serve(m)).Some?
    ensures WorldCoded(TakeTurn(spec, w, Serve(m)).value)
  {
    if m.Actor? && Next(w.g.server, m.a).Some? && Next(w.g.server, m.a).value.1.Some? {
      OthersInsertNoRefund(w.g.server, m.a);
    }
    CodedMove(w.g, m);
    WorkStaysCoded(w.g, m, w.runner.work);
    hide Advance;
    hide LogCoded;
    hide WorkCoded;
  }

  lemma CodedRecord(spec: Spec, w: World)
    requires WorldCoded(w) && TakeTurn(spec, w, RecordRefund).Some?
    ensures WorldCoded(TakeTurn(spec, w, RecordRefund).value)
  {
    var (name, r) := w.runner.work.value.current.value;
    RecordedEntry(w.g.server, name, r);
    CodedMove(w.g, Actor(On(name, Record(r))));
    hide Advance;
    hide LogCoded;
    hide CodedEntry;
  }

  lemma CodedDraw(spec: Spec, w: World, t: Turn)
    requires WorldCoded(w) && TakeTurn(spec, w, t).Some? && t.DrawRefund?
    ensures WorldCoded(TakeTurn(spec, w, t).value)
  {
    var run := w.runner.work.value;
    var name := run.nodes[run.sent % |run.nodes|];
    var original := run.candidates[run.sent];
    var entry := RefundFor(spec, run.testId, t.now, t.stamp, t.reference, name, original).entry;
    RefundEntryNames(spec, run.testId, t.now, t.stamp, t.reference, name, original);
    hide RefundFor;
    DrawnTask(w.g, name, Task(entry, None, Drawn));
    hide LogCoded;
    hide Advance;
    hide CodedEntry;
  }

  lemma CodedTake(spec: Spec, w: World, t: Turn)
    requires WorldCoded(w) && TakeTurn(spec, w, t).Some?
    ensures WorldCoded(TakeTurn(spec, w, t).value)
  {
    if t.Serve? {
      CodedServe(spec, w, t.m);
    } else if t.RecordRefund? {
      CodedRecord(spec, w);
    } else if t.DrawRefund? {
      CodedDraw(spec, w, t);
    } else {
      hide LogCoded;
      hide RefundFor;
      hide Candidates;
    }
  }

  lemma {:induction false} CodedHistory(spec: Spec, start: World, turns: seq<Turn>)
    requires WorldCoded(start) && RunWorld(spec, start, turns).Some?
    ensures WorldCoded(RunWorld(spec, start, turns).value)
  {
    if turns != [] {
      CodedHistory(spec, start, turns[..|turns| - 1]);
      hide WorldCoded;
      CodedTake(spec, RunWorld(spec, start, turns[..|turns| - 1]).value, turns[|turns| - 1]);
    }
  }

  /** A refund is never refunded: whenever runs start, a refund's own row, committed or queued, is in no
      candidate list. */
  lemma NoRefundIsRefunded(spec: Spec, start: World, turns: seq<Turn>, sourceTestId: int, id: nat)
    requires WorldCoded(start) && RunWorld(spec, start, turns).Some?
    ensures var log := RunWorld(spec, start, turns).value.g.log;
            && (id in log.db.rows && log.db.rows[id].entry.originalLogId.Some? ==>
                  !Eligible(log.db.rows, sourceTestId, id))
            && (id in Logical(log).rows && Logical(log).rows[id].entry.originalLogId.Some? ==>
                  !Eligible(Logical(log).rows, sourceTestId, id))
  {
    CodedHistory(spec, start, turns);
    var log := RunWorld(spec, start, turns).value.g.log;
    hide RunWorld;
    AllCoded(log.db, log.batch + log.queue);
    hide Coded;
    hide Eligible;
    if id in log.db.rows && log.db.rows[id].entry.originalLogId.Some? {
      CodedNeverEligible(log.db, sourceTestId, id);
    }
    if id in Logical(log).rows && Logical(log).rows[id].entry.originalLogId.Some? {
      CodedNeverEligible(Logical(log), sourceTestId, id);
    }
  }

  lemma RunnerStays(spec: Spec, w: World, t: Turn)
    requires RunnerOk(w.runner) && TakeTurn(spec, w, t).Some?
    ensures RunnerOk(TakeTurn(spec, w, t).value.runner)
  {
    hide Advance;
    hide RefundFor;
    hide Candidates;
  }

  /** At most one test is reserved or running at any time, whatever happens. */
  lemma {:induction false} OneTestAtATime(spec: Spec, start: World, turns: seq<Turn>)
    requires RunnerOk(start.runner) && RunWorld(spec, start, turns).Some?
    ensures var r := RunWorld(spec, start, turns).value.runner;
            && RunnerOk(r)
            && (r.work.Some? ==> r.busy && r.holders == 0)
            && (r.holders > 0 ==> r.busy && r.holders == 1 && r.work.None?)
  {
    if turns != [] {
      OneTestAtATime(spec, start, turns[..|turns| - 1]);
      RunnerStays(spec, RunWorld(spec, start, turns[..|turns| - 1]).value, turns[|turns| - 1]);
      hide TakeTurn;
    }
  }
}
