/** Where an answered row comes from (network/server/iso_server.go): its request time is the stamp of a request
    with its reference and type, and its response time, code and authorisation are those of the response that
    was matched with that request. */
module Provenance {
  import opened Wrappers
  import opened Matching
  import opened Log
  import opened Protocol
  import opened LoggedRequests
  import opened Pipeline

  lemma {:induction false} PrefixRuns(s: State, db: Db, actions: seq<Action>, k: nat)
    requires Run(s, db, actions).Some? && k <= |actions|
    ensures Run(s, db, actions[..k]).Some?
  {
    if k == |actions| {
      assert actions[..k] == actions;
    } else {
      PrefixRuns(s, db, actions[..|actions| - 1], k);
      assert actions[..|actions| - 1][..k] == actions[..k];
    }
  }

  /** Connection `name` before action number k, which is a step on it. */
  ghost predicate StepAt(s: State, db: Db, actions: seq<Action>, k: nat, name: string, a: Step, c: Conn) {
    && k < |actions| && actions[k] == On(name, a) && Run(s, db, actions[..k]).Some?
    && name in Run(s, db, actions[..k]).value.0.conns && Run(s, db, actions[..k]).value.0.conns[name] == c
  }

  lemma StepAtLonger(s: State, db: Db, actions: seq<Action>, n: nat, k: nat, name: string, a: Step, c: Conn)
    requires n <= |actions| && StepAt(s, db, actions[..n], k, name, a, c)
    ensures StepAt(s, db, actions, k, name, a, c)
  {
    assert actions[..n][..k] == actions[..k] && actions[..n][k] == actions[k];
  }

  lemma LastStep(s: State, db: Db, actions: seq<Action>, name: string, a: Step)
    requires Run(s, db, actions).Some? && actions != [] && actions[|actions| - 1] == On(name, a)
    ensures var before := Run(s, db, actions[..|actions| - 1]);
            && before.Some? && name in before.value.0.conns
            && StepAt(s, db, actions, |actions| - 1, name, a, before.value.0.conns[name])
            && Do(name, before.value.0.conns[name], before.value.0.open, a).Some?
            && Run(s, db, actions).value.0.conns ==
               before.value.0.conns[name := Do(name, before.value.0.conns[name], before.value.0.open, a).value.conn]
            && Run(s, db, actions).value.1 ==
               ApplyOpt(before.value.1, Do(name, before.value.0.conns[name], before.value.0.open, a).value.op)
  {
    hide Do;
    hide ApplyOpt;
  }

  /** The other actions connect or close; they change no connection and no table. */
  lemma OtherAction(s: State, db: Db, actions: seq<Action>)
    requires Run(s, db, actions).Some? && actions != [] && !actions[|actions| - 1].On?
    ensures var before := Run(s, db, actions[..|actions| - 1]);
            && before.Some? && Run(s, db, actions).value.1 == before.value.1
            && (forall n :: n in Run(s, db, actions).value.0.conns ==>
                  if n in before.value.0.conns then
                    Run(s, db, actions).value.0.conns[n] == before.value.0.conns[n]
                  else Run(s, db, actions).value.0.conns[n] == NEW_CONN)
  {}

  // ---------------------------------------------------------------- sentTimes come from stamps

  /** The write loop stamps the message it holds under this key. */
  predicate StampsKey(c: Conn, a: Step, key: string) {
    && a.Stamp? && c.held.Some? && c.held.value.reference != "" && 4 <= |c.held.value.mti|
    && MatchKey(c.held.value.mti, c.held.value.reference) == key
  }

  predicate Stamps(c: Conn, a: Step, key: string, x: SentRequest) {
    StampsKey(c, a, key) && a.now == x.at && c.held.value.mti == x.mti
  }

  /** Between two actions no step on the connection stamps this key. */
  ghost predicate Unstamped(s: State, db: Db, actions: seq<Action>, i: nat, j: nat, name: string, key: string) {
    forall n: nat, a, c :: i < n < j && StepAt(s, db, actions, n, name, a, c) ==> !StampsKey(c, a, key)
  }

  lemma StepAtShorter(s: State, db: Db, actions: seq<Action>, j: nat, n: nat, name: string, a: Step, c: Conn)
    requires n < j <= |actions| && StepAt(s, db, actions, n, name, a, c)
    ensures StepAt(s, db, actions[..j], n, name, a, c)
  {
    assert actions[..j][..n] == actions[..n] && actions[..j][n] == actions[n];
  }

  lemma UnstampedLonger(s: State, db: Db, actions: seq<Action>, i: nat, j: nat, name: string, key: string)
    requires j <= |actions| && Unstamped(s, db, actions[..j], i, j, name, key)
    ensures Unstamped(s, db, actions, i, j, name, key)
  {
    hide StampsKey;
    forall n: nat, a, c | i < n < j && StepAt(s, db, actions, n, name, a, c) ensures !StampsKey(c, a, key) {
      StepAtShorter(s, db, actions, j, n, name, a, c);
    }
    hide StepAt;
  }

  /** One more action, which does not stamp the key. */
  lemma UnstampedNext(s: State, db: Db, actions: seq<Action>, i: nat, name: string, key: string)
    requires actions != [] && Unstamped(s, db, actions[..|actions| - 1], i, |actions| - 1, name, key)
    requires forall a, c :: StepAt(s, db, actions, |actions| - 1, name, a, c) ==> !StampsKey(c, a, key)
    ensures Unstamped(s, db, actions, i, |actions|, name, key)
  {
    UnstampedLonger(s, db, actions, i, |actions| - 1, name, key);
    hide StampsKey;
    hide StepAt;
  }

  /** A stamp is in sentTimes right after it. */
  lemma StampIsSent(name: string, c: Conn, open: bool, a: Step, key: string)
    requires Do(name, c, open, a).Some? && StampsKey(c, a, key)
    ensures key in Do(name, c, open, a).value.conn.sent
    ensures Stamps(c, a, key, Do(name, c, open, a).value.conn.sent[key])
  {
    hide MatchKey;
  }

  lemma OnlyStampsSend(name: string, c: Conn, open: bool, a: Step, key: string)
    requires Do(name, c, open, a).Some? && key in Do(name, c, open, a).value.conn.sent
    ensures (key in c.sent && c.sent[key] == Do(name, c, open, a).value.conn.sent[key]) ||
            Stamps(c, a, key, Do(name, c, open, a).value.conn.sent[key])
  {
    hide MatchKey;
  }

  /** The last step of a run that ends with key in sentTimes: it stamps the key with the final value, or leaves
      the entry as it was and stamps another key or none. */
  lemma LastStamp(s: State, db: Db, actions: seq<Action>, name: string, key: string) returns (b: State)
    requires Run(s, db, actions).Some? && actions != []
    requires name in Run(s, db, actions).value.0.conns && key in Run(s, db, actions).value.0.conns[name].sent
    ensures Run(s, db, actions[..|actions| - 1]).Some? && b == Run(s, db, actions[..|actions| - 1]).value.0
    ensures var x := Run(s, db, actions).value.0.conns[name].sent[key];
            var last := actions[|actions| - 1];
            if last.On? && last.name == name && name in b.conns && Stamps(b.conns[name], last.step, key, x) then
              StepAt(s, db, actions, |actions| - 1, name, last.step, b.conns[name])
            else
              && name in b.conns && key in b.conns[name].sent && b.conns[name].sent[key] == x
              && forall a, c :: StepAt(s, db, actions, |actions| - 1, name, a, c) ==> !StampsKey(c, a, key)
  {
    hide Do;
    hide StampsKey;
    hide Stamps;
    var last := actions[|actions| - 1];
    if last.On? {
      LastStep(s, db, actions, last.name, last.step);
      b := Run(s, db, actions[..|actions| - 1]).value.0;
      if last.name == name {
        OnlyStampsSend(name, b.conns[name], b.open, last.step, key);
        if StampsKey(b.conns[name], last.step, key) {
          StampIsSent(name, b.conns[name], b.open, last.step, key);
        }
      }
    } else {
      OtherAction(s, db, actions);
      b := Run(s, db, actions[..|actions| - 1]).value.0;
    }
  }

  /** What is in sentTimes was stamped, and its key has not been stamped since. */
  lemma {:induction false} SentFromStamp(s: State, db: Db, actions: seq<Action>, name: string, key: string)
    returns (k: nat, a: Step, c: Conn)
    requires s.conns == map[] && Run(s, db, actions).Some?
    requires name in Run(s, db, actions).value.0.conns && key in Run(s, db, actions).value.0.conns[name].sent
    ensures StepAt(s, db, actions, k, name, a, c) && Unstamped(s, db, actions, k, |actions|, name, key)
    ensures Stamps(c, a, key, Run(s, db, actions).value.0.conns[name].sent[key])
  {
    hide Do;
    hide Stamps;
    hide StampsKey;
    hide StepAt;
    k, a, c := 0, TakeNext, NEW_CONN;
    if actions == [] {
      assert false;
    } else {
      var n := |actions| - 1;
      var last := actions[n];
      var b := LastStamp(s, db, actions, name, key);
      if last.On? && last.name == name && name in b.conns &&
         Stamps(b.conns[name], last.step, key, Run(s, db, actions).value.0.conns[name].sent[key]) {
        k, a, c := n, last.step, b.conns[name];
      } else {
        k, a, c := SentFromStamp(s, db, actions[..n], name, key);
        StepAtLonger(s, db, actions, n, k, name, a, c);
        UnstampedNext(s, db, actions, k, name, key);
        hide Unstamped;
      }
    }
  }

  // ---------------------------------------------------------------- matches come from responses

  predicate Takes(c: Conn, a: Step, rd: Reader) {
    && rd.Matched? && a.Receive? && |a.mti| == 4
    && a == Receive(a.mti, rd.reference, rd.code, rd.auth, rd.receivedAt)
    && MatchKey(a.mti, rd.reference) in c.sent && c.sent[MatchKey(a.mti, rd.reference)] == rd.sent
  }

  lemma OnlyResponsesMatch(name: string, c: Conn, open: bool, a: Step)
    requires Do(name, c, open, a).Some? && Do(name, c, open, a).value.conn.reader.Matched?
    ensures c.reader == Do(name, c, open, a).value.conn.reader ||
            Takes(c, a, Do(name, c, open, a).value.conn.reader)
  {
    hide MatchKey;
    hide RESPONSE_MTIS;
  }

  lemma {:induction false} MatchedFromResponse(s: State, db: Db, actions: seq<Action>, name: string)
    returns (k: nat, a: Step, c: Conn)
    requires s.conns == map[] && Run(s, db, actions).Some?
    requires name in Run(s, db, actions).value.0.conns && Run(s, db, actions).value.0.conns[name].reader.Matched?
    ensures StepAt(s, db, actions, k, name, a, c)
    ensures Takes(c, a, Run(s, db, actions).value.0.conns[name].reader)
  {
    hide Do;
    hide Takes;
    hide StepAt;
    k, a, c := 0, TakeNext, NEW_CONN;
    if actions == [] {
      assert false;
    } else {
      var n := |actions| - 1;
      var last := actions[n];
      if last.On? {
        LastStep(s, db, actions, last.name, last.step);
        var b := Run(s, db, actions[..n]).value.0;
        if last.name == name {
          OnlyResponsesMatch(name, b.conns[name], b.open, last.step);
        }
        if last.name == name && Takes(b.conns[name], last.step, Run(s, db, actions).value.0.conns[name].reader) {
          k, a, c := n, last.step, b.conns[name];
        } else {
          k, a, c := MatchedFromResponse(s, db, actions[..n], name);
          StepAtLonger(s, db, actions, n, k, name, a, c);
        }
      } else {
        OtherAction(s, db, actions);
        k, a, c := MatchedFromResponse(s, db, actions[..n], name);
        StepAtLonger(s, db, actions, n, k, name, a, c);
      }
    }
  }

  // ---------------------------------------------------------------- answers come from updates

  /** The row is what the update of this match leaves. */
  predicate Records(name: string, rd: Reader, row: Row) {
    && rd.Matched? && row.entry.reference == rd.reference && row.entry.connectionId == name
    && row.entry.mti == Some(rd.sent.mti) && row.entry.requestTime == rd.sent.at
    && row.responseTime == Some(rd.receivedAt) && row.timeTaken == Some(Millis(rd.receivedAt - rd.sent.at))
    && row.responseCode == Some(rd.code) && row.authId == Some(rd.auth)
  }

  predicate AnsweredIn(db: Db, id: nat) {
    id in db.rows && db.rows[id].timeTaken.Some?
  }

  lemma OnlyUpdatesAnswer(name: string, c: Conn, open: bool, a: Step, db: Db, id: nat)
    requires Do(name, c, open, a).Some? && !AnsweredIn(db, id)
    requires AnsweredIn(ApplyOpt(db, Do(name, c, open, a).value.op), id)
    ensures a.Update? && Records(name, c.reader, ApplyOpt(db, Do(name, c, open, a).value.op).rows[id])
  {
    UpdateOps(name, c, open, a);
    hide Do;
  }

  lemma UpdateOps(name: string, c: Conn, open: bool, a: Step)
    requires Do(name, c, open, a).Some?
    ensures var op := Do(name, c, open, a).value.op;
            op.Some? && op.value.UpdateResponseTime? ==>
              && a.Update? && c.reader.Matched?
              && op.value == UpdateResponseTime(c.reader.reference, name, c.reader.sent.mti, c.reader.sent.at,
                                                c.reader.receivedAt, c.reader.code, c.reader.auth)
  {
    hide MatchKey;
    hide RESPONSE_MTIS;
  }

  lemma {:induction false} AnswerFromUpdate(s: State, db: Db, actions: seq<Action>, id: nat)
    returns (k: nat, name: string, c: Conn)
    requires Initial(s, db) && Run(s, db, actions).Some?
    requires !AnsweredIn(db, id) && AnsweredIn(Run(s, db, actions).value.1, id)
    ensures StepAt(s, db, actions, k, name, Update, c)
    ensures Records(name, c.reader, Run(s, db, actions).value.1.rows[id])
  {
    hide Do;
    hide Records;
    hide StepAt;
    hide ApplyOpt;
    k, name, c := 0, "", NEW_CONN;
    if actions == [] {
      assert false;
    } else {
      var n := |actions| - 1;
      var last := actions[n];
      PrefixRuns(s, db, actions, n);
      var b := Run(s, db, actions[..n]).value;
      if AnsweredIn(b.1, id) {
        k, name, c := AnswerFromUpdate(s, db, actions[..n], id);
        StepAtLonger(s, db, actions, n, k, name, Update, c);
        RowStays(s, db, actions, id);
      } else if last.On? {
        LastStep(s, db, actions, last.name, last.step);
        OnlyUpdatesAnswer(last.name, b.0.conns[last.name], b.0.open, last.step, b.1, id);
        k, name, c := n, last.name, b.0.conns[last.name];
      } else {
        OtherAction(s, db, actions);
        assert false;
      }
    }
  }

  lemma RowStays(s: State, db: Db, actions: seq<Action>, id: nat)
    requires Initial(s, db) && actions != [] && Run(s, db, actions).Some?
    requires Run(s, db, actions[..|actions| - 1]).Some?
    requires AnsweredIn(Run(s, db, actions[..|actions| - 1]).value.1, id)
    ensures var before := Run(s, db, actions[..|actions| - 1]).value.1;
            id in Run(s, db, actions).value.1.rows && Run(s, db, actions).value.1.rows[id] == before.rows[id]
  {
    var before := Run(s, db, actions[..|actions| - 1]).value;
    RunKeeps(s, db, actions[..|actions| - 1]);
    assert KeysBelow(before.1);
    hide Inv;
    hide KeysBelow;
    var e := Next(before.0, actions[|actions| - 1]).value;
    hide Next;
    if e.1.Some? {
      AnsweredRowsFinal(before.1, e.1.value, id);
      hide Apply;
    }
  }

  /** The history of a row answered since the start: first a request with the row's reference and type was
      stamped, at the row's request time; then, with that stamp still the last one under its key, a response
      with that reference, the row's code and the row's authorisation was received, at the row's response time,
      and took it out of sentTimes; then the row was updated. */
  ghost predicate Explained(s: State, db: Db, actions: seq<Action>, row: Row) {
    exists i: nat, j: nat, k: nat, name, stamp, response, c, d, e ::
      && i < j < k && StepAt(s, db, actions, i, name, stamp, c) && StepAt(s, db, actions, j, name, response, d)
      && StepAt(s, db, actions, k, name, Update, e) && Links(name, row, stamp, c, response, d)
      && Unstamped(s, db, actions, i, j, name, MatchKey(row.entry.mti.value, row.entry.reference))
  }

  predicate Links(name: string, row: Row, stamp: Step, c: Conn, response: Step, d: Conn)
    ensures Links(name, row, stamp, c, response, d) ==> row.entry.mti.Some? && 4 <= |row.entry.mti.value|
  {
    && row.entry.connectionId == name && row.entry.mti.Some? && 4 <= |row.entry.mti.value|
    && stamp == Stamp(row.entry.requestTime)
    && c.held.Some? && c.held.value.mti == row.entry.mti.value && c.held.value.reference == row.entry.reference
    && response.Receive? && response.reference == row.entry.reference && |response.mti| == 4
    && (var key := MatchKey(row.entry.mti.value, row.entry.reference);
        && MatchKey(response.mti, row.entry.reference) == key
        && key in d.sent && d.sent[key] == SentRequest(row.entry.mti.value, row.entry.requestTime))
    && row.responseCode == Some(response.code) && row.authId == Some(response.auth)
    && row.responseTime == Some(response.now)
    && row.timeTaken == Some(Millis(response.now - row.entry.requestTime))
  }

  lemma LinksHold(name: string, row: Row, stamp: Step, c: Conn, response: Step, d: Conn, rd: Reader)
    requires Records(name, rd, row) && Takes(d, response, rd)
    requires Stamps(c, stamp, MatchKey(response.mti, rd.reference), rd.sent)
    ensures Links(name, row, stamp, c, response, d)
  {
    var q := c.held.value.reference;
    assert MatchKey(rd.sent.mti, q)[5..] == q;
    assert MatchKey(response.mti, rd.reference)[5..] == rd.reference;
    hide MatchKey;
  }

  /** Every answered row tells the truth about its request and its response. */
  lemma AnsweredRowsExplained(s: State, db: Db, actions: seq<Action>, id: nat)
    requires Initial(s, db) && Run(s, db, actions).Some?
    requires !AnsweredIn(db, id) && AnsweredIn(Run(s, db, actions).value.1, id)
    ensures Explained(s, db, actions, Run(s, db, actions).value.1.rows[id])
  {
    hide Do;
    hide MatchKey;
    hide Unstamped;
    hide StampsKey;
    var row := Run(s, db, actions).value.1.rows[id];
    var k, name, e := AnswerFromUpdate(s, db, actions, id);
    var j, response, d := MatchedFromResponse(s, db, actions[..k], name);
    var key := MatchKey(response.mti, e.reader.reference);
    var i, stamp, c := SentFromStamp(s, db, actions[..k][..j], name, key);
    LinksHold(name, row, stamp, c, response, d, e.reader);
    hide Run;
    StepAtLonger(s, db, actions[..k], j, i, name, stamp, c);
    StepAtLonger(s, db, actions, k, i, name, stamp, c);
    StepAtLonger(s, db, actions, k, j, name, response, d);
    UnstampedLonger(s, db, actions[..k], i, j, name, key);
    assert actions[..k][..j] == actions[..j];
    UnstampedLonger(s, db, actions, i, j, name, key);
    assert key == MatchKey(row.entry.mti.value, row.entry.reference);
    hide StepAt;
    hide Links;
  }

  /** The same of the batched server, with the queue folded in. */
  lemma LoggedRowsExplained(s: State, db: Db, moves: seq<Move>, id: nat)
    requires Initial(s, db) && RunBatched(Global(s, Writer(db, [], [])), moves).Some?
    requires var log := RunBatched(Global(s, Writer(db, [], [])), moves).value.log;
             !AnsweredIn(db, id) && AnsweredIn(Logical(log), id)
    ensures var log := RunBatched(Global(s, Writer(db, [], [])), moves).value.log;
            Explained(s, db, Actions(moves), Logical(log).rows[id])
  {
    var start := Global(s, Writer(db, [], []));
    BatchingInvisible(start, moves);
    assert start.log.batch + start.log.queue == [];
    assert Logical(start.log) == db;
    hide RunBatched;
    hide Run;
    hide Explained;
    AnsweredRowsExplained(s, db, Actions(moves), id);
  }
}
