/** Runs of steps on one connection, with the statements they queue. */
module Paths {
  import opened Wrappers
  import opened Log
  import opened Protocol

  datatype Path = Path(conn: Conn, ops: seq<Op>)

  function Queued(op: Option<Op>): seq<Op> {
    if op.Some? then [op.value] else []
  }

  /** The steps one after another on one connection, with the statements they queue. */
  function Follow(name: string, c: Conn, open: bool, steps: seq<Step>): Option<Path>
    decreases |steps|
  {
    if steps == [] then Some(Path(c, []))
    else
      match Do(name, c, open, steps[0])
      case None => None
      case Some(e) =>
        match Follow(name, e.conn, open, steps[1..])
        case None => None
        case Some(rest) => Some(Path(rest.conn, Queued(e.op) + rest.ops))
  }

  lemma Then(name: string, c: Conn, open: bool, step: Step, steps: seq<Step>)
    requires Do(name, c, open, step).Some?
    requires Follow(name, Do(name, c, open, step).value.conn, open, steps).Some?
    ensures var e := Do(name, c, open, step).value;
            var rest := Follow(name, e.conn, open, steps).value;
            Follow(name, c, open, [step] + steps) == Some(Path(rest.conn, Queued(e.op) + rest.ops))
  {
    hide Do;
    hide Queued;
    assert ([step] + steps)[1..] == steps;
  }

  lemma {:induction false} FollowConcat(name: string, c: Conn, open: bool, a: seq<Step>, b: seq<Step>)
    requires Follow(name, c, open, a).Some? && Follow(name, Follow(name, c, open, a).value.conn, open, b).Some?
    ensures var p := Follow(name, c, open, a).value;
            var q := Follow(name, p.conn, open, b).value;
            Follow(name, c, open, a + b) == Some(Path(q.conn, p.ops + q.ops))
    decreases |a|
  {
    hide Do;
    hide Queued;
    if a == [] {
      assert a + b == b;
      var q := Follow(name, c, open, b).value;
      assert [] + q.ops == q.ops;
    } else {
      var e := Do(name, c, open, a[0]).value;
      FollowConcat(name, e.conn, open, a[1..], b);
      assert (a + b)[1..] == a[1..] + b;
      var p := Follow(name, e.conn, open, a[1..]).value;
      Associative(Queued(e.op), p.ops, Follow(name, p.conn, open, b).value.ops);
    }
  }

  lemma Associative(a: seq<Op>, b: seq<Op>, c: seq<Op>)
    ensures a + b + c == a + (b + c)
  {}

  /** One more step at the end. */
  lemma Append(name: string, c: Conn, open: bool, steps: seq<Step>, step: Step)
    requires Follow(name, c, open, steps).Some?
    requires Do(name, Follow(name, c, open, steps).value.conn, open, step).Some?
    ensures var p := Follow(name, c, open, steps).value;
            var e := Do(name, p.conn, open, step).value;
            Follow(name, c, open, steps + [step]) == Some(Path(e.conn, p.ops + Queued(e.op)))
  {
    var p := Follow(name, c, open, steps).value;
    var e := Do(name, p.conn, open, step).value;
    hide Do;
    hide Queued;
    assert Follow(name, e.conn, open, []) == Some(Path(e.conn, []));
    Then(name, p.conn, open, step, []);
    assert [step] + [] == [step] && Queued(e.op) + [] == Queued(e.op);
    FollowConcat(name, c, open, steps, [step]);
  }
}
