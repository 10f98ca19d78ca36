/** Pacing and fairness (network/server/iso_server.go, network/server/refund.go): how many steps a run has made
    at a tick, and which node each step goes to. Elapsed times are whole nanoseconds. */
module Pacing {
  import opened Numerals
  import opened Outgoing

  const SECOND := 1_000_000_000

  // ---------------------------------------------------------------- one step

  /** nodeTargets: the nodes one step sends to, and the position after it. */
  function StepTargets(roundRobin: bool, conns: seq<string>, next: nat): seq<string> {
    if !roundRobin || conns == [] then conns else [conns[next % |conns|]]
  }

  function NextAfter(roundRobin: bool, conns: seq<string>, next: nat): nat {
    if !roundRobin || conns == [] then next else next + 1
  }

  class Rotation {
    var next: nat

    constructor ()
      ensures next == 0
    {
      next := 0;
    }

    method NodeTargets(roundRobin: bool, conns: seq<string>) returns (targets: seq<string>)
      modifies this
      ensures targets == StepTargets(roundRobin, conns, old(next))
      ensures next == NextAfter(roundRobin, conns, old(next))
    {
      if !roundRobin || |conns| == 0 {
        return conns;
      }
      var i := next % |conns|;
      next := next + 1;
      targets := conns[i..i + 1];
    }
  }

  /** Everything `steps` steps send while the connected nodes stay the same. */
  function StepsTargets(roundRobin: bool, conns: seq<string>, next: nat, steps: nat): seq<string> {
    if steps == 0 then []
    else
      StepsTargets(roundRobin, conns, next, steps - 1) +
      StepTargets(roundRobin, conns, next + if roundRobin then steps - 1 else 0)
  }

  /** The position after `steps` steps with these nodes. */
  function NextAfterSteps(roundRobin: bool, conns: seq<string>, next: nat, steps: nat): nat {
    if roundRobin && conns != [] then next + steps else next
  }

  lemma {:induction false} StepsTargetsSplit(roundRobin: bool, conns: seq<string>, next: nat, a: nat, b: nat)
    ensures StepsTargets(roundRobin, conns, next, a + b) ==
            StepsTargets(roundRobin, conns, next, a) +
            StepsTargets(roundRobin, conns, next + (if roundRobin then a else 0), b)
    decreases b
  {
    hide StepTargets;
    if b == 0 {
      assert StepsTargets(roundRobin, conns, next + (if roundRobin then a else 0), 0) == [];
    } else {
      StepsTargetsSplit(roundRobin, conns, next, a, b - 1);
    }
  }

  // ---------------------------------------------------------------- a run

  /** What the loop is woken by: a tick, with the time since the start and the nodes connected then, or the
      end of the test. */
  datatype Event = Tick(elapsed: nat, conns: seq<string>) | Done

  datatype Progress = Progress(jobs: seq<string>, steps: nat, next: nat)

  /** int(elapsed seconds * rate) */
  function Due(elapsed: nat, rate: nat): nat {
    elapsed * rate / SECOND
  }

  /** The number due is the largest that fits in the elapsed nanoseconds at this rate a second. */
  lemma DueExact(elapsed: nat, rate: nat)
    ensures Due(elapsed, rate) * 1_000_000_000 <= elapsed * rate < (Due(elapsed, rate) + 1) * 1_000_000_000
  {
    WholeSeconds(elapsed * rate);
  }

  lemma WholeSeconds(n: nat)
    ensures n / SECOND * 1_000_000_000 <= n < (n / SECOND + 1) * 1_000_000_000
  {}

  /** What a tick adds: the steps due and not yet made. */
  function Advance(p: Progress, roundRobin: bool, rate: nat, tick: Event): Progress
    requires tick.Tick?
  {
    var due := Due(tick.elapsed, rate);
    if due <= p.steps then p
    else
      var k := due - p.steps;
      Progress(p.jobs + StepsTargets(roundRobin, tick.conns, p.next, k), due,
               NextAfterSteps(roundRobin, tick.conns, p.next, k))
  }

  predicate AllTicks(ticks: seq<Event>) {
    forall i :: 0 <= i < |ticks| ==> ticks[i].Tick?
  }

  function Run(roundRobin: bool, rate: nat, ticks: seq<Event>): Progress
    requires AllTicks(ticks)
  {
    if ticks == [] then Progress([], 0, 0)
    else Advance(Run(roundRobin, rate, ticks[..|ticks| - 1]), roundRobin, rate, ticks[|ticks| - 1])
  }

  /** The ticks before the end of the test. */
  function TicksOf(events: seq<Event>): (ticks: seq<Event>)
    ensures AllTicks(ticks)
  {
    if events == [] || events[0].Done? then [] else [events[0]] + TicksOf(events[1..])
  }

  lemma NextTick(roundRobin: bool, rate: nat, ticks: seq<Event>, tick: Event)
    requires AllTicks(ticks) && tick.Tick?
    ensures AllTicks(ticks + [tick])
    ensures Run(roundRobin, rate, ticks + [tick]) == Advance(Run(roundRobin, rate, ticks), roundRobin, rate, tick)
  {
    assert (ticks + [tick])[..|ticks|] == ticks;
  }

  /** The steps one tick makes. The workers take `room` more jobs before the deadline; a job offered after
      that cuts the run short. */
  method MakeSteps(rotation: Rotation, roundRobin: bool, conns: seq<string>, before: nat, due: nat, room: nat)
    returns (jobs: seq<string>, steps: nat, cut: bool)
    requires before < due
    modifies rotation
    ensures var all := StepsTargets(roundRobin, conns, old(rotation.next), due - before);
            if cut then room < |all| && jobs == all[..room] && steps < due
            else |all| <= room && jobs == all && steps == due
    ensures !cut ==> rotation.next == NextAfterSteps(roundRobin, conns, old(rotation.next), due - before)
  {
    hide StepsTargets;
    hide StepTargets;
    ghost var next := rotation.next;
    ghost var all := StepsTargets(roundRobin, conns, next, due - before);
    jobs, steps, cut := [], before, false;
    NoSteps(roundRobin, conns, next);
    while steps < due
      invariant before <= steps <= due && |jobs| <= room
      invariant jobs == StepsTargets(roundRobin, conns, next, steps - before)
      invariant rotation.next == NextAfterSteps(roundRobin, conns, next, steps - before)
    {
      ghost var made := jobs;
      StepAdds(roundRobin, conns, next, steps - before, due - before);
      var targets := rotation.NodeTargets(roundRobin, conns);
      var j := 0;
      while j < |targets|
        invariant 0 <= j <= |targets| && jobs == made + targets[..j] && |jobs| <= room
      {
        if |jobs| == room {
          CutShort(made, targets, j, all);
          return jobs, steps, true;
        }
        jobs := jobs + [targets[j]];
        j := j + 1;
      }
      assert targets[..|targets|] == targets;
      steps := steps + 1;
    }
  }

  lemma NoSteps(roundRobin: bool, conns: seq<string>, next: nat)
    ensures StepsTargets(roundRobin, conns, next, 0) == []
  {}

  /** RunStress with its loop variables. The workers take `room` jobs before the deadline. */
  method RunStress(testTimeSecs: int, requestPerSecond: int, roundRobin: bool, events: seq<Event>, room: nat)
    returns (jobs: seq<string>, steps: nat, count: nat)
    ensures testTimeSecs <= 0 || requestPerSecond <= 0 ==> jobs == [] && steps == 0
    ensures testTimeSecs > 0 && requestPerSecond > 0 ==>
              var run := Run(roundRobin, requestPerSecond, TicksOf(events));
              && (|run.jobs| <= room ==>
                    jobs == run.jobs && steps == run.steps && Paced(steps, TicksOf(events), requestPerSecond))
              && (|run.jobs| > room ==> jobs == run.jobs[..room] && steps <= run.steps)
    ensures count == |jobs|
  {
    hide StepsTargets;
    hide Due;
    hide Run;
    hide Paced;
    jobs, steps, count := [], 0, 0;
    if testTimeSecs <= 0 || requestPerSecond <= 0 {
      return;
    }
    var rate: nat := requestPerSecond;
    var rotation := new Rotation();
    var i := 0;
    NoTicks(roundRobin, rate, events);
    while i < |events| && events[i].Tick?
      invariant 0 <= i <= |events| && fresh(rotation)
      invariant AllTicks(events[..i]) && TicksOf(events) == events[..i] + TicksOf(events[i..])
      invariant Progress(jobs, steps, rotation.next) == Run(roundRobin, rate, events[..i])
      invariant count == |jobs| <= room
    {
      var due := Due(events[i].elapsed, rate);
      NextTickOf(roundRobin, rate, events, i);
      RunGrows(roundRobin, rate, events, i + 1);
      if steps < due {
        var more, reached, cut := MakeSteps(rotation, roundRobin, events[i].conns, steps, due, room - |jobs|);
        ghost var made := jobs;
        jobs, steps, count := jobs + more, reached, count + |more|;
        if cut {
          ghost var run := Run(roundRobin, rate, TicksOf(events));
          Shortened(made, more, Run(roundRobin, rate, events[..i + 1]).jobs, run.jobs, room);
          return;
        }
      }
      i := i + 1;
    }
    NoMoreTicks(events[i..]);
    assert TicksOf(events) == events[..i];
    RunPaced(roundRobin, rate, TicksOf(events));
  }

  lemma Shortened(made: seq<string>, more: seq<string>, tick: seq<string>, all: seq<string>, room: nat)
    requires |made| + |more| == room < |tick| && made + more <= tick && tick <= all
    ensures room < |all| && made + more == all[..room]
  {}

  lemma NoTicks(roundRobin: bool, rate: nat, events: seq<Event>)
    ensures events[..0] == [] && events[0..] == events && events[..0] + TicksOf(events[0..]) == TicksOf(events)
    ensures Run(roundRobin, rate, events[..0]) == Progress([], 0, 0)
  {}

  lemma NextTickOf(roundRobin: bool, rate: nat, events: seq<Event>, i: nat)
    requires i < |events| && events[i].Tick? && AllTicks(events[..i])
    requires TicksOf(events) == events[..i] + TicksOf(events[i..])
    ensures AllTicks(events[..i + 1]) && TicksOf(events) == events[..i + 1] + TicksOf(events[i + 1..])
    ensures Run(roundRobin, rate, events[..i + 1]) ==
            Advance(Run(roundRobin, rate, events[..i]), roundRobin, rate, events[i])
  {
    LaterTicks(events, i);
    NextTick(roundRobin, rate, events[..i], events[i]);
    assert events[..i + 1] == events[..i] + [events[i]];
    hide Run;
    hide Advance;
  }

  lemma NoMoreTicks(events: seq<Event>)
    requires events == [] || events[0].Done?
    ensures TicksOf(events) == []
  {}

  lemma LaterTicks(events: seq<Event>, i: nat)
    requires i < |events| && events[i].Tick?
    ensures TicksOf(events[i..]) == [events[i]] + TicksOf(events[i + 1..])
  {
    assert events[i..][1..] == events[i + 1..];
  }

  /** One more step, and the steps still to come after it. */
  lemma StepAdds(roundRobin: bool, conns: seq<string>, next: nat, done: nat, k: nat)
    requires done < k
    ensures var now := StepTargets(roundRobin, conns, NextAfterSteps(roundRobin, conns, next, done));
            && StepsTargets(roundRobin, conns, next, done + 1) == StepsTargets(roundRobin, conns, next, done) + now
            && StepsTargets(roundRobin, conns, next, done) + now <= StepsTargets(roundRobin, conns, next, k)
  {
    StepsTargetsSplit(roundRobin, conns, next, done + 1, k - done - 1);
  }

  lemma CutShort(made: seq<string>, targets: seq<string>, j: nat, all: seq<string>)
    requires j < |targets| && made + targets <= all
    ensures var room := |made + targets[..j]|; room < |all| && made + targets[..j] == all[..room]
  {
    assert made + targets[..j] == (made + targets)[..|made| + j];
  }

  /** Later ticks only add jobs and steps. */
  lemma {:induction false} RunGrows(roundRobin: bool, rate: nat, events: seq<Event>, i: nat)
    requires i <= |events| && AllTicks(events[..i]) && TicksOf(events) == events[..i] + TicksOf(events[i..])
    ensures Run(roundRobin, rate, events[..i]).jobs <= Run(roundRobin, rate, TicksOf(events)).jobs
    ensures Run(roundRobin, rate, events[..i]).steps <= Run(roundRobin, rate, TicksOf(events)).steps
    decreases |events| - i
  {
    hide StepsTargets;
    hide Due;
    hide Run;
    if i == |events| || events[i].Done? {
      NoMoreTicks(events[i..]);
      assert TicksOf(events) == events[..i];
    } else {
      NextTickOf(roundRobin, rate, events, i);
      RunGrows(roundRobin, rate, events, i + 1);
    }
  }

  // ---------------------------------------------------------------- pacing

  lemma DueGrows(a: nat, b: nat, rate: nat)
    requires a <= b
    ensures Due(a, rate) <= Due(b, rate)
  {
    Scale(a, b, rate);
    Quotient(a * rate, b * rate);
  }

  lemma Quotient(a: nat, b: nat)
    requires a <= b
    ensures a / SECOND <= b / SECOND
  {}

  /** Time does not run backwards. */
  predicate InOrder(ticks: seq<Event>)
    requires AllTicks(ticks)
  {
    forall i, j :: 0 <= i <= j < |ticks| ==> ticks[i].elapsed <= ticks[j].elapsed
  }

  /** No tick saw a further step due, and some tick saw as many due as were made. */
  ghost predicate Paced(steps: nat, ticks: seq<Event>, rate: nat)
    requires AllTicks(ticks)
  {
    && (forall i :: 0 <= i < |ticks| ==> ticks[i].elapsed * rate < (steps + 1) * 1_000_000_000)
    && (steps > 0 ==> exists i :: 0 <= i < |ticks| && steps * 1_000_000_000 <= ticks[i].elapsed * rate)
  }

  lemma PacedNext(steps: nat, ticks: seq<Event>, rate: nat, tick: Event)
    requires AllTicks(ticks) && tick.Tick? && Paced(steps, ticks, rate)
    ensures var due := Due(tick.elapsed, rate);
            AllTicks(ticks + [tick]) && Paced(if due <= steps then steps else due, ticks + [tick], rate)
  {
    DueExact(tick.elapsed, rate);
    var due := Due(tick.elapsed, rate);
    hide Due;
    var all := ticks + [tick];
    var more := if due <= steps then steps else due;
    forall i | 0 <= i < |all| ensures all[i].elapsed * rate < (more + 1) * 1_000_000_000 {
      if i < |ticks| {
        assert all[i] == ticks[i];
      }
    }
    if more > 0 {
      if due <= steps {
        var i :| 0 <= i < |ticks| && steps * 1_000_000_000 <= ticks[i].elapsed * rate;
        assert all[i] == ticks[i];
      } else {
        assert all[|ticks|] == tick;
      }
    }
  }

  /** A run keeps pace, in whatever order its ticks come. */
  lemma {:induction false} RunPaced(roundRobin: bool, rate: nat, ticks: seq<Event>)
    requires AllTicks(ticks)
    ensures Paced(Run(roundRobin, rate, ticks).steps, ticks, rate)
  {
    hide Paced;
    hide Due;
    hide StepsTargets;
    if ticks == [] {
      PacedFromStart(rate);
    } else {
      var front, last := ticks[..|ticks| - 1], ticks[|ticks| - 1];
      RunPaced(roundRobin, rate, front);
      PacedNext(Run(roundRobin, rate, front).steps, front, rate, last);
      assert front + [last] == ticks;
    }
  }

  lemma PacedFromStart(rate: nat)
    ensures Paced(0, [], rate)
  {}

  /** A run has made exactly the steps due at its last tick, whichever ticks came before. */
  lemma {:induction false} StepsExact(roundRobin: bool, rate: nat, ticks: seq<Event>)
    requires AllTicks(ticks) && InOrder(ticks) && ticks != []
    ensures Run(roundRobin, rate, ticks).steps == Due(ticks[|ticks| - 1].elapsed, rate)
    ensures var steps, n := Run(roundRobin, rate, ticks).steps, ticks[|ticks| - 1].elapsed * rate;
            steps * 1_000_000_000 <= n < (steps + 1) * 1_000_000_000
  {
    DueExact(ticks[|ticks| - 1].elapsed, rate);
    var front := ticks[..|ticks| - 1];
    if front != [] {
      StepsExact(roundRobin, rate, front);
      DueGrows(front[|front| - 1].elapsed, ticks[|ticks| - 1].elapsed, rate);
    }
    hide Due;
    hide StepsTargets;
  }

  predicate SameNodes(ticks: seq<Event>, conns: seq<string>) {
    forall i :: 0 <= i < |ticks| ==> ticks[i].Tick? && ticks[i].conns == conns
  }

  lemma TickKeepsJobs(p: Progress, roundRobin: bool, rate: nat, tick: Event)
    requires tick.Tick? && p.jobs == StepsTargets(roundRobin, tick.conns, 0, p.steps)
    requires p.next == NextAfterSteps(roundRobin, tick.conns, 0, p.steps)
    ensures var q := Advance(p, roundRobin, rate, tick);
            && q.jobs == StepsTargets(roundRobin, tick.conns, 0, q.steps)
            && q.next == NextAfterSteps(roundRobin, tick.conns, 0, q.steps)
  {
    var due := Due(tick.elapsed, rate);
    hide Due;
    if p.steps < due {
      StepsTargetsSplit(roundRobin, tick.conns, 0, p.steps, due - p.steps);
      if tick.conns == [] {
        NoTargets(roundRobin, 0, due);
        NoTargets(roundRobin, p.next, due - p.steps);
        NoTargets(roundRobin, 0, p.steps);
      }
      hide StepsTargets;
    }
  }

  /** While the connected nodes stay the same, a run's jobs depend on the number of steps only. */
  lemma {:induction false} JobsExact(roundRobin: bool, rate: nat, ticks: seq<Event>, conns: seq<string>)
    requires AllTicks(ticks) && SameNodes(ticks, conns)
    ensures var run := Run(roundRobin, rate, ticks);
            && run.jobs == StepsTargets(roundRobin, conns, 0, run.steps)
            && run.next == NextAfterSteps(roundRobin, conns, 0, run.steps)
  {
    if ticks != [] {
      JobsExact(roundRobin, rate, ticks[..|ticks| - 1], conns);
      TickKeepsJobs(Run(roundRobin, rate, ticks[..|ticks| - 1]), roundRobin, rate, ticks[|ticks| - 1]);
      hide StepsTargets;
      hide Advance;
    }
  }

  lemma {:induction false} NoTargets(roundRobin: bool, next: nat, steps: nat)
    ensures StepsTargets(roundRobin, [], next, steps) == []
  {
    if steps > 0 {
      NoTargets(roundRobin, next, steps - 1);
    }
  }

  /** A late or dropped tick is made up on the next: two runs whose last ticks agree have sent the same. */
  lemma DroppedTicksMadeUp(roundRobin: bool, rate: nat, a: seq<Event>, b: seq<Event>, conns: seq<string>)
    requires AllTicks(a) && AllTicks(b) && InOrder(a) && InOrder(b) && a != [] && b != []
    requires SameNodes(a, conns) && SameNodes(b, conns) && a[|a| - 1] == b[|b| - 1]
    ensures Run(roundRobin, rate, a) == Run(roundRobin, rate, b)
  {
    StepsExact(roundRobin, rate, a);
    StepsExact(roundRobin, rate, b);
    JobsExact(roundRobin, rate, a, conns);
    JobsExact(roundRobin, rate, b, conns);
    hide Run;
    hide StepsTargets;
  }

  // ---------------------------------------------------------------- fairness

  function Count(jobs: seq<string>, node: string): nat {
    multiset(jobs)[node]
  }

  predicate DistinctNodes(conns: seq<string>) {
    forall i, j :: 0 <= i < j < |conns| ==> conns[i] != conns[j]
  }

  /** How many of the numbers below m leave remainder i modulo n. */
  function Below(m: nat, i: nat, n: nat): nat
    requires i < n
  {
    (m + n - 1 - i) / n
  }

  lemma BelowValue(m: nat, i: nat, n: nat, q: nat, r: nat)
    requires i < n && r < n && m == q * n + r
    ensures Below(m, i, n) == q + if i < r then 1 else 0
    ensures m % n == r
  {
    DivUnique(m, n, q, r);
    Succ(q, n);
    if i < r {
      DivUnique(m + n - 1 - i, n, q + 1, r - 1 - i);
    } else {
      DivUnique(m + n - 1 - i, n, q, n + r - 1 - i);
    }
  }

  lemma Succ(q: nat, n: nat)
    ensures (q + 1) * n == q * n + n
  {}

  lemma Quotients(m: nat, n: nat) returns (q: nat, r: nat)
    requires 0 < n
    ensures m == q * n + r && r < n
  {
    q, r := m / n, m % n;
  }

  lemma BelowStep(m: nat, i: nat, n: nat)
    requires i < n
    ensures Below(m + 1, i, n) == Below(m, i, n) + if m % n == i then 1 else 0
  {
    var q, r := Quotients(m, n);
    BelowValue(m, i, n, q, r);
    Succ(q, n);
    if r + 1 < n {
      BelowValue(m + 1, i, n, q, r + 1);
    } else {
      BelowValue(m + 1, i, n, q + 1, 0);
    }
    hide Below;
  }

  lemma CountConcat(a: seq<string>, b: seq<string>, node: string)
    ensures Count(a + b, node) == Count(a, node) + Count(b, node)
  {
    assert multiset(a + b) == multiset(a) + multiset(b);
  }

  lemma OneTurn(conns: seq<string>, next: nat, i: nat)
    requires DistinctNodes(conns) && i < |conns|
    ensures Count(StepTargets(true, conns, next), conns[i]) == if next % |conns| == i then 1 else 0
  {
    var k := next % |conns|;
    assert conns[k] == conns[i] <==> k == i;
  }

  /** In round robin a node is sent to once for each position that leaves its index. */
  lemma {:induction false} TurnsOf(conns: seq<string>, next: nat, steps: nat, i: nat)
    requires DistinctNodes(conns) && i < |conns|
    ensures Count(StepsTargets(true, conns, next, steps), conns[i]) ==
            Below(next + steps, i, |conns|) - Below(next, i, |conns|)
  {
    hide Below;
    hide StepTargets;
    hide DistinctNodes;
    if steps == 0 {
      assert StepsTargets(true, conns, next, steps) == [];
    } else {
      TurnsOf(conns, next, steps - 1, i);
      OneTurn(conns, next + steps - 1, i);
      CountConcat(StepsTargets(true, conns, next, steps - 1), StepTargets(true, conns, next + steps - 1), conns[i]);
      BelowStep(next + steps - 1, i, |conns|);
      hide Count;
    }
  }

  lemma Distribute(q: nat, s: nat, n: nat)
    ensures (q + s) * n == q * n + s * n
  {}

  lemma Spread(a: nat, len: nat, n: nat)
    requires 0 < n
    ensures len / n <= (a + len) / n - a / n <= len / n + 1
  {
    var q, r := Quotients(a, n);
    var s, t := Quotients(len, n);
    DivUnique(a, n, q, r);
    DivUnique(len, n, s, t);
    Distribute(q, s, n);
    Succ(q + s, n);
    if r + t < n {
      DivUnique(a + len, n, q + s, r + t);
    } else {
      DivUnique(a + len, n, q + s + 1, r + t - n);
    }
  }

  /** Over any stretch of steps with the same nodes, round robin sends every node floor(steps / nodes) or one
      more, so any two nodes' counts differ by at most one. */
  lemma RoundRobinFair(conns: seq<string>, next: nat, steps: nat, i: nat)
    requires DistinctNodes(conns) && i < |conns|
    ensures steps / |conns| <= Count(StepsTargets(true, conns, next, steps), conns[i]) <= steps / |conns| + 1
    ensures |StepsTargets(true, conns, next, steps)| == steps
  {
    TurnsOf(conns, next, steps, i);
    Spread(next + |conns| - 1 - i, steps, |conns|);
    OnePerStep(conns, next, steps);
    hide StepsTargets;
  }

  /** Round robin goes through the nodes in order, whatever the position it starts from. */
  lemma {:induction false} TurnOrder(conns: seq<string>, next: nat, steps: nat, k: nat)
    requires conns != [] && k < steps
    ensures |StepsTargets(true, conns, next, steps)| == steps
    ensures StepsTargets(true, conns, next, steps)[k] == conns[(next + k) % |conns|]
  {
    OnePerStep(conns, next, steps);
    OnePerStep(conns, next, steps - 1);
    if k < steps - 1 {
      TurnOrder(conns, next, steps - 1, k);
    }
  }

  lemma {:induction false} OnePerStep(conns: seq<string>, next: nat, steps: nat)
    requires conns != []
    ensures |StepsTargets(true, conns, next, steps)| == steps
  {
    if steps > 0 {
      OnePerStep(conns, next, steps - 1);
    }
  }

  /** In advertised mode every node gets every step. */
  lemma {:induction false} AdvertisedFair(conns: seq<string>, next: nat, steps: nat, i: nat)
    requires DistinctNodes(conns) && i < |conns|
    ensures Count(StepsTargets(false, conns, next, steps), conns[i]) == steps
  {
    if steps > 0 {
      AdvertisedFair(conns, next, steps - 1, i);
      CountConcat(StepsTargets(false, conns, next, steps - 1), conns, conns[i]);
      OnceEach(conns, i);
    }
  }

  lemma {:induction false} OnceEach(conns: seq<string>, i: nat)
    requires DistinctNodes(conns) && i < |conns|
    ensures Count(conns, conns[i]) == 1
  {
    assert conns == conns[..i] + [conns[i]] + conns[i + 1..];
    CountConcat(conns[..i] + [conns[i]], conns[i + 1..], conns[i]);
    CountConcat(conns[..i], [conns[i]], conns[i]);
    assert conns[i] !in conns[..i] && conns[i] !in conns[i + 1..];
  }

  // ---------------------------------------------------------------- refund runs

  function Min(a: nat, b: nat): nat {
    if a < b then a else b
  }

  function MaxDue(ticks: seq<nat>, rate: nat): nat {
    if ticks == [] then 0
    else
      var before, due := MaxDue(ticks[..|ticks| - 1], rate), Due(ticks[|ticks| - 1], rate);
      if before < due then due else before
  }

  /** RunRefund's loop: the candidates handed to sendRefund by these ticks, each with its connection. Candidate
      number i goes to connection i mod n, once, in order, as soon as it is due; with no connection nothing
      is sent. */
  method RunRefund(candidates: seq<Candidate>, conns: seq<string>, requestPerSecond: nat, ticks: seq<nat>)
    returns (sends: seq<(string, Candidate)>)
    requires requestPerSecond > 0
    ensures conns == [] ==> sends == []
    ensures conns != [] ==>
              && |sends| == Min(MaxDue(ticks, requestPerSecond), |candidates|)
              && |sends| <= |candidates|
              && (|sends| < |candidates| ==>
                    forall t :: t in ticks ==> t * requestPerSecond < (|sends| + 1) * 1_000_000_000)
              && (sends != [] ==>
                    exists t :: t in ticks && |sends| * 1_000_000_000 <= t * requestPerSecond)
              && forall i :: 0 <= i < |sends| ==> sends[i] == (conns[i % |conns|], candidates[i])
  {
    sends := [];
    if |conns| == 0 {
      return;
    }
    hide Due;
    var sent := 0;
    for t := 0 to |ticks|
      invariant sent == |sends| == Min(MaxDue(ticks[..t], requestPerSecond), |candidates|)
      invariant forall i :: 0 <= i < sent ==> sends[i] == (conns[i % |conns|], candidates[i])
    {
      assert ticks[..t + 1][..t] == ticks[..t];
      var due := Min(Due(ticks[t], requestPerSecond), |candidates|);
      ghost var before := sent;
      hide MaxDue;
      while sent < due
        invariant before <= sent == |sends| && (sent <= due || sent == before)
        invariant forall i :: 0 <= i < sent ==> sends[i] == (conns[i % |conns|], candidates[i])
      {
        sends := sends + [(conns[sent % |conns|], candidates[sent])];
        sent := sent + 1;
      }
      NextMaxDue(ticks[..t + 1], requestPerSecond);
    }
    assert ticks[..|ticks|] == ticks;
    SentInTime(ticks, requestPerSecond, |sends|);
  }

  lemma SentInTime(ticks: seq<nat>, rate: nat, sent: nat)
    requires sent <= MaxDue(ticks, rate)
    ensures sent == MaxDue(ticks, rate) ==> forall t :: t in ticks ==> t * rate < (sent + 1) * 1_000_000_000
    ensures sent > 0 ==> exists t :: t in ticks && sent * 1_000_000_000 <= t * rate
  {
    MaxDueBounds(ticks, rate);
    hide MaxDue;
    if sent > 0 {
      var t :| t in ticks && MaxDue(ticks, rate) * 1_000_000_000 <= t * rate;
      assert sent * 1_000_000_000 <= t * rate;
    }
  }

  /** No tick had a further refund due, and some tick had as many due. */
  lemma {:induction false} MaxDueBounds(ticks: seq<nat>, rate: nat)
    ensures forall t :: t in ticks ==> t * rate < (MaxDue(ticks, rate) + 1) * 1_000_000_000
    ensures MaxDue(ticks, rate) > 0 ==>
              exists t :: t in ticks && MaxDue(ticks, rate) * 1_000_000_000 <= t * rate
  {
    if ticks != [] {
      var front, last := ticks[..|ticks| - 1], ticks[|ticks| - 1];
      MaxDueBounds(front, rate);
      NextMaxDue(ticks, rate);
      DueExact(last, rate);
      var before, due, now := MaxDue(front, rate), Due(last, rate), MaxDue(ticks, rate);
      hide Due;
      hide MaxDue;
      assert ticks == front + [last];
      forall t | t in ticks ensures t * rate < (now + 1) * 1_000_000_000 {
        if t != last {
          assert t in front;
        }
      }
      if now > 0 {
        if before < due {
          assert last in ticks && now * 1_000_000_000 <= last * rate;
        } else {
          var t :| t in front && before * 1_000_000_000 <= t * rate;
          assert t in ticks;
        }
      }
    }
  }

  lemma NextMaxDue(ticks: seq<nat>, rate: nat)
    requires ticks != []
    ensures var before, due := MaxDue(ticks[..|ticks| - 1], rate), Due(ticks[|ticks| - 1], rate);
            MaxDue(ticks, rate) == if before < due then due else before
  {}

  lemma {:induction false} MaxDueLast(ticks: seq<nat>, rate: nat)
    requires ticks != [] && forall i, j :: 0 <= i <= j < |ticks| ==> ticks[i] <= ticks[j]
    ensures MaxDue(ticks, rate) == Due(ticks[|ticks| - 1], rate)
    ensures var due, n := MaxDue(ticks, rate), ticks[|ticks| - 1] * rate;
            due * 1_000_000_000 <= n < (due + 1) * 1_000_000_000
  {
    DueExact(ticks[|ticks| - 1], rate);
    if |ticks| > 1 {
      MaxDueLast(ticks[..|ticks| - 1], rate);
      DueGrows(ticks[|ticks| - 2], ticks[|ticks| - 1], rate);
    } else {
      assert MaxDue(ticks[..0], rate) == 0;
    }
    hide Due;
  }
}
