/** Summaries of a stress test's log (database/dao.go): the figures combined from per-type groups, the latency
    lists built from one sorted read, and nearest-rank percentiles. Times are whole milliseconds; averages
    and percentile fractions are exact. */
module Stats {
  import opened Wrappers
  import opened Sets
  import opened Log
  import opened Numerals

  /** A log row as the queries see it: its type identifier, "unknown" when it has none, and its time_taken. */
  datatype Sample = Sample(mti: string, time: Option<int>)

  /** A row of the grouped query; the aggregates are absent when nothing in the group was answered. */
  datatype Group = Group(mti: string, logged: nat, answered: nat, min: Option<int>, sum: Option<int>,
                         max: Option<int>)

  datatype Latency = Latency(min: int, max: int, avg: real, p50: int, p95: int, p99: int)

  datatype Summary = Summary(logged: nat, answered: nat, unanswered: int, latency: Latency)

  const NO_LATENCY := Latency(0, 0, 0.0, 0, 0, 0)

  // ---------------------------------------------------------------- samples

  /** COALESCE(mti, 'unknown'), time_taken */
  function SampleOf(row: Row): Sample {
    Sample(if row.entry.mti.Some? then row.entry.mti.value else "unknown", row.timeTaken)
  }

  /** A test's rows with keys below bound, as the queries see them. */
  function SamplesBelow(rows: map<nat, Row>, testId: int, bound: nat): seq<Sample> {
    if bound == 0 then []
    else
      SamplesBelow(rows, testId, bound - 1) +
      if bound - 1 in rows && rows[bound - 1].entry.testId == testId then [SampleOf(rows[bound - 1])] else []
  }

  function RowsOf(rows: map<nat, Row>, testId: int, bound: nat): set<nat> {
    set id | id in rows && id < bound && rows[id].entry.testId == testId
  }

  function AnsweredOf(rows: map<nat, Row>, testId: int, bound: nat): set<nat> {
    set id | id in rows && id < bound && rows[id].entry.testId == testId && rows[id].timeTaken.Some?
  }

  lemma RowsNext(rows: map<nat, Row>, testId: int, id: nat)
    ensures RowsOf(rows, testId, id + 1) ==
            RowsOf(rows, testId, id) + if id in rows && rows[id].entry.testId == testId then {id} else {}
    ensures AnsweredOf(rows, testId, id + 1) ==
            AnsweredOf(rows, testId, id) +
            if id in rows && rows[id].entry.testId == testId && rows[id].timeTaken.Some? then {id} else {}
    ensures id !in RowsOf(rows, testId, id) && id !in AnsweredOf(rows, testId, id)
  {}

  /** The summary's snapshot holds each of the test's rows once, and each answered row's time once. */
  lemma {:induction false} SnapshotCounts(rows: map<nat, Row>, testId: int, bound: nat)
    ensures |SamplesBelow(rows, testId, bound)| == |RowsOf(rows, testId, bound)|
    ensures |Times(SamplesBelow(rows, testId, bound))| == |AnsweredOf(rows, testId, bound)|
  {
    if bound == 0 {
      assert RowsOf(rows, testId, 0) == {} && AnsweredOf(rows, testId, 0) == {};
    } else {
      var id := bound - 1;
      SnapshotCounts(rows, testId, id);
      RowsNext(rows, testId, id);
      hide RowsOf;
      hide AnsweredOf;
      if id in rows && rows[id].entry.testId == testId {
        TimesConcat(SamplesBelow(rows, testId, id), [SampleOf(rows[id])]);
        OneTime(SampleOf(rows[id]));
      } else {
        assert SamplesBelow(rows, testId, id) + [] == SamplesBelow(rows, testId, id);
      }
    }
  }

  function Times(s: seq<Sample>): seq<int> {
    if s == [] then []
    else Times(s[..|s| - 1]) + if s[|s| - 1].time.Some? then [s[|s| - 1].time.value] else []
  }

  function Of(s: seq<Sample>, mti: string): seq<Sample> {
    if s == [] then [] else Of(s[..|s| - 1], mti) + if s[|s| - 1].mti == mti then [s[|s| - 1]] else []
  }

  function Sum(t: seq<int>): int {
    if t == [] then 0 else Sum(t[..|t| - 1]) + t[|t| - 1]
  }

  function MinOf(t: seq<int>): (m: int)
    requires t != []
    ensures m in t && forall x :: x in t ==> m <= x
  {
    if |t| == 1 then t[0]
    else
      var m := MinOf(t[..|t| - 1]);
      assert forall x :: x in t ==> x in t[..|t| - 1] || x == t[|t| - 1];
      if t[|t| - 1] < m then t[|t| - 1] else m
  }

  function MaxOf(t: seq<int>): (m: int)
    requires t != []
    ensures m in t && forall x :: x in t ==> x <= m
  {
    if |t| == 1 then t[0]
    else
      var m := MaxOf(t[..|t| - 1]);
      assert forall x :: x in t ==> x in t[..|t| - 1] || x == t[|t| - 1];
      if m < t[|t| - 1] then t[|t| - 1] else m
  }

  function TypedOf(rows: map<nat, Row>, testId: int, bound: nat, mti: string): set<nat> {
    set id | id in rows && id < bound && rows[id].entry.testId == testId &&
             (rows[id].entry.mti == Some(mti) || (rows[id].entry.mti == None && mti == "unknown"))
  }

  lemma TypedNext(rows: map<nat, Row>, testId: int, id: nat, mti: string)
    ensures TypedOf(rows, testId, id + 1, mti) ==
            TypedOf(rows, testId, id, mti) +
            if id in rows && rows[id].entry.testId == testId && SampleOf(rows[id]).mti == mti then {id} else {}
    ensures id !in TypedOf(rows, testId, id, mti)
  {}

  /** A type's group holds the test's rows of that type, rows without a type being grouped as "unknown". */
  lemma {:induction false} TypeCounts(rows: map<nat, Row>, testId: int, bound: nat, mti: string)
    ensures |Of(SamplesBelow(rows, testId, bound), mti)| == |TypedOf(rows, testId, bound, mti)|
  {
    if bound == 0 {
      assert TypedOf(rows, testId, 0, mti) == {};
    } else {
      var id := bound - 1;
      TypeCounts(rows, testId, id, mti);
      TypedNext(rows, testId, id, mti);
      hide TypedOf;
      hide SampleOf;
      if id in rows && rows[id].entry.testId == testId {
        OfSnoc(SamplesBelow(rows, testId, id), SampleOf(rows[id]), mti);
      } else {
        assert SamplesBelow(rows, testId, id) + [] == SamplesBelow(rows, testId, id);
      }
      hide Of;
    }
  }

  /** The samples group by group. */
  function Grouped(s: seq<Sample>, mtis: seq<string>): seq<Sample> {
    if mtis == [] then [] else Grouped(s, mtis[..|mtis| - 1]) + Of(s, mtis[|mtis| - 1])
  }

  predicate Distinct(mtis: seq<string>) {
    forall i, j :: 0 <= i < j < |mtis| ==> mtis[i] != mtis[j]
  }

  /** GROUP BY: every type identifier in the samples once, in any order. */
  predicate Groups(s: seq<Sample>, mtis: seq<string>) {
    Distinct(mtis) && forall i :: 0 <= i < |s| ==> s[i].mti in mtis
  }

  lemma {:induction false} TimesConcat(a: seq<Sample>, b: seq<Sample>)
    ensures Times(a + b) == Times(a) + Times(b)
  {
    if b == [] {
      assert a + b == a;
      assert Times(a) + [] == Times(a);
    } else {
      var front, last := b[..|b| - 1], b[|b| - 1];
      TimesConcat(a, front);
      assert (a + b)[..|a + b| - 1] == a + front && (a + b)[|a + b| - 1] == last;
      var more := if last.time.Some? then [last.time.value] else [];
      assert Times(a + b) == Times(a + front) + more;
      assert Times(b) == Times(front) + more;
    }
  }

  lemma {:induction false} SumConcat(a: seq<int>, b: seq<int>)
    ensures Sum(a + b) == Sum(a) + Sum(b)
  {
    if b == [] {
      assert a + b == a;
    } else {
      SumConcat(a, b[..|b| - 1]);
      assert (a + b)[..|a + b| - 1] == a + b[..|b| - 1];
    }
  }

  lemma SumOne(x: int)
    ensures Sum([x]) == x
  {
    assert [x][..0] == [];
  }

  lemma OfSnoc(s: seq<Sample>, x: Sample, mti: string)
    ensures Of(s + [x], mti) == if x.mti == mti then Of(s, mti) + [x] else Of(s, mti)
  {
    assert (s + [x])[..|s|] == s;
  }

  lemma {:induction false} GroupedElsewhere(s: seq<Sample>, x: Sample, mtis: seq<string>)
    requires x.mti !in mtis
    ensures Grouped(s + [x], mtis) == Grouped(s, mtis)
  {
    if mtis != [] {
      GroupedElsewhere(s, x, mtis[..|mtis| - 1]);
      OfSnoc(s, x, mtis[|mtis| - 1]);
      hide Of;
    }
  }

  /** The two lists hold the same answered times and equally many samples. */
  ghost predicate Alike(a: seq<Sample>, b: seq<Sample>) {
    |a| == |b| && multiset(Times(a)) == multiset(Times(b)) && Sum(Times(a)) == Sum(Times(b))
  }

  lemma AlikeAppended(a: seq<Sample>, x: Sample, b: seq<Sample>)
    ensures Alike(a + [x] + b, a + b + [x])
  {
    TimesConcat(a + [x], b);
    TimesConcat(a, [x]);
    TimesConcat(a + b, [x]);
    TimesConcat(a, b);
    hide Times;
    SumConcat(Times(a) + Times([x]), Times(b));
    SumConcat(Times(a), Times([x]));
    SumConcat(Times(a) + Times(b), Times([x]));
    SumConcat(Times(a), Times(b));
  }

  lemma AlikeBoth(a: seq<Sample>, b: seq<Sample>, tail: seq<Sample>)
    requires Alike(a, b)
    ensures Alike(a + tail, b + tail)
  {
    TimesConcat(a, tail);
    TimesConcat(b, tail);
    hide Times;
    SumConcat(Times(a), Times(tail));
    SumConcat(Times(b), Times(tail));
  }

  /** A new sample joins its own group only. */
  lemma {:induction false} GroupedGrows(s: seq<Sample>, x: Sample, mtis: seq<string>)
    requires Distinct(mtis) && x.mti in mtis
    ensures Alike(Grouped(s + [x], mtis), Grouped(s, mtis) + [x])
  {
    hide Of;
    hide Times;
    hide Sum;
    var front, last := mtis[..|mtis| - 1], mtis[|mtis| - 1];
    OfSnoc(s, x, last);
    if x.mti == last {
      GroupedElsewhere(s, x, front);
      assert Grouped(s, front) + (Of(s, last) + [x]) == Grouped(s, front) + Of(s, last) + [x];
    } else {
      GroupedGrows(s, x, front);
      AlikeBoth(Grouped(s + [x], front), Grouped(s, front) + [x], Of(s, last));
      AlikeAppended(Grouped(s, front), x, Of(s, last));
    }
  }

  /** Grouping loses and repeats nothing. */
  lemma {:induction false} GroupingKeeps(s: seq<Sample>, mtis: seq<string>)
    requires Groups(s, mtis)
    ensures Alike(Grouped(s, mtis), s)
  {
    hide Times;
    hide Sum;
    if s == [] {
      NothingGrouped(mtis);
    } else {
      var front, x := s[..|s| - 1], s[|s| - 1];
      assert front + [x] == s;
      GroupingKeeps(front, mtis);
      GroupedGrows(front, x, mtis);
      AlikeBoth(Grouped(front, mtis), front, [x]);
    }
  }

  lemma {:induction false} NothingGrouped(mtis: seq<string>)
    ensures Grouped([], mtis) == []
  {
    if mtis != [] {
      NothingGrouped(mtis[..|mtis| - 1]);
    }
  }

  // ---------------------------------------------------------------- combining the groups

  /** One row of the grouped query. */
  function GroupOf(s: seq<Sample>, mti: string): Group {
    var t := Times(Of(s, mti));
    Group(mti, |Of(s, mti)|, |t|, if t == [] then None else Some(MinOf(t)),
          if t == [] then None else Some(Sum(t)), if t == [] then None else Some(MaxOf(t)))
  }

  /** The summary's figures are those of the samples taken directly; `floor` bounds the maximum from below. */
  predicate Summarises(x: Summary, s: seq<Sample>, floor: Option<int>) {
    var t := Times(s);
    && x.logged == |s| && x.answered == |t| && x.unanswered == |s| - |t|
    && (t == [] ==> x.latency.min == 0 && x.latency.max == 0 && x.latency.avg == 0.0)
    && (t != [] ==>
          && x.latency.min == MinOf(t)
          && x.latency.max == (if floor.Some? && MaxOf(t) < floor.value then floor.value else MaxOf(t))
          && x.latency.avg == Sum(t) as real / |t| as real)
  }

  /** The overall figures while the groups are read. */
  datatype Totals = Totals(logged: nat, answered: nat, min: int, max: int, total: int)

  predicate TotalsOf(x: Totals, s: seq<Sample>) {
    var t := Times(s);
    && x.logged == |s| && x.answered == |t| && x.total == Sum(t)
    && (t == [] ==> x.min == 0 && x.max == 0)
    && (t != [] ==> x.min == MinOf(t) && x.max == if MaxOf(t) < 0 then 0 else MaxOf(t))
  }

  function ValueOr0(x: Option<int>): int {
    if x.Some? then x.value else 0
  }

  lemma MinMaxConcat(a: seq<int>, b: seq<int>)
    requires b != []
    ensures MinOf(a + b) == if a == [] || MinOf(b) < MinOf(a) then MinOf(b) else MinOf(a)
    ensures MaxOf(a + b) == if a == [] || MaxOf(a) < MaxOf(b) then MaxOf(b) else MaxOf(a)
  {
    assert forall x :: x in a + b <==> x in a || x in b;
    if a == [] {
      assert a + b == b;
    }
  }

  function AddGroup(x: Totals, g: Group): Totals {
    Totals(x.logged + g.logged, x.answered + g.answered,
           if g.answered > 0 && (x.answered == 0 || ValueOr0(g.min) < x.min) then ValueOr0(g.min) else x.min,
           if g.answered > 0 && x.max < ValueOr0(g.max) then ValueOr0(g.max) else x.max,
           x.total + ValueOr0(g.sum))
  }

  lemma AddGroupAdds(x: Totals, s: seq<Sample>, all: seq<Sample>, mti: string)
    requires TotalsOf(x, s)
    ensures TotalsOf(AddGroup(x, GroupOf(all, mti)), s + Of(all, mti))
  {
    var o := Of(all, mti);
    TimesConcat(s, o);
    hide Of;
    hide Times;
    SumConcat(Times(s), Times(o));
    hide Sum;
    if Times(o) == [] {
      assert Times(s) + Times(o) == Times(s);
      EmptySum();
    } else {
      MinMaxConcat(Times(s), Times(o));
    }
    hide MinOf;
    hide MaxOf;
  }

  lemma EmptySum()
    ensures Sum([]) == 0
  {}

  /** The figures of a group are those of its samples. */
  lemma GroupSummary(s: seq<Sample>, mti: string, x: Summary)
    requires var g := GroupOf(s, mti);
             && x.logged == g.logged && x.answered == g.answered && x.unanswered == g.logged - g.answered
             && x.latency.min == ValueOr0(g.min) && x.latency.max == ValueOr0(g.max)
             && x.latency.avg ==
                (if g.answered > 0 then ValueOr0(g.sum) as real / g.answered as real else 0.0)
    ensures Summarises(x, Of(s, mti), None)
  {
    hide Of;
    hide Times;
    hide Sum;
  }

  lemma SameTotals(x: Totals, a: seq<Sample>, b: seq<Sample>)
    requires TotalsOf(x, a) && Alike(a, b)
    ensures TotalsOf(x, b)
  {
    var t, u := Times(a), Times(b);
    hide Times;
    hide Sum;
    assert |t| == |multiset(t)| && |u| == |multiset(u)|;
    assert forall v :: v in t <==> v in multiset(t);
    assert forall v :: v in u <==> v in multiset(u);
  }

  /** The summary of a group before its percentiles are known. */
  function SummaryOf(g: Group): Summary {
    var avg := if g.answered > 0 then ValueOr0(g.sum) as real / g.answered as real else 0.0;
    Summary(g.logged, g.answered, g.logged - g.answered,
            NO_LATENCY.(min := ValueOr0(g.min), max := ValueOr0(g.max), avg := avg))
  }

  /** Exactly the listed types are summarised, each by the figures of its own samples. */
  ghost predicate Covers(byMti: map<string, Summary>, s: seq<Sample>, mtis: seq<string>) {
    && (forall mti :: mti in byMti <==> mti in mtis)
    && (forall mti :: mti in byMti ==> Summarises(byMti[mti], Of(s, mti), None))
  }

  lemma CoversNext(byMti: map<string, Summary>, s: seq<Sample>, mtis: seq<string>, mti: string)
    requires Covers(byMti, s, mtis)
    ensures Covers(byMti[mti := SummaryOf(GroupOf(s, mti))], s, mtis + [mti])
  {
    GroupSummary(s, mti, SummaryOf(GroupOf(s, mti)));
    hide GroupOf;
    hide SummaryOf;
    hide Summarises;
    hide Of;
  }

  /** The loop over the grouped query. */
  method CombineGroups(groups: seq<Group>, ghost s: seq<Sample>, ghost mtis: seq<string>)
    returns (overall: Summary, byMti: map<string, Summary>)
    requires Groups(s, mtis) && |groups| == |mtis|
    requires forall i :: 0 <= i < |groups| ==> groups[i] == GroupOf(s, mtis[i])
    ensures Summarises(overall, s, Some(0)) && Covers(byMti, s, mtis)
  {
    hide Of;
    hide Times;
    hide Sum;
    hide GroupOf;
    hide SummaryOf;
    hide Summarises;
    hide Covers;
    hide TotalsOf;
    hide Grouped;
    var logged: nat, answered: nat := 0, 0;
    var min, max, totalMs := 0, 0, 0;
    byMti := map[];
    NothingYet(s, mtis);
    for i := 0 to |groups|
      invariant TotalsOf(Totals(logged, answered, min, max, totalMs), Grouped(s, mtis[..i]))
      invariant Covers(byMti, s, mtis[..i])
    {
      var g := groups[i];
      ghost var before := Totals(logged, answered, min, max, totalMs);
      GroupNamed(s, mtis[i]);
      if g.answered > 0 {
        if answered == 0 || ValueOr0(g.min) < min {
          min := ValueOr0(g.min);
        }
        if max < ValueOr0(g.max) {
          max := ValueOr0(g.max);
        }
      }
      CoversNext(byMti, s, mtis[..i], mtis[i]);
      byMti := byMti[g.mti := SummaryOf(g)];
      logged := logged + g.logged;
      answered := answered + g.answered;
      totalMs := totalMs + ValueOr0(g.sum);
      NextGroup(before, s, mtis, i);
    }
    assert mtis[..|groups|] == mtis;
    GroupingKeeps(s, mtis);
    ghost var totals := Totals(logged, answered, min, max, totalMs);
    SameTotals(totals, Grouped(s, mtis), s);
    var avg := if answered > 0 then totalMs as real / answered as real else 0.0;
    overall := Summary(logged, answered, logged - answered, NO_LATENCY.(min := min, max := max, avg := avg));
    TotalsSummarise(totals, s, overall);
  }

  lemma NothingYet(s: seq<Sample>, mtis: seq<string>)
    ensures TotalsOf(Totals(0, 0, 0, 0, 0), Grouped(s, mtis[..0])) && Covers(map[], s, mtis[..0])
  {
    NoTotals();
  }

  lemma NextGroup(x: Totals, s: seq<Sample>, mtis: seq<string>, i: nat)
    requires i < |mtis| && TotalsOf(x, Grouped(s, mtis[..i]))
    ensures TotalsOf(AddGroup(x, GroupOf(s, mtis[i])), Grouped(s, mtis[..i + 1]))
    ensures mtis[..i + 1] == mtis[..i] + [mtis[i]]
  {
    AddGroupAdds(x, Grouped(s, mtis[..i]), s, mtis[i]);
    assert mtis[..i + 1][..i] == mtis[..i];
    hide GroupOf;
    hide TotalsOf;
    hide AddGroup;
  }

  lemma NoTotals()
    ensures TotalsOf(Totals(0, 0, 0, 0, 0), [])
  {}

  lemma GroupNamed(s: seq<Sample>, mti: string)
    ensures GroupOf(s, mti).mti == mti
  {}

  lemma TotalsSummarise(x: Totals, s: seq<Sample>, r: Summary)
    requires TotalsOf(x, s)
    requires r.logged == x.logged && r.answered == x.answered && r.unanswered == x.logged - x.answered
    requires r.latency.min == x.min && r.latency.max == x.max
    requires r.latency.avg == if x.answered > 0 then x.total as real / x.answered as real else 0.0
    ensures Summarises(r, s, Some(0))
  {
    hide Times;
    hide Sum;
    hide MinOf;
    hide MaxOf;
  }

  /** The overall maximum starts from zero: it is the direct maximum exactly when nothing was answered or some
      time is not negative. */
  lemma OverallMaxExact(x: Summary, s: seq<Sample>)
    requires Summarises(x, s, Some(0))
    ensures (Times(s) != [] ==> x.latency.max == MaxOf(Times(s))) <==>
            (Times(s) == [] || exists v :: v in Times(s) && 0 <= v)
  {
    hide Times;
  }

  // ---------------------------------------------------------------- latency lists

  predicate Sorted(t: seq<int>) {
    forall i, j :: 0 <= i <= j < |t| ==> t[i] <= t[j]
  }

  /** ORDER BY time_taken: the answered samples, each as often as it occurs, in time order. */
  ghost predicate SortedRead(rows: seq<Sample>, s: seq<Sample>) {
    && (forall i :: 0 <= i < |rows| ==> rows[i].time.Some?)
    && Sorted(Times(rows))
    && (forall mti, v :: Occurrences(rows, mti, v) == Occurrences(s, mti, v))
  }

  ghost function Occurrences(s: seq<Sample>, mti: string, v: int): nat {
    multiset(s)[Sample(mti, Some(v))]
  }

  lemma {:induction false} OccurrencesOf(s: seq<Sample>, mti: string, v: int)
    ensures multiset(Times(Of(s, mti)))[v] == Occurrences(s, mti, v)
  {
    if s != [] {
      var front, x := s[..|s| - 1], s[|s| - 1];
      assert front + [x] == s;
      OccurrencesOf(front, mti, v);
      OfSnoc(front, x, mti);
      TimesConcat(Of(front, mti), [x]);
      assert multiset(s) == multiset(front) + multiset{x};
      OneTime(x);
      hide Of;
    }
  }

  lemma OneTime(x: Sample)
    ensures Times([x]) == if x.time.Some? then [x.time.value] else []
  {
    assert [x][..0] == [];
  }

  lemma SameByMti(rows: seq<Sample>, s: seq<Sample>, mti: string)
    requires SortedRead(rows, s)
    ensures multiset(Times(Of(rows, mti))) == multiset(Times(Of(s, mti)))
  {
    forall v ensures multiset(Times(Of(rows, mti)))[v] == multiset(Times(Of(s, mti)))[v] {
      OccurrencesOf(rows, mti, v);
      OccurrencesOf(s, mti, v);
    }
    hide Of;
    hide Times;
  }

  lemma {:induction false} SameGrouped(rows: seq<Sample>, s: seq<Sample>, mtis: seq<string>)
    requires SortedRead(rows, s)
    ensures multiset(Times(Grouped(rows, mtis))) == multiset(Times(Grouped(s, mtis)))
  {
    hide SortedRead;
    hide Of;
    hide Times;
    if mtis != [] {
      var front, last := mtis[..|mtis| - 1], mtis[|mtis| - 1];
      SameGrouped(rows, s, front);
      SameByMti(rows, s, last);
      TimesConcat(Grouped(rows, front), Of(rows, last));
      TimesConcat(Grouped(s, front), Of(s, last));
    }
  }

  lemma SortedReadCovers(rows: seq<Sample>, s: seq<Sample>, mtis: seq<string>)
    requires SortedRead(rows, s) && Groups(s, mtis)
    ensures Groups(rows, mtis)
  {
    forall i | 0 <= i < |rows| ensures rows[i].mti in mtis {
      var x := rows[i];
      assert Occurrences(rows, x.mti, x.time.value) == Occurrences(s, x.mti, x.time.value);
      assert x in multiset(rows);
      assert x in multiset(s);
      var j :| 0 <= j < |s| && s[j] == x;
    }
  }

  /** The sorted read holds all answered times, and the lists per type partition them. */
  lemma LatenciesPartition(rows: seq<Sample>, s: seq<Sample>, mtis: seq<string>)
    requires SortedRead(rows, s) && Groups(s, mtis)
    ensures multiset(Times(rows)) == multiset(Times(s))
    ensures multiset(Times(Grouped(rows, mtis))) == multiset(Times(rows))
    ensures forall mti :: multiset(Times(Of(rows, mti))) == multiset(Times(Of(s, mti)))
  {
    SortedReadCovers(rows, s, mtis);
    GroupingKeeps(rows, mtis);
    GroupingKeeps(s, mtis);
    SameGrouped(rows, s, mtis);
    forall mti ensures multiset(Times(Of(rows, mti))) == multiset(Times(Of(s, mti))) {
      SameByMti(rows, s, mti);
    }
    hide SortedRead;
    hide Of;
    hide Times;
  }

  /** Each type's list is in time order, because the rows are. */
  lemma {:induction false} OfSorted(rows: seq<Sample>, mti: string)
    requires Sorted(Times(rows))
    ensures Sorted(Times(Of(rows, mti)))
    ensures forall v :: v in Times(Of(rows, mti)) ==> v in Times(rows)
  {
    if rows == [] {
      assert Of(rows, mti) == [] && Times(Of(rows, mti)) == [];
    } else {
      var front, x := rows[..|rows| - 1], rows[|rows| - 1];
      assert front + [x] == rows;
      TimesConcat(front, [x]);
      OneTime(x);
      assert Times(front) == Times(rows)[..|Times(front)|];
      OfSorted(front, mti);
      OfSnoc(front, x, mti);
      TimesConcat(Of(front, mti), [x]);
      hide Of;
      hide Times;
      assert Times(rows) == Times(front) + Times([x]);
      SortedSnoc(Times(front), Times([x]), Times(Of(front, mti)));
    }
  }

  lemma SortedSnoc(all: seq<int>, more: seq<int>, some: seq<int>)
    requires |more| <= 1 && Sorted(all + more) && Sorted(some) && forall v :: v in some ==> v in all
    ensures Sorted(some + more)
    ensures forall v :: v in some + more ==> v in all + more
  {
    if more == [] {
      assert some + more == some && all + more == all;
    } else {
      forall k | 0 <= k < |some| ensures some[k] <= more[0] {
        assert some[k] in some;
        var i :| 0 <= i < |all| && all[i] == some[k];
        var t := all + more;
        assert Sorted(t) && t[i] == all[i] && t[|all|] == more[0];
      }
    }
  }

  function ListOf(lists: map<string, seq<int>>, mti: string): seq<int> {
    if mti in lists then lists[mti] else []
  }

  ghost predicate Lists(lists: map<string, seq<int>>, rows: seq<Sample>) {
    forall mti :: ListOf(lists, mti) == Times(Of(rows, mti))
  }

  lemma ListsNext(lists: map<string, seq<int>>, rows: seq<Sample>, x: Sample)
    requires Lists(lists, rows) && x.time.Some?
    ensures Lists(lists[x.mti := ListOf(lists, x.mti) + [x.time.value]], rows + [x])
    ensures Times(rows + [x]) == Times(rows) + [x.time.value]
  {
    OneTime(x);
    TimesConcat(rows, [x]);
    var more := lists[x.mti := ListOf(lists, x.mti) + [x.time.value]];
    forall mti ensures ListOf(more, mti) == Times(Of(rows + [x], mti)) {
      assert ListOf(lists, mti) == Times(Of(rows, mti));
      OfSnoc(rows, x, mti);
      TimesConcat(Of(rows, mti), [x]);
      hide Of;
      hide Times;
    }
  }

  /** The loop over the sorted read. */
  method CollectLatencies(rows: seq<Sample>)
    returns (latencies: seq<int>, latenciesByMti: map<string, seq<int>>)
    requires forall i :: 0 <= i < |rows| ==> rows[i].time.Some?
    ensures latencies == Times(rows) && Lists(latenciesByMti, rows)
  {
    latencies, latenciesByMti := [], map[];
    for i := 0 to |rows|
      invariant latencies == Times(rows[..i]) && Lists(latenciesByMti, rows[..i])
    {
      ListsNext(latenciesByMti, rows[..i], rows[i]);
      assert rows[..i + 1] == rows[..i] + [rows[i]];
      hide Lists;
      hide Times;
      var mti, ms := rows[i].mti, rows[i].time.value;
      latencies := latencies + [ms];
      latenciesByMti := latenciesByMti[mti := ListOf(latenciesByMti, mti) + [ms]];
    }
    assert rows[..|rows|] == rows;
  }

  // ---------------------------------------------------------------- percentiles

  /** The ceiling of p * n for p = num / den. */
  function Rank(n: nat, num: nat, den: nat): nat
    requires 0 < den
  {
    (num * n + den - 1) / den
  }

  function Percentile(sorted: seq<int>, num: nat, den: nat): int
    requires 0 < num <= den
  {
    if sorted == [] then 0
    else
      RankBounds(|sorted|, num, den);
      sorted[Rank(|sorted|, num, den) - 1]
  }

  lemma RankBounds(n: nat, num: nat, den: nat)
    requires 0 < num <= den && 0 < n
    ensures var rank := Rank(n, num, den);
            1 <= rank <= n && num * n <= rank * den && (rank - 1) * den < num * n
  {
    var rank := Rank(n, num, den);
    var x := num * n + den - 1;
    assert x == rank * den + x % den;
    assert 0 < num * n <= den * n;
    if n < rank {
      Scale(n + 1, rank, den);
    }
  }

  function AtMost(t: seq<int>, v: int): nat {
    if t == [] then 0 else AtMost(t[..|t| - 1], v) + if t[|t| - 1] <= v then 1 else 0
  }

  lemma {:induction false} CountSorted(t: seq<int>, v: int, k: nat)
    requires Sorted(t) && k <= |t|
    ensures k > 0 && t[k - 1] <= v ==> AtMost(t, v) >= k
    ensures k < |t| && v < t[k] ==> AtMost(t, v) <= k
    ensures AtMost(t, v) <= |t|
  {
    if t != [] {
      var front := t[..|t| - 1];
      assert Sorted(front);
      if k < |t| {
        CountSorted(front, v, k);
      } else {
        CountSorted(front, v, k - 1);
      }
    }
  }

  /** How many elements are at most v exceeds k exactly when element number k is at most v. */
  lemma AtMostExact(t: seq<int>, v: int, k: nat)
    requires Sorted(t) && k < |t|
    ensures k < AtMost(t, v) <==> t[k] <= v
  {
    CountSorted(t, v, k);
    CountSorted(t, v, k + 1);
  }

  /** Nearest rank. An element is the percentile exactly when at least p * n elements are at most it and fewer
      than p * n are below it. */
  lemma NearestRank(sorted: seq<int>, num: nat, den: nat, v: int)
    requires Sorted(sorted) && sorted != [] && 0 < num <= den
    ensures Percentile(sorted, num, den) in sorted
    ensures v == Percentile(sorted, num, den) <==>
            num * |sorted| <= AtMost(sorted, v) * den && AtMost(sorted, v - 1) * den < num * |sorted|
  {
    var n, rank := |sorted|, Rank(|sorted|, num, den);
    RankBounds(n, num, den);
    hide Rank;
    AtMostExact(sorted, v, rank - 1);
    AtMostExact(sorted, v - 1, rank - 1);
    hide AtMost;
    var le, lt := AtMost(sorted, v), AtMost(sorted, v - 1);
    if sorted[rank - 1] <= v {
      Scale(rank, le, den);
    } else {
      Scale(le, rank - 1, den);
    }
    if v - 1 < sorted[rank - 1] {
      Scale(lt, rank - 1, den);
    } else {
      Scale(rank, lt, den);
    }
  }

  lemma RankMonotone(n: nat, num: nat, more: nat, den: nat)
    requires 0 < num <= more <= den && 0 < n
    ensures Rank(n, num, den) <= Rank(n, more, den)
  {
    RankBounds(n, num, den);
    RankBounds(n, more, den);
    var a, b := Rank(n, num, den), Rank(n, more, den);
    hide Rank;
    Scale(num, more, n);
    if b < a {
      Scale(b, a - 1, den);
    }
  }

  /** A higher percentile is never smaller, and all lie between the extremes. */
  lemma PercentileMonotone(sorted: seq<int>, num: nat, more: nat, den: nat)
    requires Sorted(sorted) && sorted != [] && 0 < num <= more <= den
    ensures sorted[0] <= Percentile(sorted, num, den) <= Percentile(sorted, more, den) <= sorted[|sorted| - 1]
  {
    RankBounds(|sorted|, num, den);
    RankBounds(|sorted|, more, den);
    RankMonotone(|sorted|, num, more, den);
    hide Rank;
  }

  function SetPercentiles(x: Latency, sorted: seq<int>): Latency {
    x.(p50 := Percentile(sorted, 50, 100), p95 := Percentile(sorted, 95, 100),
       p99 := Percentile(sorted, 99, 100))
  }

  /** The reported percentiles of t, by counting: at least 50, 95 and 99 in a hundred of the times are at most
      the reported value, and fewer are below it. Without times each is zero. */
  ghost predicate PercentilesOf(x: Latency, t: seq<int>) {
    if t == [] then x.p50 == 0 && x.p95 == 0 && x.p99 == 0
    else
      && 50 * |t| <= AtMost(t, x.p50) * 100 && AtMost(t, x.p50 - 1) * 100 < 50 * |t|
      && 95 * |t| <= AtMost(t, x.p95) * 100 && AtMost(t, x.p95 - 1) * 100 < 95 * |t|
      && 99 * |t| <= AtMost(t, x.p99) * 100 && AtMost(t, x.p99 - 1) * 100 < 99 * |t|
  }

  /** The percentiles of a sorted list are those of its times in any order. */
  lemma PercentilesExact(x: Latency, sorted: seq<int>, t: seq<int>)
    requires Sorted(sorted) && multiset(sorted) == multiset(t)
    ensures PercentilesOf(SetPercentiles(x, sorted), t)
  {
    hide AtMost;
    hide Percentile;
    hide Sorted;
    var y := SetPercentiles(x, sorted);
    assert |sorted| == |multiset(sorted)| && |t| == |multiset(t)|;
    if t == [] {
      NoPercentile(50);
      NoPercentile(95);
      NoPercentile(99);
    } else {
      RankedSame(sorted, t, 50, y.p50);
      RankedSame(sorted, t, 95, y.p95);
      RankedSame(sorted, t, 99, y.p99);
    }
  }

  lemma NoPercentile(num: nat)
    requires 0 < num <= 100
    ensures Percentile([], num, 100) == 0
  {}

  lemma RankedSame(sorted: seq<int>, t: seq<int>, num: nat, v: int)
    requires Sorted(sorted) && sorted != [] && multiset(sorted) == multiset(t) && 0 < num <= 100
    requires v == Percentile(sorted, num, 100)
    ensures num * |t| <= AtMost(t, v) * 100 && AtMost(t, v - 1) * 100 < num * |t|
  {
    hide AtMost;
    hide Percentile;
    NearestRank(sorted, num, 100, v);
    AtMostSame(sorted, t, v);
    AtMostSame(sorted, t, v - 1);
  }

  predicate Ordered(x: Latency) {
    x.min <= x.p50 <= x.p95 <= x.p99 <= x.max
  }

  predicate Rising(x: Latency) {
    x.p50 <= x.p95 <= x.p99
  }

  predicate SameTimes(a: seq<Sample>, b: seq<Sample>) {
    multiset(Times(a)) == multiset(Times(b))
  }

  /** Fewer than half of the times are below `low`, and at least 99 in a hundred are at most `high`. With no
      times every percentile is zero. */
  predicate OrderHolds(low: int, high: int, t: seq<int>) {
    if t == [] then low <= 0 <= high
    else AtMost(t, low - 1) * 2 < |t| && 99 * |t| <= AtMost(t, high) * 100
  }

  lemma AtLeastRank(t: seq<int>, num: nat, den: nat, v: int)
    requires Sorted(t) && t != [] && 0 < num <= den
    ensures Percentile(t, num, den) <= v <==> num * |t| <= AtMost(t, v) * den
  {
    var n, rank := |t|, Rank(|t|, num, den);
    RankBounds(n, num, den);
    hide Rank;
    AtMostExact(t, v, rank - 1);
    hide AtMost;
    var c := AtMost(t, v);
    if t[rank - 1] <= v {
      Scale(rank, c, den);
    } else {
      Scale(c, rank - 1, den);
    }
  }

  /** Minimum, percentiles and maximum are in order exactly under this condition on the sorted times. */
  lemma OrderedExactly(x: Latency, t: seq<int>)
    requires Sorted(t)
    ensures Rising(SetPercentiles(x, t))
    ensures Ordered(SetPercentiles(x, t)) <==> OrderHolds(x.min, x.max, t)
  {
    if t != [] {
      PercentileMonotone(t, 50, 95, 100);
      PercentileMonotone(t, 95, 99, 100);
      AtLeastRank(t, 50, 100, x.min - 1);
      AtLeastRank(t, 99, 100, x.max);
    }
    hide Percentile;
    hide AtMost;
  }

  lemma {:induction false} AtMostConcat(a: seq<int>, b: seq<int>, v: int)
    ensures AtMost(a + b, v) == AtMost(a, v) + AtMost(b, v)
  {
    if b == [] {
      assert a + b == a;
    } else {
      AtMostConcat(a, b[..|b| - 1], v);
      assert (a + b)[..|a + b| - 1] == a + b[..|b| - 1];
    }
  }

  lemma {:induction false} AtMostSame(a: seq<int>, b: seq<int>, v: int)
    requires multiset(a) == multiset(b)
    ensures |a| == |b| && AtMost(a, v) == AtMost(b, v)
    decreases |a|
  {
    assert |a| == |multiset(a)| && |b| == |multiset(b)|;
    if a != [] {
      var front, x := a[..|a| - 1], a[|a| - 1];
      assert a == front + [x];
      assert x in multiset(b);
      var i :| 0 <= i < |b| && b[i] == x;
      var rest := b[..i] + b[i + 1..];
      assert b == b[..i] + [x] + b[i + 1..];
      assert multiset(front) == multiset(a) - multiset{x} && multiset(rest) == multiset(b) - multiset{x};
      AtMostSame(front, rest, v);
      AtMostConcat(front, [x], v);
      AtMostConcat(b[..i], b[i + 1..], v);
      AtMostConcat(b[..i] + [x], b[i + 1..], v);
      AtMostConcat(b[..i], [x], v);
    }
  }

  lemma OrderHoldsSame(low: int, high: int, a: seq<int>, b: seq<int>)
    requires multiset(a) == multiset(b)
    ensures OrderHolds(low, high, a) <==> OrderHolds(low, high, b)
  {
    AtMostSame(a, b, low - 1);
    AtMostSame(a, b, high);
    hide AtMost;
  }

  function LowOf(s: seq<Sample>): int {
    if Times(s) == [] then 0 else MinOf(Times(s))
  }

  function HighOf(s: seq<Sample>, floor: Option<int>): int {
    if Times(s) == [] then 0
    else if floor.Some? && MaxOf(Times(s)) < floor.value then floor.value
    else MaxOf(Times(s))
  }

  /** Of the times the second read sees, fewer than half are below the first one's minimum, and at least 99 in
      a hundred are at most its maximum. */
  predicate StaysInOrder(s: seq<Sample>, later: seq<Sample>, floor: Option<int>) {
    OrderHolds(LowOf(s), HighOf(s, floor), Times(later))
  }

  /** Two reads that see the same times are enough. */
  lemma SameTimesInOrder(s: seq<Sample>, later: seq<Sample>, floor: Option<int>)
    requires SameTimes(s, later)
    ensures StaysInOrder(s, later, floor)
  {
    var t, u := Times(s), Times(later);
    hide Times;
    assert |t| == |multiset(t)| && |u| == |multiset(u)|;
    if t != [] {
      assert forall v :: v in u ==> v in multiset(u);
      assert forall v :: v in multiset(t) ==> v in t;
      assert forall i :: 0 <= i < |u| ==> u[i] in u;
      NoneBelow(u, LowOf(s) - 1);
      AllAtMost(u, HighOf(s, floor));
    }
    hide AtMost;
  }

  lemma {:induction false} NoneBelow(t: seq<int>, v: int)
    requires forall i :: 0 <= i < |t| ==> v < t[i]
    ensures AtMost(t, v) == 0
  {
    if t != [] {
      NoneBelow(t[..|t| - 1], v);
    }
  }

  lemma {:induction false} AllAtMost(t: seq<int>, v: int)
    requires forall i :: 0 <= i < |t| ==> t[i] <= v
    ensures AtMost(t, v) == |t|
  {
    if t != [] {
      AllAtMost(t[..|t| - 1], v);
    }
  }

  lemma PercentilesOrdered(x: Summary, s: seq<Sample>, later: seq<Sample>, floor: Option<int>, sorted: seq<int>)
    requires Summarises(x, s, floor) && Sorted(sorted) && multiset(sorted) == multiset(Times(later))
    ensures Summarises(x.(latency := SetPercentiles(x.latency, sorted)), s, floor)
    ensures Rising(SetPercentiles(x.latency, sorted))
    ensures Ordered(SetPercentiles(x.latency, sorted)) <==> StaysInOrder(s, later, floor)
    ensures PercentilesOf(SetPercentiles(x.latency, sorted), Times(later))
  {
    hide PercentilesOf;
    hide SetPercentiles;
    hide Summarises;
    hide OrderHolds;
    PercentilesExact(x.latency, sorted, Times(later));
    OrderedExactly(x.latency, sorted);
    OrderHoldsSame(x.latency.min, x.latency.max, sorted, Times(later));
    SummaryStays(x, s, floor, sorted);
    hide Times;
  }

  lemma SummaryStays(x: Summary, s: seq<Sample>, floor: Option<int>, sorted: seq<int>)
    requires Summarises(x, s, floor)
    ensures Summarises(x.(latency := SetPercentiles(x.latency, sorted)), s, floor)
    ensures x.latency.min == LowOf(s) && x.latency.max == HighOf(s, floor)
  {
    hide Sum;
    hide Percentile;
  }

  // ---------------------------------------------------------------- the whole summary

  /** The loop that adds each type's percentiles to its summary. */
  method SetAllPercentiles(byMti: map<string, Summary>, lists: map<string, seq<int>>)
    returns (r: map<string, Summary>)
    ensures r.Keys == byMti.Keys
    ensures forall mti :: mti in r ==>
              r[mti] == byMti[mti].(latency := SetPercentiles(byMti[mti].latency, ListOf(lists, mti)))
  {
    hide SetPercentiles;
    hide ListOf;
    r := byMti;
    var left := byMti.Keys;
    while left != {}
      invariant left <= byMti.Keys == r.Keys
      invariant forall mti :: mti in r ==>
                  r[mti] == if mti in left then byMti[mti]
                            else byMti[mti].(latency := SetPercentiles(byMti[mti].latency, ListOf(lists, mti)))
    {
      var mti :| mti in left;
      r := r[mti := r[mti].(latency := SetPercentiles(r[mti].latency, ListOf(lists, mti)))];
      left := left - {mti};
    }
  }

  lemma TypePercentiles(x: Summary, rows: seq<Sample>, s: seq<Sample>, later: seq<Sample>, mti: string)
    requires SortedRead(rows, later) && Summarises(x, Of(s, mti), None)
    ensures var y := x.(latency := SetPercentiles(x.latency, Times(Of(rows, mti))));
            && Summarises(y, Of(s, mti), None) && Rising(y.latency)
            && PercentilesOf(y.latency, Times(Of(later, mti)))
            && (Ordered(y.latency) <==> StaysInOrder(Of(s, mti), Of(later, mti), None))
  {
    hide PercentilesOf;
    SameByMti(rows, later, mti);
    OfSorted(rows, mti);
    PercentilesOrdered(x, Of(s, mti), Of(later, mti), None, Times(Of(rows, mti)));
    hide StaysInOrder;
    hide Of;
    hide Times;
    hide Summarises;
    hide Ordered;
    hide SetPercentiles;
  }

  /** GetStressTestResults. `groups` is the grouped query on the snapshot s, and `rows` the sorted read on a
      possibly later one. Every figure is the one computed directly on s, overall and per type, only the
      overall maximum being never below zero; every percentile is the nearest-rank one of the later snapshot, by
      the counts of its times. Percentiles are always in order among themselves, and lie between the minimum and
      the maximum exactly when the two snapshots stay in order; two that hold the same times do. */
  method GetStressTestResults(groups: seq<Group>, rows: seq<Sample>, ghost s: seq<Sample>,
                              ghost mtis: seq<string>, ghost later: seq<Sample>, ghost laterMtis: seq<string>)
    returns (overall: Summary, byMti: map<string, Summary>)
    requires Groups(s, mtis) && |groups| == |mtis| && SortedRead(rows, later) && Groups(later, laterMtis)
    requires forall i :: 0 <= i < |groups| ==> groups[i] == GroupOf(s, mtis[i])
    ensures Summarises(overall, s, Some(0)) && Covers(byMti, s, mtis)
    ensures Sorted(Times(rows)) && SameTimes(rows, later)
    ensures overall.latency == SetPercentiles(overall.latency, Times(rows))
    ensures forall mti :: mti in byMti ==>
              byMti[mti].latency == SetPercentiles(byMti[mti].latency, Times(Of(rows, mti)))
    ensures PercentilesOf(overall.latency, Times(later))
    ensures forall mti :: mti in byMti ==> PercentilesOf(byMti[mti].latency, Times(Of(later, mti)))
    ensures Rising(overall.latency) && forall mti :: mti in byMti ==> Rising(byMti[mti].latency)
    ensures Ordered(overall.latency) <==> StaysInOrder(s, later, Some(0))
    ensures forall mti :: mti in byMti ==>
              (Ordered(byMti[mti].latency) <==> StaysInOrder(Of(s, mti), Of(later, mti), None))
    ensures SameTimes(s, later) ==> Ordered(overall.latency)
    ensures forall mti :: mti in byMti && SameTimes(Of(s, mti), Of(later, mti)) ==> Ordered(byMti[mti].latency)
  {
    hide PercentilesOf;
    hide Of;
    hide Times;
    hide Summarises;
    hide Ordered;
    hide Rising;
    hide SetPercentiles;
    hide GroupOf;
    var combined;
    overall, combined := CombineGroups(groups, s, mtis);
    var latencies, latenciesByMti := CollectLatencies(rows);
    LatenciesPartition(rows, later, laterMtis);
    PercentilesOrdered(overall, s, later, Some(0), latencies);
    if SameTimes(s, later) {
      SameTimesInOrder(s, later, Some(0));
    }
    hide StaysInOrder;
    hide SameTimes;
    PercentilesStay(overall.latency, latencies);
    overall := overall.(latency := SetPercentiles(overall.latency, latencies));
    byMti := SetAllPercentiles(combined, latenciesByMti);
    forall mti | mti in byMti
      ensures Summarises(byMti[mti], Of(s, mti), None) && Rising(byMti[mti].latency)
      ensures PercentilesOf(byMti[mti].latency, Times(Of(later, mti)))
      ensures Ordered(byMti[mti].latency) <==> StaysInOrder(Of(s, mti), Of(later, mti), None)
      ensures SameTimes(Of(s, mti), Of(later, mti)) ==> Ordered(byMti[mti].latency)
      ensures byMti[mti].latency == SetPercentiles(byMti[mti].latency, Times(Of(rows, mti)))
    {
      assert ListOf(latenciesByMti, mti) == Times(Of(rows, mti));
      TypePercentiles(combined[mti], rows, s, later, mti);
      PercentilesStay(combined[mti].latency, Times(Of(rows, mti)));
      if SameTimes(Of(s, mti), Of(later, mti)) {
        SameTimesInOrder(Of(s, mti), Of(later, mti), None);
      }
    }
  }

  lemma PercentilesStay(x: Latency, sorted: seq<int>)
    ensures SetPercentiles(SetPercentiles(x, sorted), sorted) == SetPercentiles(x, sorted)
  {
    hide Percentile;
  }

  // ---------------------------------------------------------------- statements committed between the two reads

  /** A test's snapshot of the tables. */
  function Snapshot(db: Db, testId: int): seq<Sample> {
    SamplesBelow(db.rows, testId, db.nextId)
  }

  function TimedOf(rows: map<nat, Row>, testId: int, bound: nat, mti: string, v: int): set<nat> {
    set id | id in rows && id < bound && rows[id].entry.testId == testId &&
             SampleOf(rows[id]) == Sample(mti, Some(v))
  }

  lemma TimedNext(rows: map<nat, Row>, testId: int, id: nat, mti: string, v: int)
    ensures TimedOf(rows, testId, id + 1, mti, v) ==
            TimedOf(rows, testId, id, mti, v) +
            if id in rows && rows[id].entry.testId == testId && SampleOf(rows[id]) == Sample(mti, Some(v))
            then {id} else {}
    ensures id !in TimedOf(rows, testId, id, mti, v)
  {
    hide SampleOf;
  }

  lemma {:induction false} OccurrencesCount(rows: map<nat, Row>, testId: int, bound: nat, mti: string, v: int)
    ensures Occurrences(SamplesBelow(rows, testId, bound), mti, v) == |TimedOf(rows, testId, bound, mti, v)|
  {
    if bound == 0 {
      assert TimedOf(rows, testId, 0, mti, v) == {};
    } else {
      var id := bound - 1;
      OccurrencesCount(rows, testId, id, mti, v);
      TimedNext(rows, testId, id, mti, v);
      hide TimedOf;
      hide SampleOf;
      var before := SamplesBelow(rows, testId, id);
      if id in rows && rows[id].entry.testId == testId {
        assert multiset(before + [SampleOf(rows[id])]) == multiset(before) + multiset{SampleOf(rows[id])};
      } else {
        assert before + [] == before;
      }
    }
  }

  lemma {:induction false} AnsweredStays(db: Db, ops: seq<Op>, id: nat)
    requires KeysBelow(db) && id in db.rows && db.rows[id].timeTaken.Some?
    ensures KeysBelow(ApplyAll(db, ops))
    ensures id in ApplyAll(db, ops).rows && ApplyAll(db, ops).rows[id] == db.rows[id]
  {
    if ops != [] {
      AnsweredStays(db, ops[..|ops| - 1], id);
      hide KeysBelow;
      KeysStay(ApplyAll(db, ops[..|ops| - 1]), ops[|ops| - 1]);
      AnsweredRowsFinal(ApplyAll(db, ops[..|ops| - 1]), ops[|ops| - 1], id);
      hide Apply;
    }
  }

  lemma KeysStay(db: Db, op: Op)
    requires KeysBelow(db)
    ensures KeysBelow(Apply(db, op))
  {}

  /** Every answered sample of s is in `later`, as often. */
  ghost predicate Grown(s: seq<Sample>, later: seq<Sample>) {
    forall mti, v :: Occurrences(s, mti, v) <= Occurrences(later, mti, v)
  }

  /** Whatever is committed after the grouped query, the sorted read still sees every time the figures were
      taken from. */
  lemma CommitsOnlyAdd(db: Db, ops: seq<Op>, testId: int)
    requires KeysBelow(db)
    ensures Grown(Snapshot(db, testId), Snapshot(ApplyAll(db, ops), testId))
  {
    var d := ApplyAll(db, ops);
    forall mti, v
      ensures Occurrences(Snapshot(db, testId), mti, v) <= Occurrences(Snapshot(d, testId), mti, v)
    {
      OccurrencesCount(db.rows, testId, db.nextId, mti, v);
      OccurrencesCount(d.rows, testId, d.nextId, mti, v);
      var a, b := TimedOf(db.rows, testId, db.nextId, mti, v), TimedOf(d.rows, testId, d.nextId, mti, v);
      forall id | id in a ensures id in b {
        AnsweredStays(db, ops, id);
      }
      SubsetSize(a, b);
    }
    hide Occurrences;
  }

  lemma TimeOccurs(s: seq<Sample>, i: nat)
    requires i < |s| && s[i].time.Some?
    ensures s[i].time.value in Times(s)
  {
    assert s == s[..i] + [s[i]] + s[i + 1..];
    TimesConcat(s[..i] + [s[i]], s[i + 1..]);
    TimesConcat(s[..i], [s[i]]);
    OneTime(s[i]);
  }

  lemma {:induction false} TimeOf(s: seq<Sample>, v: int) returns (x: Sample)
    requires v in Times(s)
    ensures x in s && x.time == Some(v)
  {
    var front, last := s[..|s| - 1], s[|s| - 1];
    if last.time == Some(v) {
      x := last;
    } else {
      assert v in Times(front);
      x := TimeOf(front, v);
    }
  }

  /** What survives of the order when statements are committed between the reads: the read's times reach from
      at most the reported minimum to at least the direct maximum. */
  lemma LaterReadEncloses(x: Summary, s: seq<Sample>, later: seq<Sample>, rows: seq<Sample>)
    requires Summarises(x, s, None) && Grown(s, later) && SortedRead(rows, later) && Times(s) != []
    ensures Times(rows) != [] && MinOf(Times(rows)) <= x.latency.min && x.latency.max <= MaxOf(Times(rows))
  {
    StillRead(s, later, rows, MinOf(Times(s)));
    StillRead(s, later, rows, MaxOf(Times(s)));
    hide Times;
  }

  lemma StillRead(s: seq<Sample>, later: seq<Sample>, rows: seq<Sample>, v: int)
    requires Grown(s, later) && SortedRead(rows, later) && v in Times(s)
    ensures v in Times(rows)
  {
    var x := TimeOf(s, v);
    hide Times;
    assert x in multiset(s);
    assert Occurrences(s, x.mti, v) <= Occurrences(later, x.mti, v) == Occurrences(rows, x.mti, v);
    assert x in multiset(rows);
    var i :| 0 <= i < |rows| && rows[i] == x;
    TimeOccurs(rows, i);
  }
}
