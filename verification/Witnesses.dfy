/** Inputs on which the code does not do what it promises, one for each exact condition proved elsewhere. */
module Witnesses {
  import opened Wrappers
  import opened Codec
  import opened Matching
  import opened Tags
  import opened Log
  import opened Issuer
  import opened Outgoing
  import opened Shipped
  import Stats

  // ---------------------------------------------------------------- messages field by field

  function Bare(mti: string): Msg {
    Msg(mti, 0, None, map[])
  }

  lemma BareOk(spec: Spec, mti: string)
    requires |mti| == 4
    ensures WellFormed(spec, Bare(mti))
  {
    forall i: nat | i < 128 ensures !Marked(0, None, i) {
      if i < 64 {
        ShrOfZero(63 - i);
      }
    }
    hide Marked;
    ShrOfZero(63);
  }

  lemma Adds(spec: Spec, m: Msg, i: nat, value: string)
    requires WellFormed(spec, m) && 1 <= i < 128 && FieldFits(spec, i, value)
    ensures WellFormed(spec, MarkAndSet(m, i, value))
    ensures MarkAndSet(m, i, value).fields == m.fields[i := value] && MarkAndSet(m, i, value).mti == m.mti
  {
    MarkAndSetKeeps(spec, m, i, value);
    MarkFrame(m, i);
    hide WellFormed;
    hide FieldFits;
    hide Mark;
  }

  // ---------------------------------------------------------------- tags and replies

  lemma NoMatch(s: string, t: string)
    requires |t| == 2 && forall i :: 0 <= i < |s| ==> s[i] != t[0]
    ensures Index(s, t) == -1
  {
    forall j | 0 <= j && j + 2 <= |s| ensures !MatchAt(s, t, j) {
      assert s[j..j + 2][0] == s[j];
    }
  }

  lemma MatchAtStart(s: string, t: string)
    requires |t| <= |s| && s[..|t|] == t
    ensures Index(s, t) == 0
  {
    assert s[0..0 + |t|] == s[..|t|];
    assert MatchAt(s, t, 0);
  }

  /** A tag with the length -1 is sliced out of bounds, and a well-formed request carrying it crashes the
      handler. */
  lemma NegativeLengthCrashes(now: string, roll: nat)
    ensures ExtractTag("CV-1", "CV").None?
    ensures WellFormed(SHIPPED, MarkAndSet(Bare("0200"), ISSUER_DATA, "CV-1"))
    ensures Response(MarkAndSet(Bare("0200"), ISSUER_DATA, "CV-1"), now, roll).None?
  {
    var m := MarkAndSet(Bare("0200"), ISSUER_DATA, "CV-1");
    BareOk(SHIPPED, "0200");
    Adds(SHIPPED, Bare("0200"), ISSUER_DATA, "CV-1");
    MatchAtStart("CV-1", "CV");
    ExtractTagFails("CV-1", "CV");
    hide ExtractTag;
    hide WellFormed;
    hide MarkAndSet;
    hide Index;
    ResponseFails(m, now, roll);
    CrashesOnText("CV-1", "CV");
    hide Response;
    hide NegativeLength;
  }

  /** The server answers a request of type 0101, with a reply that does not match it. */
  lemma RepliesUnmatched(reference: string)
    ensures IsRequestMti("0101") && MatchKey(ToResponseMTI("0101"), reference) != MatchKey("0101", reference)
  {
    ReplyMatches("0101", reference, reference);
    hide ToResponseMTI;
    hide MatchKey;
  }

  // ---------------------------------------------------------------- fields set without being marked

  /** A purchase without DE4 that is partially approved. */
  function SupportRequest(): Msg {
    MarkAndSet(MarkAndSet(Bare("0200"), PAN, "0000000000000000"), ISSUER_DATA, "SUPPORT")
  }

  lemma SupportRequestOk()
    ensures WellFormed(SHIPPED, SupportRequest())
    ensures SupportRequest().fields == map[PAN := "0000000000000000"][ISSUER_DATA := "SUPPORT"]
    ensures SupportRequest().mti == "0200"
  {
    BareOk(SHIPPED, "0200");
    Adds(SHIPPED, Bare("0200"), PAN, "0000000000000000");
    Adds(SHIPPED, MarkAndSet(Bare("0200"), PAN, "0000000000000000"), ISSUER_DATA, "SUPPORT");
    hide WellFormed;
    hide MarkAndSet;
  }

  /** Its response carries DE4 without marking it, so it does not parse back. */
  lemma PartialApprovalWithoutAmount(now: string, roll: nat)
    requires |now| == 6
    ensures WellFormed(SHIPPED, SupportRequest()) && Response(SupportRequest(), now, roll).Some?
    ensures !WellFormed(SHIPPED, Response(SupportRequest(), now, roll).value)
  {
    var m := SupportRequest();
    SupportRequestOk();
    hide SupportRequest;
    ShippedFields();
    SupportHasNoTag();
    SupportCode(m, roll);
    ResponseFails(m, now, roll);
    CrashesOnText("SUPPORT", "AV");
    CrashesOnText("SUPPORT", "CV");
    hide CodeFor;
    hide Index;
    hide NegativeLength;
    hide WellFormed;
    hide IssuerFields;
    assert GetField(m.fields, ISSUER_DATA) == "SUPPORT";
    ResponseExact(SHIPPED, m, now, roll);
    hide Response;
    hide OnlyOverrides;
    hide AmountsOk;
  }

  lemma SupportHasNoTag()
    ensures Index("SUPPORT", "AV") == -1 && Index("SUPPORT", "CV") == -1
  {
    var s := "SUPPORT";
    assert s[0] == 'S' && s[1] == 'U' && s[2] == 'P' && s[3] == 'P' && s[4] == 'O' && s[5] == 'R' && s[6] == 'T';
    NoMatch(s, "AV");
    NoMatch(s, "CV");
  }

  lemma SupportCode(m: Msg, roll: nat)
    requires m.fields == map[PAN := "0000000000000000"][ISSUER_DATA := "SUPPORT"]
    ensures CodeFor(m, roll) == "10"
  {
    MatchAtStart("SUPPORT", "SUPPORT");
    hide Index;
    hide ParseAmount;
  }

  /** A well-formed template without DE37 is sent with a reference it does not mark. */
  lemma TemplateWithoutReference(card: Card, reference: string)
    requires |reference| == 12
    ensures WellFormed(SHIPPED, Bare("0200")) && !WellFormed(SHIPPED, Personalise(Bare("0200"), card, reference))
  {
    BareOk(SHIPPED, "0200");
    ShippedFields();
    hide WellFormed;
    hide CvHasRoom;
    hide CardSuits;
    hide RequestFields;
    PersonaliseExact(SHIPPED, Bare("0200"), card, reference);
    hide Personalise;
  }

  /** So is the refund of a well-formed sale without DE37. */
  lemma SaleWithoutReference(reference: string, stamp: string)
    requires |reference| == 12 && |stamp| == 10
    ensures var m := MarkAndSet(Bare("0200"), PROCESSING_CODE, "000000");
            && WellFormed(SHIPPED, m) && RefundMessage(m, reference, stamp).Some?
            && !WellFormed(SHIPPED, RefundMessage(m, reference, stamp).value)
  {
    BareOk(SHIPPED, "0200");
    Adds(SHIPPED, Bare("0200"), PROCESSING_CODE, "000000");
    ShippedFields();
    hide WellFormed;
    hide MarkAndSet;
    hide RequestFields;
    RefundExact(SHIPPED, MarkAndSet(Bare("0200"), PROCESSING_CODE, "000000"), reference, stamp);
    hide RefundMessage;
  }

  // ---------------------------------------------------------------- a rewritten tag that no longer fits

  /** A full DE123 whose CV tag begins at its character 995. */
  function FullData(): string {
    seq(995, i => ' ') + "CV05"
  }

  lemma TagAtTheEnd()
    ensures Index(FullData(), "CV") == 995 && Substr(FullData(), 997, 2) == "05"
    ensures |FullData()| == 999 && forall cvv2: string :: !CvHasRoom(FullData(), cvv2)
  {
    var s := FullData();
    assert s[995..997] == "CV" && s[997..999] == "05";
    assert MatchAt(s, "CV", 995);
    forall j | 0 <= j < 995 ensures !MatchAt(s, "CV", j) {
      assert s[j..j + 2][0] == s[j] == ' ';
    }
    assert s[996..998][0] == 'V' && s[997..999][0] == '0';
  }

  /** Personalising a well-formed template with that field, with any card, gives a message that is not well
      formed. */
  lemma RewriteOverflows(card: Card, reference: string)
    requires |reference| == 12
    ensures var m := MarkAndSet(MarkAndSet(Bare("0200"), REFERENCE, "000000000000"), ISSUER_DATA, FullData());
            WellFormed(SHIPPED, m) && !WellFormed(SHIPPED, Personalise(m, card, reference))
  {
    var n := MarkAndSet(Bare("0200"), REFERENCE, "000000000000");
    var m := MarkAndSet(n, ISSUER_DATA, FullData());
    TagAtTheEnd();
    ShippedFields();
    BareOk(SHIPPED, "0200");
    Adds(SHIPPED, Bare("0200"), REFERENCE, "000000000000");
    Adds(SHIPPED, n, ISSUER_DATA, FullData());
    hide WellFormed;
    hide MarkAndSet;
    hide CvHasRoom;
    hide FullData;
    hide CardSuits;
    hide RequestFields;
    PersonaliseExact(SHIPPED, m, card, reference);
    hide Personalise;
  }

  // ---------------------------------------------------------------- statistics

  /** With one answered request and a negative time, the overall maximum is zero. */
  lemma NegativeTimes(x: Stats.Summary)
    requires Stats.Summarises(x, [Stats.Sample("0200", Some(-5))], Some(0))
    ensures x.latency.max == 0 && x.latency.min == -5
  {
    Stats.OneTime(Stats.Sample("0200", Some(-5)));
    assert Stats.Times([Stats.Sample("0200", Some(-5))]) == [-5];
  }

  function Purchase(reference: string): Entry {
    Entry(1, 0, reference, "c", Some("0200"), "", "", "", "", "", None)
  }

  function AnsweredAfter(reference: string, ms: int): Row {
    Row(Purchase(reference), Some(ms * 1_000_000), Some(ms), Some("00"), Some(""))
  }

  /** Tables with one answered purchase of test 1, which took 5 ms. */
  function Tables(): Db {
    Db(map[1 := AnsweredAfter("a", 5)], 2, map[], 1)
  }

  /** A second purchase is logged, and answered after 3 ms. */
  function Between(): seq<Op> {
    [AddRequestLog(Purchase("b"))] + [UpdateResponseTime("b", "c", "0200", 0, 3_000_000, "00", "")]
  }

  lemma TablesAfter()
    ensures ApplyAll(Tables(), Between()) ==
            Db(map[1 := AnsweredAfter("a", 5), 2 := AnsweredAfter("b", 3)], 3, map[], 1)
  {
    var add, update := AddRequestLog(Purchase("b")), UpdateResponseTime("b", "c", "0200", 0, 3_000_000, "00", "");
    ApplyAllSnoc(Tables(), [add], update);
    ApplyAllSnoc(Tables(), [], add);
    assert [] + [add] == [add];
    assert ApplyAll(Tables(), []) == Tables();
    hide ApplyAll;
    var d := Apply(Tables(), add);
    assert d.rows == map[1 := AnsweredAfter("a", 5), 2 := Row(Purchase("b"), None, None, None, None)];
    assert "a"[0] != "b"[0];
    assert Apply(d, update).rows == map[1 := AnsweredAfter("a", 5), 2 := AnsweredAfter("b", 3)];
  }

  lemma Snapshots()
    ensures Stats.Snapshot(Tables(), 1) == [Stats.Sample("0200", Some(5))]
    ensures Stats.Snapshot(ApplyAll(Tables(), Between()), 1) ==
            [Stats.Sample("0200", Some(5)), Stats.Sample("0200", Some(3))]
  {
    TablesAfter();
    var one := map[1 := AnsweredAfter("a", 5)];
    var two := map[1 := AnsweredAfter("a", 5), 2 := AnsweredAfter("b", 3)];
    assert Stats.SamplesBelow(one, 1, 0) == [] && Stats.SamplesBelow(two, 1, 0) == [];
    assert Stats.SamplesBelow(one, 1, 1) == [] && Stats.SamplesBelow(two, 1, 1) == [];
    assert Stats.SamplesBelow(one, 1, 2) == [Stats.Sample("0200", Some(5))];
    assert Stats.SamplesBelow(two, 1, 2) == [Stats.Sample("0200", Some(5))];
    hide ApplyAll;
  }

  lemma TwoTimes(a: int, b: int)
    ensures Stats.Times([Stats.Sample("0200", Some(a)), Stats.Sample("0200", Some(b))]) == [a, b]
    ensures Stats.Times([Stats.Sample("0200", Some(a))]) == [a]
  {
    var x, y := Stats.Sample("0200", Some(a)), Stats.Sample("0200", Some(b));
    Stats.OneTime(x);
    Stats.OneTime(y);
    Stats.TimesConcat([x], [y]);
    assert [x, y] == [x] + [y];
  }

  /** With that row committed between the two reads, the median reported is below the minimum reported. */
  lemma OrderBroken(x: Stats.Summary)
    requires Stats.Summarises(x, Stats.Snapshot(Tables(), 1), Some(0))
    ensures var later := Stats.Snapshot(ApplyAll(Tables(), Between()), 1);
            var rows := [Stats.Sample("0200", Some(3)), Stats.Sample("0200", Some(5))];
            && Stats.SortedRead(rows, later) && !Stats.StaysInOrder(Stats.Snapshot(Tables(), 1), later, Some(0))
            && Stats.SetPercentiles(x.latency, Stats.Times(rows)).p50 < x.latency.min
  {
    Snapshots();
    TwoTimes(3, 5);
    TwoTimes(5, 3);
    hide ApplyAll;
    hide Stats.Snapshot;
    hide Stats.Times;
    var low, high := Stats.Sample("0200", Some(3)), Stats.Sample("0200", Some(5));
    var up, down: seq<Stats.Sample> := [low, high], [high, low];
    assert multiset(up) == multiset(down);
    assert Stats.Rank(2, 50, 100) == 1;
    assert Stats.AtMost([5], 4) == 0 && Stats.AtMost([5, 3], 4) == 1 by {
      Stats.AtMostConcat([5], [3], 4);
      assert [5, 3] == [5] + [3];
      assert [5][..0] == [] && [3][..0] == [];
    }
    hide Stats.AtMost;
  }
}
