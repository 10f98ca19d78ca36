/** How a reply finds its request: references (utils/helper.go), reply type identifiers and match keys
    (network/server/iso_server.go, network/server/iso_response_handler.go). */
module Matching {
  import opened Wrappers
  import opened Numerals

  // ---------------------------------------------------------------- references

  const REFERENCE_LIMIT := 1_000_000_000_000

  /** The reference printed for counter value n: its low twelve decimal digits. */
  function Reference(n: nat): string {
    PadDecimal(n % REFERENCE_LIMIT, 12)
  }

  lemma ReferenceLimit()
    ensures Pow(10, 12) == REFERENCE_LIMIT
  {
    assert Pow(10, 4) == 10000;
    assert Pow(10, 8) == 1_0000_0000;
  }

  lemma ReferencePrinted(n: nat)
    ensures Reference(n) == Numeral(n % REFERENCE_LIMIT, 10, 12)
    ensures n % REFERENCE_LIMIT < Pow(10, 12)
  {
    ReferenceLimit();
    PowExceeds(10, 12);
    hide Numeral;
  }

  /** Every reference is exactly twelve decimal digits: those of its counter value modulo 10^12. */
  lemma ReferenceShape(n: nat)
    ensures |Reference(n)| == 12 && IsNumeral(Reference(n), 10)
    ensures Value(Reference(n), 10) == n % 1_000_000_000_000
  {
    hide Reference;
    ReferencePrinted(n);
    ValueOfNumeral(n % REFERENCE_LIMIT, 10, 12);
  }

  /** Two counter values print the same reference exactly when they are congruent modulo 10^12, so any
      fewer than 10^12 consecutive draws are pairwise distinct. */
  lemma ReferencesDistinct(m: nat, n: nat)
    ensures Reference(m) == Reference(n) <==> m % REFERENCE_LIMIT == n % REFERENCE_LIMIT
    ensures m < n < m + REFERENCE_LIMIT ==> Reference(m) != Reference(n)
  {
    hide Reference;
    hide Numeral;
    ReferencePrinted(m);
    ReferencePrinted(n);
    if Reference(m) == Reference(n) {
      NumeralInjective(m % REFERENCE_LIMIT, n % REFERENCE_LIMIT, 10, 12);
    }
    assert m == m / REFERENCE_LIMIT * REFERENCE_LIMIT + m % REFERENCE_LIMIT;
    assert n == n / REFERENCE_LIMIT * REFERENCE_LIMIT + n % REFERENCE_LIMIT;
  }

  /** The process-wide atomic counter behind the references. */
  class ReferenceCounter {
    var count: nat

    constructor (seed: nat)
      ensures count == seed
    {
      count := seed;
    }

    method GenerateTimestampID() returns (id: string)
      modifies this
      ensures count == old(count) + 1 && id == Reference(count)
      ensures |id| == 12 && IsNumeral(id, 10)
    {
      count := count + 1;
      id := PadDecimal(count % REFERENCE_LIMIT, 12);
      ReferenceShape(count);
    }
  }

  // ---------------------------------------------------------------- match keys

  /** c &^ 1 */
  function ClearLowBit(c: char): char {
    (c as int - c as int % 2) as char
  }

  function MatchKey(mti: string, reference: string): string
    requires 4 <= |mti|
  {
    mti[..2] + [ClearLowBit(mti[2])] + [mti[3]] + "|" + reference
  }

  /** The key determines the reference, and the type identifier up to the low bit of its third character. */
  lemma MatchKeyDetermines(mtiA: string, refA: string, mtiB: string, refB: string)
    requires |mtiA| == |mtiB| == 4
    ensures MatchKey(mtiA, refA) == MatchKey(mtiB, refB) <==>
            && refA == refB && mtiA[..2] == mtiB[..2]
            && ClearLowBit(mtiA[2]) == ClearLowBit(mtiB[2]) && mtiA[3] == mtiB[3]
  {
    var a, b := MatchKey(mtiA, refA), MatchKey(mtiB, refB);
    assert a[5..] == refA && b[5..] == refB;
    assert a[..2] == mtiA[..2] && b[..2] == mtiB[..2];
    if a == b {
      assert a[2] == b[2] && a[3] == b[3];
    }
  }

  // ---------------------------------------------------------------- dispatch and reply type identifiers

  /** The type identifiers the read loop answers. */
  predicate IsRequestMti(mti: string) {
    mti in ["0100", "0101", "0200", "0201", "0420", "0421", "0800"]
  }

  const RESPONSE_MTIS := ["0110", "0111", "0130", "0131", "0210", "0211", "0230", "0231", "0430", "0431", "0810"]

  /** The type identifiers the read loop matches with a request it has sent; it drops all others. */
  predicate IsResponseMti(mti: string): (b: bool)
    ensures b ==> |mti| == 4
  {
    mti in RESPONSE_MTIS
  }

  /** (n & 0xFFFE) + 10, printed with at least four digits; text that is no number counts as 0. */
  function ToResponseMTI(mti: string): (reply: string)
    ensures 4 <= |reply|
  {
    var n := if Atoi(mti).Some? then Atoi(mti).value else 0;
    PadDecimal(n % 0x1_0000 - n % 2 + 10, 4)
  }

  predicate EvenDigit(c: char) {
    c in {'0', '2', '4', '6', '8'}
  }

  lemma FourDigits(a: nat, b: nat, c: nat, d: nat)
    requires a < 10 && b < 10 && c < 10 && d < 10
    ensures PadDecimal(a * 1000 + b * 100 + c * 10 + d, 4) == [DIGITS[a], DIGITS[b], DIGITS[c], DIGITS[d]]
  {
    hide Numeral;
    hide PadDecimal;
    hide DIGITS;
    SmallPowers();
    PadFits(a * 1000 + b * 100 + c * 10 + d, 4);
    NumeralSnoc(0, a, 10, 0);
    NumeralSnoc(a, b, 10, 1);
    NumeralSnoc(a * 10 + b, c, 10, 2);
    NumeralSnoc(a * 100 + b * 10 + c, d, 10, 3);
  }

  lemma FiveDigits(d: nat)
    requires d < 10
    ensures 4 <= |PadDecimal(10000 + d, 4)| && PadDecimal(10000 + d, 4)[0] == '1'
  {
    SmallPowers();
    assert Pow(10, 5) == 10 * Pow(10, 4);
    PowExceeds(10, 4);
    PadFits(10000 + d, 5);
    assert PadDecimal(10000 + d, 4) == Numeral(10000 + d, 10, 5);
    NumeralSnoc(0, 1, 10, 0);
    NumeralSnoc(1, 0, 10, 1);
    NumeralSnoc(10, 0, 10, 2);
    NumeralSnoc(100, 0, 10, 3);
    NumeralSnoc(1000, d, 10, 4);
    assert Numeral(0, 10, 0) == "" && DIGITS[1] == '1';
    hide Numeral;
    hide DIGITS;
  }

  function Digit(c: char): nat
    requires '0' <= c <= '9'
  {
    c as int - '0' as int
  }

  predicate FourDecimals(mti: string) {
    |mti| == 4 && forall i :: 0 <= i < 4 ==> '0' <= mti[i] <= '9'
  }

  lemma AtoiOfFour(mti: string)
    requires FourDecimals(mti)
    ensures Atoi(mti) ==
            Some(Digit(mti[0]) * 1000 + Digit(mti[1]) * 100 + Digit(mti[2]) * 10 + Digit(mti[3]))
  {
    assert forall i :: 0 <= i < 4 ==> DigitValue(mti[i]) == Digit(mti[i]);
    assert mti == "" + [mti[0]] + [mti[1]] + [mti[2]] + [mti[3]];
    ValueSnoc("", mti[0], 10);
    ValueSnoc("" + [mti[0]], mti[1], 10);
    ValueSnoc("" + [mti[0]] + [mti[1]], mti[2], 10);
    ValueSnoc("" + [mti[0]] + [mti[1]] + [mti[2]], mti[3], 10);
    assert mti[0] != '+' && mti[0] != '-';
  }

  /** The characters of the reply number, from the digits a, b, c, d of the request. */
  function ReplyDigits(a: nat, b: nat, c: nat, d: nat): seq<nat> {
    var e := d - d % 2;
    if c < 9 then [a, b, c + 1, e]
    else if b < 9 then [a, b + 1, 0, e]
    else [a + 1, 0, 0, e]
  }

  lemma ReplyNumber(a: nat, b: nat, c: nat, d: nat)
    requires a < 10 && b < 10 && c < 10 && d < 10
    ensures var n := a * 1000 + b * 100 + c * 10 + d;
            var r := ReplyDigits(a, b, c, d);
            n % 0x1_0000 - n % 2 + 10 == r[0] * 1000 + r[1] * 100 + r[2] * 10 + r[3]
  {
    var n := a * 1000 + b * 100 + c * 10 + d;
    assert n % 0x1_0000 == n && n % 2 == d % 2;
  }

  lemma ReplyOfNumber(mti: string, n: nat, v: nat)
    requires Atoi(mti) == Some(n) && v == n % 0x1_0000 - n % 2 + 10
    ensures ToResponseMTI(mti) == PadDecimal(v, 4)
  {
    hide Atoi;
    hide PadDecimal;
  }

  /** Four digits as printed; a leading ten, with zeros after it, prints as five. */
  lemma PaddedDigits(a: nat, b: nat, c: nat, d: nat)
    requires b < 10 && c < 10 && d < 10 && (a < 10 || (a == 10 && b == 0 && c == 0))
    ensures var text := PadDecimal(a * 1000 + b * 100 + c * 10 + d, 4);
            if a < 10 then
              |text| == 4 && text[0] as int == '0' as int + a && text[1] as int == '0' as int + b &&
              text[2] as int == '0' as int + c && text[3] as int == '0' as int + d
            else text[0] == '1'
  {
    hide PadDecimal;
    if a < 10 {
      FourDigits(a, b, c, d);
      DecimalDigit(a);
      DecimalDigit(b);
      DecimalDigit(c);
      DecimalDigit(d);
      hide DIGITS;
    } else {
      FiveDigits(d);
    }
  }

  lemma ReplyText(mti: string, a: nat, b: nat, c: nat, d: nat)
    requires FourDecimals(mti)
    requires a == Digit(mti[0]) && b == Digit(mti[1]) && c == Digit(mti[2]) && d == Digit(mti[3])
    ensures var reply := ToResponseMTI(mti);
            var r := ReplyDigits(a, b, c, d);
            if r[0] < 10 then
              |reply| == 4 && reply[0] as int == '0' as int + r[0] && reply[1] as int == '0' as int + r[1] &&
              reply[2] as int == '0' as int + r[2] && reply[3] as int == '0' as int + r[3]
            else reply[0] == '1' && mti[0] == '9' && c == 9
  {
    hide Atoi;
    hide PadDecimal;
    AtoiOfFour(mti);
    ReplyNumber(a, b, c, d);
    var r := ReplyDigits(a, b, c, d);
    ReplyOfNumber(mti, a * 1000 + b * 100 + c * 10 + d, r[0] * 1000 + r[1] * 100 + r[2] * 10 + r[3]);
    hide ToResponseMTI;
    PaddedDigits(r[0], r[1], r[2], r[3]);
  }

  /** A request is matched by the reply built for it exactly when the third and last digits of its type
      identifier are even; and then by no reply that carries another reference. */
  lemma ReplyMatches(mti: string, reference: string, other: string)
    requires FourDecimals(mti)
    ensures MatchKey(ToResponseMTI(mti), other) == MatchKey(mti, reference) <==>
            other == reference && EvenDigit(mti[2]) && EvenDigit(mti[3])
  {
    hide ToResponseMTI;
    var a, b, c, d := Digit(mti[0]), Digit(mti[1]), Digit(mti[2]), Digit(mti[3]);
    var reply := ToResponseMTI(mti);
    ReplyText(mti, a, b, c, d);
    assert EvenDigit(mti[2]) <==> c % 2 == 0;
    assert EvenDigit(mti[3]) <==> d % 2 == 0;
    hide MatchKey;
    if ReplyDigits(a, b, c, d)[0] < 10 {
      MatchKeyDetermines(reply, other, mti, reference);
      assert c < 9 ==> reply[..2] == mti[..2];
    } else {
      FirstOfKey(reply, other);
      FirstOfKey(mti, reference);
    }
  }

  // ---------------------------------------------------------------- which requests can be answered

  /** The requests with the keys of the response types, in the same order. */
  const ANSWERED_MTIS := ["0100", "0101", "0120", "0121", "0200", "0201", "0220", "0221", "0420", "0421", "0800"]

  /** Some message the read loop treats as a response has the key of this request. */
  predicate Answerable(mti: string) {
    mti in ANSWERED_MTIS || mti in RESPONSE_MTIS
  }

  lemma ResponseShape(i: nat)
    requires i < |RESPONSE_MTIS|
    ensures |RESPONSE_MTIS[i]| == |ANSWERED_MTIS[i]| == 4
    ensures RESPONSE_MTIS[i][2] as int % 2 == 1
    ensures ANSWERED_MTIS[i] == RESPONSE_MTIS[i][2 := ClearLowBit(RESPONSE_MTIS[i][2])]
  {}

  /** A response type has the key of itself and of the type before it in its third digit, and of no other. */
  lemma KeyOfResponse(i: nat, mti: string, reference: string)
    requires i < |RESPONSE_MTIS| && |mti| == 4
    ensures |RESPONSE_MTIS[i]| == 4
    ensures MatchKey(RESPONSE_MTIS[i], reference) == MatchKey(mti, reference) <==>
            mti == RESPONSE_MTIS[i] || mti == ANSWERED_MTIS[i]
  {
    ResponseShape(i);
    var resp, req := RESPONSE_MTIS[i], ANSWERED_MTIS[i];
    hide RESPONSE_MTIS;
    hide ANSWERED_MTIS;
    MatchKeyDetermines(resp, reference, mti, reference);
    hide MatchKey;
    assert ClearLowBit(mti[2]) == ClearLowBit(resp[2]) <==> mti[2] == resp[2] || mti[2] == ClearLowBit(resp[2]);
    hide ClearLowBit;
    assert mti[..2] == resp[..2] <==> mti[0] == resp[0] && mti[1] == resp[1];
    assert mti == resp <==> forall k :: 0 <= k < 4 ==> mti[k] == resp[k];
    assert mti == req <==> forall k :: 0 <= k < 4 ==> mti[k] == req[k];
  }

  /** A request can be matched at all exactly when its type is one of these; a reversal of type 0400 or 0401
      is not, so it stays unanswered whatever the peer sends. */
  lemma AnswerableExactly(mti: string, reference: string)
    requires |mti| == 4
    ensures (exists resp :: IsResponseMti(resp) && MatchKey(resp, reference) == MatchKey(mti, reference)) <==>
            Answerable(mti)
    ensures !Answerable("0400") && !Answerable("0401")
  {
    hide MatchKey;
    if resp :| IsResponseMti(resp) && MatchKey(resp, reference) == MatchKey(mti, reference) {
      var i :| 0 <= i < |RESPONSE_MTIS| && RESPONSE_MTIS[i] == resp;
      KeyOfResponse(i, mti, reference);
    }
    if Answerable(mti) {
      var i :| 0 <= i < |RESPONSE_MTIS| && (RESPONSE_MTIS[i] == mti || ANSWERED_MTIS[i] == mti);
      KeyOfResponse(i, mti, reference);
      assert IsResponseMti(RESPONSE_MTIS[i]);
    }
  }

  /** The requests whose computed replies are handled. */
  const HANDLED_MTIS := ["0100", "0120", "0200", "0220", "0420", "0800"]

  lemma HandledDigits(mti: string)
    requires mti in HANDLED_MTIS
    ensures |mti| == 4 && EvenDigit(mti[2]) && EvenDigit(mti[3])
  {}

  lemma EvenReply(mti: string, reply: string)
    requires FourDecimals(mti) && |reply| == 4 && EvenDigit(mti[3])
    requires reply[0] == mti[0] && reply[1] == mti[1] && reply[2] as int == mti[2] as int + 1 && reply[3] == mti[3]
    ensures IsResponseMti(reply) <==> mti in HANDLED_MTIS
  {
    if i :| 0 <= i < |RESPONSE_MTIS| && RESPONSE_MTIS[i] == reply {
      assert mti == [mti[0], mti[1], mti[2], mti[3]];
    }
    if mti in HANDLED_MTIS {
      assert reply == [reply[0], reply[1], reply[2], reply[3]];
    }
  }

  lemma ReplyOfEven(mti: string)
    requires FourDecimals(mti) && EvenDigit(mti[2]) && EvenDigit(mti[3])
    ensures var reply := ToResponseMTI(mti);
            && |reply| == 4 && reply[0] == mti[0] && reply[1] == mti[1]
            && reply[2] as int == mti[2] as int + 1 && reply[3] == mti[3]
  {
    ReplyText(mti, Digit(mti[0]), Digit(mti[1]), Digit(mti[2]), Digit(mti[3]));
    hide ToResponseMTI;
  }

  /** The reply computed for a request is both taken for a response and matched with it exactly for six
      types. */
  lemma ReplyHandled(mti: string, reference: string)
    requires FourDecimals(mti)
    ensures IsResponseMti(ToResponseMTI(mti)) && MatchKey(ToResponseMTI(mti), reference) == MatchKey(mti, reference)
            <==> mti in HANDLED_MTIS
  {
    ReplyMatches(mti, reference, reference);
    if EvenDigit(mti[2]) && EvenDigit(mti[3]) {
      ReplyOfEven(mti);
      EvenReply(mti, ToResponseMTI(mti));
    } else if mti in HANDLED_MTIS {
      HandledDigits(mti);
    }
    hide MatchKey;
    hide ToResponseMTI;
    hide IsResponseMti;
  }

  // ---------------------------------------------------------------- the two lists

  predicate LowDigit(c: char) {
    c == '0' || c == '1'
  }

  /** Written out digit by digit: the read loop takes these types for responses. */
  lemma ResponseTypes(mti: string)
    ensures IsResponseMti(mti) <==>
            || mti == "0810"
            || (|mti| == 4 && mti[0] == '0' && LowDigit(mti[3]) &&
                (mti[1..3] in ["11", "13", "21", "23", "43"]))
  {
    if |mti| == 4 {
      assert mti == [mti[0], mti[1], mti[2], mti[3]];
      assert mti[1..3] == [mti[1], mti[2]];
    }
  }

  /** Each request type the read loop answers gets a reply of a response type. The requests with such a reply
      that it does not answer are the advices and 0801. */
  lemma RequestsAreReplied(mti: string)
    requires FourDecimals(mti)
    ensures IsRequestMti(mti) <==>
            && IsResponseMti(ToResponseMTI(mti))
            && mti[..3] != "012" && mti[..3] != "022" && mti != "0801"
  {
    var a, b, c, d := Digit(mti[0]), Digit(mti[1]), Digit(mti[2]), Digit(mti[3]);
    var reply := ToResponseMTI(mti);
    ReplyText(mti, a, b, c, d);
    hide ToResponseMTI;
    ResponseTypes(reply);
    hide IsResponseMti;
    if ReplyDigits(a, b, c, d)[0] < 10 {
      ReplyTypes(mti, reply, a, b, c, d);
    } else {
      assert reply[0] == '1' && mti[0] == '9';
    }
  }

  lemma ReplyTypes(mti: string, reply: string, a: nat, b: nat, c: nat, d: nat)
    requires FourDecimals(mti)
    requires a == Digit(mti[0]) && b == Digit(mti[1]) && c == Digit(mti[2]) && d == Digit(mti[3])
    requires var r := ReplyDigits(a, b, c, d);
             && r[0] < 10 && |reply| == 4 && reply[0] as int == '0' as int + r[0]
             && reply[1] as int == '0' as int + r[1] && reply[2] as int == '0' as int + r[2]
             && reply[3] as int == '0' as int + r[3]
    ensures IsRequestMti(mti) <==>
            && (|| reply == "0810"
                || (reply[0] == '0' && LowDigit(reply[3]) && (reply[1..3] in ["11", "13", "21", "23", "43"])))
            && mti[..3] != "012" && mti[..3] != "022" && mti != "0801"
  {
    assert mti == [mti[0], mti[1], mti[2], mti[3]];
    assert mti[..3] == [mti[0], mti[1], mti[2]];
    assert reply == [reply[0], reply[1], reply[2], reply[3]];
    assert reply[1..3] == [reply[1], reply[2]];
  }

  lemma FirstOfKey(mti: string, reference: string)
    requires 4 <= |mti|
    ensures MatchKey(mti, reference) != "" && MatchKey(mti, reference)[0] == mti[0]
  {}

  lemma DecimalDigit(d: nat)
    requires d < 10
    ensures DIGITS[d] as int == '0' as int + d
  {}
}
