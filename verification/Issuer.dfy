/** The simulated issuer's answer to a request (network/server/iso_response_handler.go). */
module Issuer {
  import opened Wrappers
  import opened Numerals
  import opened Codec
  import opened Message
  import opened Matching
  import opened Tags

  /** The widths the issuer's own fields rely on; the shipped specification has them. */
  predicate IssuerFields(spec: Spec) {
    && (forall n :: n in {4, 38, 39, 49, 54, 123} ==> n in spec)
    && spec[4] == FieldDef(Fixed, 12)
    && spec[38] == FieldDef(Fixed, 6)
    && spec[39] == FieldDef(Fixed, 2)
    && spec[49] == FieldDef(Fixed, 3)
    && spec[54].fieldType == LLLVar
    && spec[123].fieldType == LLLVar
  }

  // ---------------------------------------------------------------- amounts

  function TrimLeft(s: string, c: char): string {
    if s != "" && s[0] == c then TrimLeft(s[1..], c) else s
  }

  function TrimRight(s: string, c: char): string {
    if s != "" && s[|s| - 1] == c then TrimRight(s[..|s| - 1], c) else s
  }

  /** strconv.ParseInt after dropping leading zeros; text that is no number counts as 0. */
  function ParseAmount(amount: string): int {
    var n := Atoi(TrimLeft(amount, '0'));
    if n.Some? then n.value else 0
  }

  /** Go's integer division: towards zero. */
  function TruncDiv(a: int, b: nat): int
    requires b > 0
  {
    if a >= 0 then a / b else -((-a) / b)
  }

  /** %012d; the sign takes one of the twelve places. */
  function Amount12(n: int): string {
    if n >= 0 then PadDecimal(n, 12) else "-" + PadDecimal(-n, 11)
  }

  function AdditionalAmount(accountType: string, amountType: string, currency: string, amount: int): string {
    accountType + amountType + currency + "C" + Amount12(amount)
  }

  // ---------------------------------------------------------------- codes

  /** The code picked by the PAN's sixteenth digit; roll stands for the random choice in a list. */
  function ResponseCode(pan: string, amount: string, field123: string, roll: nat): (code: string)
    ensures |code| == 2
  {
    if |pan| < 16 || !('0' <= pan[15] <= '9') then "96"
    else
      var digit := pan[15] as int - '0' as int;
      CodeFromDigit(if digit == 7 && ParseAmount(amount) == 0 then 0 else digit, field123, roll)
  }

  predicate Contains(s: string, t: string) {
    Index(s, t) != -1
  }

  function CodeFromDigit(digit: int, field123: string, roll: nat): (code: string)
    ensures |code| == 2
  {
    if 0 <= digit <= 4 then (if Contains(field123, "SUPPORT") then "10" else "00")
    else if digit == 5 then "00"
    else if digit == 6 then ["05", "06", "07"][roll % 3]
    else if digit == 7 then "51"
    else if digit == 8 then ["34", "33", "35"][roll % 3]
    else if digit == 9 then ["SA", "SB", "SD", "SR", "T3", "T4", "T5"][roll % 7]
    else "96"
  }

  function AvsResult(field123: string): (r: Option<string>)
    ensures r.Some? ==> |r.value| == 1
  {
    match ExtractTag(field123, "AV")
    case None => None
    case Some(avData) =>
      if |avData| < 9 then Some("E")
      else
        var zip := TrimRight(avData[..9], ' ');
        var street := avData[9..];
        var zip9 := |zip| == 9 && zip[0] == '9';
        var zip5 := |zip| >= 5 && zip[0] in {'5', '3'};
        var hasStreet := street != "" && '0' <= street[0] <= '9';
        Some(if zip9 && hasStreet then "X"
             else if zip5 && hasStreet then "Y"
             else if zip5 then "Z"
             else if zip9 then "W"
             else if hasStreet then "A"
             else "N")
  }

  function CvvResult(field123: string): (r: Option<string>)
    ensures r.Some? ==> |r.value| == 1
  {
    match ExtractTag(field123, "CV")
    case None => None
    case Some(cvVal) =>
      Some(if |cvVal| >= 3 && cvVal[|cvVal| - 3..] == "949" then "M"
           else if cvVal == "838" then "P"
           else "N")
  }

  function BuildField123(ar: string, cr: string): string {
    "TDAR01" + ar + "CR01" + cr
  }

  /** DE123 of an answer, read with the same tag reader, gives the two results. */
  lemma Field123ReadsBack(ar: string, cr: string)
    requires |ar| == 1 && |cr| == 1
    ensures |BuildField123(ar, cr)| == 12 && BuildField123(ar, cr)[..2] == "TD"
    ensures ExtractTag(BuildField123(ar, cr), "AR") == Some(ar)
    ensures ExtractTag(BuildField123(ar, cr), "CR") == Some(cr)
  {
    hide ExtractTag;
    hide Index;
    var t := BuildField123(ar, cr);
    assert t == ['T', 'D', 'A', 'R', '0', '1', ar[0], 'C', 'R', '0', '1', cr[0]];
    ReadsOne(t, "AR", 2);
    ReadsOne(t, "CR", 7);
    assert t[6..7] == ar && t[11..12] == cr;
  }

  /** A tag of length 01 whose two letters are not found earlier. */
  lemma ReadsOne(t: string, tag: string, at: nat)
    requires |tag| == 2 && at + 5 <= |t| && t[at] == tag[0] && t[at + 1] == tag[1]
    requires t[at + 2] == '0' && t[at + 3] == '1'
    requires forall j :: 0 <= j < at ==> t[j] != tag[0] || t[j + 1] != tag[1]
    ensures ExtractTag(t, tag) == Some(t[at + 4..at + 5])
  {
    assert t[at..at + 2] == tag;
    assert MatchAt(t, tag, at);
    var ind := Index(t, tag);
    assert t[ind..ind + 2][0] == t[ind] && t[ind..ind + 2][1] == t[ind + 1];
    assert ind == at;
    assert t[at + 2..at + 4] == "01";
    OneOfText();
    hide Index;
    hide Atoi;
  }

  lemma OneOfText()
    ensures Atoi("01") == Some(1)
  {
    OneDigit("0");
    ValueSnoc("0", '1', 10);
    assert "01" == "0" + ['1'];
    hide Value;
  }

  lemma {:induction false} TrimRightExactly(s: string, c: char)
    ensures var r := TrimRight(s, c);
            && |r| <= |s| && r == s[..|r|]
            && (r != "" ==> s[|r| - 1] != c)
            && forall k :: |r| <= k < |s| ==> s[k] == c
  {
    if s != "" && s[|s| - 1] == c {
      TrimRightExactly(s[..|s| - 1], c);
    }
  }

  /** The address result by the characters of the AV value: a zip code of nine starts with 9 and fills nine
      places, one of five starts with 3 or 5 and fills at least five, a street starts with a digit. */
  lemma AvsExactly(field123: string)
    requires ExtractTag(field123, "AV").Some?
    ensures var v := ExtractTag(field123, "AV").value;
            && AvsResult(field123).Some?
            && (AvsResult(field123).value == "E" <==> |v| < 9)
            && (|v| >= 9 ==>
                  var nine := v[0] == '9' && v[8] != ' ';
                  var five := (v[0] == '5' || v[0] == '3') &&
                              !(v[4] == ' ' && v[5] == ' ' && v[6] == ' ' && v[7] == ' ' && v[8] == ' ');
                  var street := |v| > 9 && '0' <= v[9] <= '9';
                  var r := AvsResult(field123).value;
                  && (r == "X" <==> nine && street) && (r == "W" <==> nine && !street)
                  && (r == "Y" <==> five && street) && (r == "Z" <==> five && !street)
                  && (r == "A" <==> !nine && !five && street) && (r == "N" <==> !nine && !five && !street))
  {
    hide ExtractTag;
    var v := ExtractTag(field123, "AV").value;
    if |v| >= 9 {
      TrimRightExactly(v[..9], ' ');
      hide TrimRight;
    }
  }

  /** The verification result by the end of the CV value. */
  lemma CvvExactly(field123: string)
    requires ExtractTag(field123, "CV").Some?
    ensures var v := ExtractTag(field123, "CV").value;
            && CvvResult(field123).Some?
            && (CvvResult(field123).value == "M" <==>
                |v| >= 3 && v[|v| - 3] == '9' && v[|v| - 2] == '4' && v[|v| - 1] == '9')
            && (CvvResult(field123).value == "P" <==> v == "838")
            && (CvvResult(field123).value in {"M", "P", "N"})
  {
    hide ExtractTag;
    var v := ExtractTag(field123, "CV").value;
    assert |v| >= 3 ==> v[|v| - 3..] == [v[|v| - 3], v[|v| - 2], v[|v| - 1]];
  }

  function CurrencyOf(m: Msg): string {
    var c := GetField(m.fields, CURRENCY);
    if c == "" then "840" else c
  }

  function CodeFor(m: Msg, roll: nat): (code: string)
    ensures |code| == 2
  {
    ResponseCode(GetField(m.fields, PAN), GetField(m.fields, AMOUNT), GetField(m.fields, ISSUER_DATA), roll)
  }

  ghost predicate Holds(s: string, t: string) {
    exists i :: MatchAt(s, t, i)
  }

  /** The code by the sixteenth character of DE2: a 7 without an amount counts as a 0, and the codes of 6, 8
      and 9 are drawn from a list. */
  lemma CodeExactly(m: Msg, roll: nat)
    ensures var pan, data := GetField(m.fields, 1), GetField(m.fields, 122);
            var code := CodeFor(m, roll);
            if |pan| < 16 then code == "96"
            else
              var d := pan[15];
              var free := d == '7' && ParseAmount(GetField(m.fields, 3)) == 0;
              && (d < '0' || d > '9' ==> code == "96")
              && ('0' <= d <= '4' || free ==> code == if Holds(data, "SUPPORT") then "10" else "00")
              && (d == '5' ==> code == "00")
              && (d == '6' ==> code in {"05", "06", "07"})
              && (d == '7' && !free ==> code == "51")
              && (d == '8' ==> code in {"33", "34", "35"})
              && (d == '9' ==> code in {"SA", "SB", "SD", "SR", "T3", "T4", "T5"})
  {
    hide Index;
    hide ParseAmount;
    HoldsExactly(GetField(m.fields, 122), "SUPPORT");
    hide Contains;
    hide Holds;
  }

  lemma HoldsExactly(s: string, t: string)
    ensures Contains(s, t) <==> Holds(s, t)
  {
    hide IndexFrom;
    if Contains(s, t) {
      assert MatchAt(s, t, Index(s, t));
    }
  }

  /** Different draws below the length of a list give different codes, so that every code of it is drawn. */
  lemma DrawsDiffer(m: Msg, a: nat, b: nat)
    requires |GetField(m.fields, 1)| >= 16 && a < b
    requires match GetField(m.fields, 1)[15] case '6' => b < 3 case '8' => b < 3 case '9' => b < 7 case _ => false
    ensures CodeFor(m, a) != CodeFor(m, b)
  {
    hide Index;
    hide ParseAmount;
  }

  // ---------------------------------------------------------------- the response as a value

  predicate NetworkManagement(mti: string) {
    mti == "0800" || mti == "0801"
  }

  /** A code 10 response: half the amount in DE4 (set without marking it), the full amount in DE54. */
  function PartialApproval(r: Msg, amount: int, currency: string): Msg {
    MarkAndSet(Codec.SetField(r, AMOUNT, Amount12(TruncDiv(amount, 2))), ADDL_AMOUNTS,
               AdditionalAmount("00", "91", currency, amount))
  }

  function Approved(m: Msg, now: string, code: string, field123: string): Msg
    requires 4 <= |m.mti|
  {
    var r := m.(mti := ToResponseMTI(m.mti)[..4]);
    MarkAndSet(MarkAndSet(MarkAndSet(r, AUTH_ID, now), RESPONSE_CODE, code), ISSUER_DATA, field123)
  }

  /** The code's own branch, on top of what every answer has. */
  function Adjusted(m: Msg, a: Msg, code: string): Msg {
    var amount := ParseAmount(GetField(m.fields, AMOUNT));
    if code == "10" then PartialApproval(a, amount, CurrencyOf(m))
    else if code == "51" && Contains(GetField(m.fields, ISSUER_DATA), "RETURNBAL") then
      MarkAndSet(a, ADDL_AMOUNTS, AdditionalAmount("00", "02", CurrencyOf(m), TruncDiv(amount * 4, 5)))
    else a
  }

  /** The response to m at time `now`, or none when a tag of DE123 cannot be extracted. */
  function Response(m: Msg, now: string, roll: nat): Option<Msg>
    requires 4 <= |m.mti|
  {
    if NetworkManagement(m.mti) then
      Some(MarkAndSet(m.(mti := ToResponseMTI(m.mti)[..4]), RESPONSE_CODE, "00"))
    else
      var field123 := GetField(m.fields, ISSUER_DATA);
      var ar, cr := AvsResult(field123), CvvResult(field123);
      if ar.None? || cr.None? then None
      else
        var code := CodeFor(m, roll);
        Some(Adjusted(m, Approved(m, now, code, BuildField123(ar.value, cr.value)), code))
  }

  method BuildResponse(req: Iso8583Message, now: string, roll: nat) returns (r: Option<Iso8583Message>)
    requires req.Valid()
    ensures r.Some? <==> Response(req.Value(), now, roll).Some?
    ensures r.Some? ==>
              && r.value.Valid() && fresh(r.value.Repr()) && r.value.isoSpec == req.isoSpec
              && r.value.Value() == Response(req.Value(), now, roll).value
  {
    hide Codec.SetField;
    hide MarkAndSet;
    hide CodeFor;
    hide ToResponseMTI;
    hide AvsResult;
    hide CvvResult;
    hide Index;
    hide ParseAmount;
    hide AdditionalAmount;
    hide TruncDiv;
    hide Amount12;
    var resp;
    if NetworkManagement(req.GetMTI()) {
      resp := Iso8583Message.NewResponseMessage(req, ToResponseMTI(req.GetMTI()));
      Override(resp, RESPONSE_CODE, "00");
      return Some(resp);
    }
    hide NetworkManagement;
    var field123 := req.GetField(ISSUER_DATA);
    var responseCode := CodeFor(req.Value(), roll);
    var ar, cr := AvsResult(field123), CvvResult(field123);
    if ar.None? || cr.None? {
      return None;
    }
    resp := Accept(req, now, responseCode, BuildField123(ar.value, cr.value));
    hide Approved;
    var origAmt := ParseAmount(req.GetField(AMOUNT));
    var currency := CurrencyOf(req.Value());
    if responseCode == "10" {
      resp.SetField(AMOUNT, Amount12(TruncDiv(origAmt, 2)));
      Override(resp, ADDL_AMOUNTS, AdditionalAmount("00", "91", currency, origAmt));
    } else if responseCode == "51" && Contains(field123, "RETURNBAL") {
      Override(resp, ADDL_AMOUNTS, AdditionalAmount("00", "02", currency, TruncDiv(origAmt * 4, 5)));
    }
    return Some(resp);
  }

  /** The part every answer other than a network management one has. */
  method Accept(req: Iso8583Message, now: string, code: string, field123: string)
    returns (resp: Iso8583Message)
    requires req.Valid()
    ensures resp.Valid() && fresh(resp.Repr()) && resp.isoSpec == req.isoSpec
    ensures resp.Value() == Approved(req.Value(), now, code, field123)
  {
    hide MarkAndSet;
    hide ToResponseMTI;
    resp := Iso8583Message.NewResponseMessage(req, ToResponseMTI(req.GetMTI()));
    Override(resp, AUTH_ID, now);
    Override(resp, RESPONSE_CODE, code);
    Override(resp, ISSUER_DATA, field123);
  }

  /** MarkField followed by SetField. */
  method Override(resp: Iso8583Message, fieldIdx: nat, value: string)
    requires resp.Valid() && fieldIdx < 128
    modifies resp.Repr()
    ensures resp.Valid() && fresh(resp.Repr() - old(resp.Repr()))
    ensures resp.Value() == MarkAndSet(old(resp.Value()), fieldIdx, value)
  {
    hide Mark;
    resp.MarkField(fieldIdx);
    resp.SetField(fieldIdx, value);
  }

  // ---------------------------------------------------------------- widths

  lemma {:induction false} PowGrows(base: nat, a: nat, b: nat)
    requires 1 <= base && a <= b
    ensures Pow(base, a) <= Pow(base, b)
    decreases b
  {
    if a < b {
      PowGrows(base, a, b - 1);
      Scale(1, base, Pow(base, b - 1));
    }
  }

  lemma {:induction false} TrimLeftShortens(s: string, c: char)
    ensures |TrimLeft(s, c)| <= |s|
  {
    if s != "" && s[0] == c {
      TrimLeftShortens(s[1..], c);
    }
  }

  predicate Fits12(n: int) {
    0 - Pow(10, 11) < n < Pow(10, 12)
  }

  lemma AmountFits(amount: string)
    requires |amount| <= 12
    ensures Fits12(ParseAmount(amount))
  {
    var text := TrimLeft(amount, '0');
    TrimLeftShortens(amount, '0');
    hide TrimLeft;
    PowExceeds(10, 11);
    PowExceeds(10, 12);
    if Atoi(text).Some? {
      if text[0] == '+' || text[0] == '-' {
        ValueBound(text[1..], 10);
        PowGrows(10, |text| - 1, 11);
        PowGrows(10, 11, 12);
      } else {
        ValueBound(text, 10);
        PowGrows(10, |text|, 12);
      }
    }
    hide Pow;
  }

  lemma Amount12Width(n: int)
    requires Fits12(n)
    ensures |Amount12(n)| == 12
  {
    hide Numeral;
    if n >= 0 {
      PadFits(n, 12);
    } else {
      PadFits(-n, 11);
    }
  }

  lemma TruncDivFits(n: int, b: nat)
    requires Fits12(n) && 0 < b
    ensures Fits12(TruncDiv(n, b))
  {
    PowExceeds(10, 11);
    PowExceeds(10, 12);
    hide Pow;
    DivShrinks(if n >= 0 then n else -n, b);
  }

  lemma FourFifthsFits(n: int)
    requires Fits12(n)
    ensures Fits12(TruncDiv(n * 4, 5))
  {
    PowExceeds(10, 11);
    PowExceeds(10, 12);
    hide Pow;
    assert n < 0 ==> (-n * 4) / 5 <= -n;
  }

  lemma DivShrinks(n: nat, b: nat)
    requires 0 < b
    ensures 0 <= n / b <= n
  {
    var q := n / b;
    assert n == q * b + n % b;
    Scale(1, b, q);
  }

  lemma AdditionalWidth(kind: string, currency: string, n: int)
    requires |kind| == 2 && |currency| == 3 && Fits12(n)
    ensures |AdditionalAmount("00", kind, currency, n)| == 20
  {
    Amount12Width(n);
  }

  /** Every amount the response writes fits its place. */
  lemma ResponseWidths(spec: Spec, m: Msg)
    requires WellFormed(spec, m) && IssuerFields(spec)
    ensures var amount := ParseAmount(GetField(m.fields, AMOUNT));
            && |CurrencyOf(m)| == 3
            && |Amount12(TruncDiv(amount, 2))| == 12
            && |AdditionalAmount("00", "91", CurrencyOf(m), amount)| == 20
            && |AdditionalAmount("00", "02", CurrencyOf(m), TruncDiv(amount * 4, 5))| == 20
  {
    var amount := ParseAmount(GetField(m.fields, AMOUNT));
    WidthOf(spec, m, AMOUNT, 12);
    WidthOf(spec, m, CURRENCY, 3);
    AmountFits(GetField(m.fields, AMOUNT));
    hide ParseAmount;
    hide Fits12;
    hide AdditionalAmount;
    hide Amount12;
    hide TruncDiv;
    hide WellFormed;
    TruncDivFits(amount, 2);
    FourFifthsFits(amount);
    Amount12Width(TruncDiv(amount, 2));
    AdditionalWidth("91", CurrencyOf(m), amount);
    AdditionalWidth("02", CurrencyOf(m), TruncDiv(amount * 4, 5));
  }

  lemma WidthOf(spec: Spec, m: Msg, i: int, width: int)
    requires WellFormed(spec, m) && i + 1 in spec && spec[i + 1] == FieldDef(Fixed, width)
    ensures GetField(m.fields, i) != "" ==> |GetField(m.fields, i)| == width
  {
    hide Marked;
  }

  // ---------------------------------------------------------------- the response is a message

  /** What the response changes, for any request: DE38, DE39 and DE123 always, DE54 and DE4 by code. */
  ghost predicate OnlyOverrides(m: Msg, r: Msg) {
    forall i :: i !in {AMOUNT, AUTH_ID, RESPONSE_CODE, ADDL_AMOUNTS, ISSUER_DATA} ==>
      (i in r.fields <==> i in m.fields) && (i in m.fields ==> r.fields[i] == m.fields[i])
  }

  lemma ApprovedKeeps(spec: Spec, m: Msg, now: string, code: string, field123: string)
    requires WellFormed(spec, m) && IssuerFields(spec)
    requires |now| == 6 && |code| == 2 && |field123| == 12
    ensures WellFormed(spec, Approved(m, now, code, field123))
  {
    hide Mark;
    hide Marked;
    hide ToResponseMTI;
    var r := m.(mti := ToResponseMTI(m.mti)[..4]);
    assert WellFormed(spec, r);
    hide WellFormed;
    MarkAndSetKeeps(spec, r, AUTH_ID, now);
    var r1 := MarkAndSet(r, AUTH_ID, now);
    MarkAndSetKeeps(spec, r1, RESPONSE_CODE, code);
    var r2 := MarkAndSet(r1, RESPONSE_CODE, code);
    MarkAndSetKeeps(spec, r2, ISSUER_DATA, field123);
  }

  lemma ApprovedFields(m: Msg, now: string, code: string, field123: string)
    requires 4 <= |m.mti|
    ensures var r := Approved(m, now, code, field123);
            && r.fields == m.fields[AUTH_ID := now][RESPONSE_CODE := code][ISSUER_DATA := field123]
            && (Marked(m.primary, m.secondary, AMOUNT) <==> Marked(r.primary, r.secondary, AMOUNT))
  {
    hide Mark;
    hide Marked;
    hide ToResponseMTI;
    var r := m.(mti := ToResponseMTI(m.mti)[..4]);
    var r1 := MarkAndSet(r, AUTH_ID, now);
    var r2 := MarkAndSet(r1, RESPONSE_CODE, code);
    MarkFrame(r, AUTH_ID);
    MarkFrame(r1, RESPONSE_CODE);
    MarkFrame(r2, ISSUER_DATA);
    MarkedAfterMark(r, AUTH_ID, AMOUNT);
    MarkedAfterMark(r1, RESPONSE_CODE, AMOUNT);
    MarkedAfterMark(r2, ISSUER_DATA, AMOUNT);
  }

  /** DE4 is set without being marked, so a partial approval stays well formed exactly when the request
      already carried DE4. */
  lemma PartialKeeps(spec: Spec, r: Msg, amount: int, currency: string)
    requires WellFormed(spec, r) && IssuerFields(spec)
    requires |Amount12(TruncDiv(amount, 2))| == 12
    requires |AdditionalAmount("00", "91", currency, amount)| == 20
    ensures WellFormed(spec, PartialApproval(r, amount, currency)) <==> AMOUNT in r.fields
    ensures PartialApproval(r, amount, currency).fields ==
            r.fields[AMOUNT := Amount12(TruncDiv(amount, 2))]
                    [ADDL_AMOUNTS := AdditionalAmount("00", "91", currency, amount)]
  {
    hide Mark;
    hide Marked;
    hide AdditionalAmount;
    hide Amount12;
    hide TruncDiv;
    var half := Amount12(TruncDiv(amount, 2));
    var full := AdditionalAmount("00", "91", currency, amount);
    var s := Codec.SetField(r, AMOUNT, half);
    SetFieldKeeps(spec, r, AMOUNT, half);
    MarkFrame(s, ADDL_AMOUNTS);
    if AMOUNT in r.fields {
      MarkAndSetKeeps(spec, s, ADDL_AMOUNTS, full);
    } else {
      MarkedAfterMark(s, ADDL_AMOUNTS, AMOUNT);
      assert AMOUNT in PartialApproval(r, amount, currency).fields;
    }
  }

  /** What stands in DE4 and DE54 of an answer with this code. */
  ghost predicate AmountsOk(m: Msg, r: Msg, code: string) {
    var amount := ParseAmount(GetField(m.fields, AMOUNT));
    var balance := code == "51" && Contains(GetField(m.fields, ISSUER_DATA), "RETURNBAL");
    && (code == "10" ==>
          && AMOUNT in r.fields && r.fields[AMOUNT] == Amount12(TruncDiv(amount, 2))
          && |r.fields[AMOUNT]| == 12)
    && (code != "10" ==> GetField(r.fields, AMOUNT) == GetField(m.fields, AMOUNT))
    && (code == "10" || balance ==> ADDL_AMOUNTS in r.fields && |r.fields[ADDL_AMOUNTS]| == 20)
    && (balance ==>
          r.fields[ADDL_AMOUNTS] == AdditionalAmount("00", "02", CurrencyOf(m), TruncDiv(amount * 4, 5)))
    && (code != "10" && !balance ==>
          && (ADDL_AMOUNTS in r.fields <==> ADDL_AMOUNTS in m.fields)
          && GetField(r.fields, ADDL_AMOUNTS) == GetField(m.fields, ADDL_AMOUNTS))
  }

  lemma AdjustedExact(spec: Spec, m: Msg, a: Msg, code: string)
    requires WellFormed(spec, m) && WellFormed(spec, a) && IssuerFields(spec)
    requires GetField(a.fields, AMOUNT) == GetField(m.fields, AMOUNT) && (AMOUNT in a.fields <==> AMOUNT in m.fields)
    requires GetField(a.fields, ADDL_AMOUNTS) == GetField(m.fields, ADDL_AMOUNTS)
    requires ADDL_AMOUNTS in a.fields <==> ADDL_AMOUNTS in m.fields
    ensures var r := Adjusted(m, a, code);
            && (WellFormed(spec, r) <==> (code == "10" ==> AMOUNT in m.fields))
            && AmountsOk(m, r, code)
            && (forall i :: i != AMOUNT && i != ADDL_AMOUNTS ==>
                  (i in r.fields <==> i in a.fields) && (i in a.fields ==> r.fields[i] == a.fields[i]))
  {
    hide Mark;
    hide ParseAmount;
    hide Amount12;
    hide TruncDiv;
    hide AdditionalAmount;
    hide Index;
    hide CurrencyOf;
    ResponseWidths(spec, m);
    hide WellFormed;
    hide PartialApproval;
    var amount := ParseAmount(GetField(m.fields, AMOUNT));
    if code == "10" {
      PartialKeeps(spec, a, amount, CurrencyOf(m));
    } else if code == "51" && Contains(GetField(m.fields, ISSUER_DATA), "RETURNBAL") {
      var balance := AdditionalAmount("00", "02", CurrencyOf(m), TruncDiv(amount * 4, 5));
      MarkAndSetKeeps(spec, a, ADDL_AMOUNTS, balance);
      MarkFrame(a, ADDL_AMOUNTS);
    }
  }

  lemma ResponseType(m: Msg, now: string, roll: nat)
    requires 4 <= |m.mti| && Response(m, now, roll).Some?
    ensures Response(m, now, roll).value.mti == ToResponseMTI(m.mti)[..4]
  {
    hide AvsResult;
    hide CvvResult;
    hide CodeFor;
    hide BuildField123;
    hide ToResponseMTI;
    hide Index;
    hide ParseAmount;
    hide Amount12;
    hide TruncDiv;
    hide AdditionalAmount;
  }

  lemma ResponseParts(m: Msg, now: string, roll: nat)
    requires 4 <= |m.mti| && !NetworkManagement(m.mti) && Response(m, now, roll).Some?
    ensures var field123 := GetField(m.fields, ISSUER_DATA);
            && AvsResult(field123).Some? && CvvResult(field123).Some?
            && Response(m, now, roll).value ==
               Adjusted(m, Approved(m, now, CodeFor(m, roll),
                                    BuildField123(AvsResult(field123).value, CvvResult(field123).value)),
                        CodeFor(m, roll))
  {
    hide AvsResult;
    hide CvvResult;
    hide CodeFor;
    hide Approved;
    hide PartialApproval;
    hide MarkAndSet;
    hide Index;
  }

  /** The response to a well-formed request is well formed exactly when the request carried DE4 or was not
      partially approved. It differs from the request only at DE4, DE38, DE39, DE54 and DE123: DE4 only on a
      partial approval, and DE54, with one entry of twenty characters, only on a partial approval or a
      returned balance. */
  lemma ResponseExact(spec: Spec, m: Msg, now: string, roll: nat)
    requires WellFormed(spec, m) && IssuerFields(spec) && |now| == 6
    requires !NetworkManagement(m.mti) && Response(m, now, roll).Some?
    ensures var r := Response(m, now, roll).value;
            && (WellFormed(spec, r) <==> (CodeFor(m, roll) == "10" ==> AMOUNT in m.fields))
            && OnlyOverrides(m, r) && AmountsOk(m, r, CodeFor(m, roll))
            && AUTH_ID in r.fields && r.fields[AUTH_ID] == now
            && RESPONSE_CODE in r.fields && r.fields[RESPONSE_CODE] == CodeFor(m, roll)
            && ISSUER_DATA in r.fields && |r.fields[ISSUER_DATA]| == 12
            && ExtractTag(r.fields[ISSUER_DATA], "AR") == AvsResult(GetField(m.fields, ISSUER_DATA))
            && ExtractTag(r.fields[ISSUER_DATA], "CR") == CvvResult(GetField(m.fields, ISSUER_DATA))
            && r.mti == ToResponseMTI(m.mti)[..4]
  {
    hide ExtractTag;
    hide Index;
    hide ToResponseMTI;
    hide BuildField123;
    var field123 := GetField(m.fields, ISSUER_DATA);
    ResponseParts(m, now, roll);
    ResponseType(m, now, roll);
    Field123ReadsBack(AvsResult(field123).value, CvvResult(field123).value);
    hide Response;
    hide AvsResult;
    hide CvvResult;
    hide CodeFor;
    hide AmountsOk;
    var data := BuildField123(AvsResult(field123).value, CvvResult(field123).value);
    var code := CodeFor(m, roll);
    ApprovedKeeps(spec, m, now, code, data);
    ApprovedFields(m, now, code, data);
    hide WellFormed;
    hide Approved;
    var a := Approved(m, now, code, data);
    AdjustedExact(spec, m, a, code);
    hide Adjusted;
    FieldsOf(m, a, Response(m, now, roll).value, now, code, data);
    hide OnlyOverrides;
    hide MarkAndSet;
  }

  lemma FieldsOf(m: Msg, a: Msg, r: Msg, now: string, code: string, data: string)
    requires a.fields == m.fields[AUTH_ID := now][RESPONSE_CODE := code][ISSUER_DATA := data]
    requires forall i :: i != AMOUNT && i != ADDL_AMOUNTS ==>
               (i in r.fields <==> i in a.fields) && (i in a.fields ==> r.fields[i] == a.fields[i])
    ensures OnlyOverrides(m, r)
    ensures AUTH_ID in r.fields && r.fields[AUTH_ID] == now
    ensures RESPONSE_CODE in r.fields && r.fields[RESPONSE_CODE] == code
    ensures ISSUER_DATA in r.fields && r.fields[ISSUER_DATA] == data
  {}

  /** A network management request is echoed with DE39 00 and nothing else changed. */
  lemma NetworkResponse(spec: Spec, m: Msg, now: string, roll: nat)
    requires WellFormed(spec, m) && IssuerFields(spec) && NetworkManagement(m.mti)
    ensures Response(m, now, roll).Some?
    ensures var r := Response(m, now, roll).value;
            WellFormed(spec, r) && r.fields == m.fields[RESPONSE_CODE := "00"] && r.mti == "0810"
  {
    hide Mark;
    hide Marked;
    var r := m.(mti := ToResponseMTI(m.mti)[..4]);
    ManagementReply(m.mti);
    hide ToResponseMTI;
    assert WellFormed(spec, r);
    MarkAndSetKeeps(spec, r, RESPONSE_CODE, "00");
    MarkFrame(r, RESPONSE_CODE);
  }

  lemma ManagementReply(mti: string)
    requires NetworkManagement(mti)
    ensures ToResponseMTI(mti) == "0810"
  {
    hide Atoi;
    hide PadDecimal;
    AtoiOfFour(mti);
    FourDigits(0, 8, 1, 0);
  }

  /** The text sent back for a parsed request parses to exactly the response built for it. */
  lemma ResponseParsesBack(spec: Spec, text: string, now: string, roll: nat)
    requires IssuerFields(spec) && |now| == 6 && Parse(spec, text).Success?
    requires var m := Parse(spec, text).value.msg;
             && |m.mti| == 4 && Response(m, now, roll).Some?
             && (CodeFor(m, roll) == "10" ==> AMOUNT in m.fields)
    ensures var r := Response(Parse(spec, text).value.msg, now, roll).value;
            Printable(r) && Parse(spec, Print(spec, r)) == Success(Parsed(r, |Print(spec, r)|))
  {
    var m := Parse(spec, text).value.msg;
    ParseThenPrint(spec, text);
    hide Response;
    if NetworkManagement(m.mti) {
      NetworkResponse(spec, m, now, roll);
    } else {
      ResponseExact(spec, m, now, roll);
    }
    RoundTripExactly(spec, Response(m, now, roll).value);
  }

  /** The first `tag` in the text is followed by a minus sign and a non-zero digit. */
  ghost predicate NegativeLength(text: string, tag: string) {
    exists i :: FirstAt(text, tag, i) && i + 4 <= |text| && text[i + 2] == '-' && '1' <= text[i + 3] <= '9'
  }

  /** The handler crashes on a request exactly when the first "AV" or "CV" of its DE123 is followed by a minus
      sign and a non-zero digit; a network management request is always answered. */
  lemma ResponseFails(m: Msg, now: string, roll: nat)
    requires 4 <= |m.mti|
    ensures Response(m, now, roll).None? <==>
            && m.mti != "0800" && m.mti != "0801" && ISSUER_DATA in m.fields
            && (NegativeLength(m.fields[ISSUER_DATA], "AV") || NegativeLength(m.fields[ISSUER_DATA], "CV"))
  {
    hide CodeFor;
    hide ToResponseMTI;
    hide MarkAndSet;
    var text := GetField(m.fields, ISSUER_DATA);
    CrashesOnText(text, "AV");
    CrashesOnText(text, "CV");
    hide ExtractTag;
    hide NegativeLength;
    NothingNegative("AV");
    NothingNegative("CV");
  }

  lemma CrashesOnText(text: string, tag: string)
    requires |tag| == 2
    ensures ExtractTag(text, tag).None? <==> NegativeLength(text, tag)
  {
    ExtractTagFails(text, tag);
    hide ExtractTag;
    if ExtractTag(text, tag).None? {
      assert FirstAt(text, tag, Index(text, tag));
    }
  }

  lemma NothingNegative(tag: string)
    requires |tag| == 2
    ensures !NegativeLength("", tag)
  {}

  // ---------------------------------------------------------------- partial approval halves the amount

  lemma {:induction false} LeadingZero(s: string)
    requires IsNumeral(s, 10)
    ensures IsNumeral("0" + s, 10) && Value("0" + s, 10) == Value(s, 10)
  {
    if s == "" {
      ValueSnoc("", '0', 10);
    } else {
      var front := s[..|s| - 1];
      LeadingZero(front);
      ValueSnoc("0" + front, s[|s| - 1], 10);
      assert "0" + s == ("0" + front) + [s[|s| - 1]];
      assert s == front + [s[|s| - 1]];
      ValueSnoc(front, s[|s| - 1], 10);
    }
  }

  lemma {:induction false} TrimKeepsValue(s: string)
    requires IsNumeral(s, 10)
    ensures IsNumeral(TrimLeft(s, '0'), 10) && Value(TrimLeft(s, '0'), 10) == Value(s, 10)
  {
    if s != "" && s[0] == '0' {
      TrimKeepsValue(s[1..]);
      LeadingZero(s[1..]);
      assert s == "0" + s[1..];
    }
  }

  /** Leading zeros are dropped before the amount is read, and what is left counts as 0 when it is no number. */
  lemma {:induction false} AmountExactly(amount: string, zeros: nat)
    requires zeros <= |amount| && forall i :: 0 <= i < zeros ==> amount[i] == '0'
    requires zeros < |amount| ==> amount[zeros] != '0'
    ensures ParseAmount(amount) == match Atoi(amount[zeros..]) case Some(n) => n case None => 0
  {
    hide Atoi;
    if zeros > 0 {
      AmountExactly(amount[1..], zeros - 1);
      assert amount[1..][zeros - 1..] == amount[zeros..];
    } else {
      assert amount[0..] == amount;
    }
  }

  lemma ParseDigits(amount: string)
    requires IsNumeral(amount, 10)
    ensures ParseAmount(amount) == Value(amount, 10)
  {
    TrimKeepsValue(amount);
    var text := TrimLeft(amount, '0');
    if text == "" {
      assert Value(text, 10) == 0;
    } else {
      assert 0 <= DigitValue(text[0]);
    }
  }

  /** For an amount in decimal digits a partial approval approves exactly half of it, rounded down, and the
      DE54 entry ends in the full amount. */
  lemma PartialHalves(spec: Spec, m: Msg, now: string, roll: nat)
    requires WellFormed(spec, m) && IssuerFields(spec) && |now| == 6
    requires !NetworkManagement(m.mti) && Response(m, now, roll).Some? && CodeFor(m, roll) == "10"
    requires AMOUNT in m.fields && IsNumeral(m.fields[AMOUNT], 10)
    ensures var r, currency := Response(m, now, roll).value, GetField(m.fields, 48);
            && AMOUNT in r.fields && ADDL_AMOUNTS in r.fields && |r.fields[ADDL_AMOUNTS]| == 20
            && IsNumeral(r.fields[AMOUNT], 10)
            && Value(r.fields[AMOUNT], 10) == Value(m.fields[AMOUNT], 10) / 2
            && IsNumeral(r.fields[ADDL_AMOUNTS][8..], 10)
            && Value(r.fields[ADDL_AMOUNTS][8..], 10) == Value(m.fields[AMOUNT], 10)
            && r.fields[ADDL_AMOUNTS][..8] == "0091" + (if currency == "" then "840" else currency) + "C"
  {
    hide Response;
    hide Value;
    hide Numeral;
    hide ParseAmount;
    hide CodeFor;
    hide Amount12;
    hide Index;
    hide AdditionalAmount;
    hide CurrencyOf;
    var amount := Value(m.fields[AMOUNT], 10);
    ResponseExact(spec, m, now, roll);
    AmountOf(spec, m);
    PartialEntry(m, now, roll);
    hide WellFormed;
    hide OnlyOverrides;
    hide Pow;
    hide IsNumeral;
    EntryExact(spec, m, "91", amount);
    DigitsOfAmount(amount / 2);
    assert Response(m, now, roll).value.fields[AMOUNT] == Amount12(amount / 2);
  }

  /** The amount of a well-formed message in decimal digits. */
  lemma AmountOf(spec: Spec, m: Msg)
    requires WellFormed(spec, m) && IssuerFields(spec) && AMOUNT in m.fields && IsNumeral(m.fields[AMOUNT], 10)
    ensures var amount := Value(m.fields[AMOUNT], 10);
            && GetField(m.fields, AMOUNT) == m.fields[AMOUNT]
            && ParseAmount(m.fields[AMOUNT]) == amount && amount < Pow(10, 12)
            && amount / 2 < Pow(10, 12) && amount * 4 / 5 < Pow(10, 12)
  {
    hide Marked;
    hide Value;
    hide Pow;
    ParseDigits(m.fields[AMOUNT]);
    WidthOf(spec, m, AMOUNT, 12);
    AmountFits(m.fields[AMOUNT]);
  }

  /** One DE54 entry in full. */
  lemma EntryExact(spec: Spec, m: Msg, kind: string, amount: nat)
    requires WellFormed(spec, m) && IssuerFields(spec) && |kind| == 2 && amount < Pow(10, 12)
    ensures var e := AdditionalAmount("00", kind, CurrencyOf(m), amount);
            && |e| == 20 && IsNumeral(e[8..], 10) && Value(e[8..], 10) == amount
            && e[..8] == "00" + kind + (if GetField(m.fields, 48) == "" then "840" else GetField(m.fields, 48)) + "C"
  {
    hide Marked;
    hide Value;
    hide Pow;
    hide Amount12;
    WidthOf(spec, m, CURRENCY, 3);
    DigitsOfAmount(amount);
    assert AdditionalAmount("00", kind, CurrencyOf(m), amount)[8..] == Amount12(amount);
  }

  lemma DigitsOfAmount(n: nat)
    requires n < Pow(10, 12)
    ensures |Amount12(n)| == 12 && IsNumeral(Amount12(n), 10) && Value(Amount12(n), 10) == n
  {
    PadFits(n, 12);
    ValueOfNumeral(n, 10, 12);
  }

  lemma PartialEntry(m: Msg, now: string, roll: nat)
    requires 4 <= |m.mti| && !NetworkManagement(m.mti) && Response(m, now, roll).Some?
    requires CodeFor(m, roll) == "10"
    ensures var r := Response(m, now, roll).value;
            && ADDL_AMOUNTS in r.fields
            && r.fields[ADDL_AMOUNTS] ==
               AdditionalAmount("00", "91", CurrencyOf(m), ParseAmount(GetField(m.fields, AMOUNT)))
  {
    hide Mark;
    hide Approved;
    hide CodeFor;
    hide AvsResult;
    hide CvvResult;
  }

  /** A returned balance is four fifths of the amount, rounded down, with the amount itself left alone. */
  lemma BalanceReturned(spec: Spec, m: Msg, now: string, roll: nat)
    requires WellFormed(spec, m) && IssuerFields(spec) && |now| == 6
    requires !NetworkManagement(m.mti) && Response(m, now, roll).Some? && CodeFor(m, roll) == "51"
    requires AMOUNT in m.fields && IsNumeral(m.fields[AMOUNT], 10) && Holds(GetField(m.fields, 122), "RETURNBAL")
    ensures var r, currency := Response(m, now, roll).value, GetField(m.fields, 48);
            && ADDL_AMOUNTS in r.fields && |r.fields[ADDL_AMOUNTS]| == 20
            && GetField(r.fields, AMOUNT) == m.fields[AMOUNT]
            && IsNumeral(r.fields[ADDL_AMOUNTS][8..], 10)
            && Value(r.fields[ADDL_AMOUNTS][8..], 10) == Value(m.fields[AMOUNT], 10) * 4 / 5
            && r.fields[ADDL_AMOUNTS][..8] == "0002" + (if currency == "" then "840" else currency) + "C"
  {
    hide Response;
    hide Value;
    hide Numeral;
    hide ParseAmount;
    hide CodeFor;
    hide Amount12;
    hide Index;
    hide AdditionalAmount;
    hide CurrencyOf;
    var amount := Value(m.fields[AMOUNT], 10);
    HoldsExactly(GetField(m.fields, 122), "RETURNBAL");
    hide Contains;
    hide Holds;
    ResponseExact(spec, m, now, roll);
    AmountOf(spec, m);
    hide WellFormed;
    hide OnlyOverrides;
    hide Pow;
    hide IsNumeral;
    EntryExact(spec, m, "02", amount * 4 / 5);
  }

  /** Division cuts what is left over, whatever the sign. */
  lemma CutsTowardsZero(n: nat, b: nat)
    requires b > 0
    ensures TruncDiv(n, b) * b <= n < TruncDiv(n, b) * b + b
    ensures TruncDiv(0 - n, b) == 0 - TruncDiv(n, b)
  {
    assert n == n / b * b + n % b;
    hide Pow;
  }

  /** The sign of a negative amount takes one of its twelve places. */
  lemma NegativeAmounts(n: nat)
    requires 0 < n < Pow(10, 11)
    ensures var text := Amount12(0 - n);
            |text| == 12 && text[0] == '-' && IsNumeral(text[1..], 10) && Value(text[1..], 10) == n
  {
    hide Numeral;
    hide Pow;
    hide Value;
    PadFits(n, 11);
    ValueOfNumeral(n, 10, 11);
    assert Amount12(0 - n)[1..] == PadDecimal(n, 11);
  }
}
