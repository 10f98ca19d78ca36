/** The requests the server sends: templates personalised with a card and a reference
    (network/server/iso_server.go), sales replayed as refunds (network/server/refund.go), and the log entry
    written for each. */
module Outgoing {
  import opened Wrappers
  import opened Bits
  import opened Codec
  import opened Message
  import opened Tags
  import opened Log

  datatype Card = Card(cardNumber: string, expiryDate: string, track2Data: string, cvv2: string)

  /** The definitions outgoing requests rely on; the shipped specification has them. */
  predicate RequestFields(spec: Spec) {
    && (forall n :: n in {3, 7, 11, 37, 123} ==> n in spec)
    && spec[3] == FieldDef(Fixed, 6)
    && spec[7] == FieldDef(Fixed, 10)
    && spec[11] == FieldDef(Fixed, 6)
    && spec[37] == FieldDef(Fixed, 12)
    && spec[123].fieldType == LLLVar
  }

  /** An empty field counts as absent. */
  function SetPresent(m: Msg, i: int, value: string): Msg {
    if GetField(m.fields, i) != "" then Codec.SetField(m, i, value) else m
  }

  lemma SetPresentKeeps(spec: Spec, m: Msg, i: int, value: string)
    requires WellFormed(spec, m) && FieldFits(spec, i, value)
    ensures WellFormed(spec, SetPresent(m, i, value))
  {
    SetFieldKeeps(spec, m, i, value);
    hide WellFormed;
    hide FieldFits;
  }

  /** Overwrites a field the message carries. */
  method Replace(isoMessage: Iso8583Message, i: int, value: string)
    requires isoMessage.Valid()
    modifies isoMessage`fields
    ensures isoMessage.Valid() && isoMessage.Repr() == old(isoMessage.Repr())
    ensures isoMessage.Value() == SetPresent(old(isoMessage.Value()), i, value)
  {
    if isoMessage.GetField(i) != "" {
      isoMessage.SetField(i, value);
    }
  }

  // ---------------------------------------------------------------- templates

  /** The template with the card's data in the fields it carries. */
  function Carded(m: Msg, card: Card): Msg {
    SetPresent(SetPresent(SetPresent(m, PAN, card.cardNumber), EXPIRY_DATE, card.expiryDate),
               TRACK2, card.track2Data)
  }

  function Personalise(m: Msg, card: Card, reference: string): Msg {
    Codec.SetField(SetPresent(Carded(m, card), ISSUER_DATA,
                              RewriteCv(GetField(m.fields, ISSUER_DATA), card.cvv2)),
                   REFERENCE, reference)
  }

  /** The builder of the rewritten DE123: the text before the tag, then the tag in its two known lengths. */
  method ReplaceTag(de123: string, cvv2: string) returns (sb: string)
    requires Index(de123, "CV") > -1
    ensures sb == RewriteCv(de123, cvv2)
  {
    hide Index;
    var ind := Index(de123, "CV");
    var lenStr := Substr(de123, ind + 2, 2);
    sb := Substr(de123, 0, ind);
    assert sb == de123[..ind];
    hide Substr;
    Builder(sb, cvv2);
    if lenStr == "05" {
      sb := sb + "CV051 " + cvv2;
    } else if lenStr == "07" {
      sb := sb + "CV0711 " + cvv2 + "M";
    }
  }

  /** getIsoMessage: the template with the card's data in the fields it carries and a new reference. */
  method GetIsoMessage(message: string, isoSpec: Spec, card: Card, reference: string)
    returns (r: Result<Iso8583Message, ParseError>)
    ensures r.Success? <==> Parse(isoSpec, message).Success?
    ensures r.Success? ==>
              && r.value.Valid() && fresh(r.value.Repr()) && r.value.isoSpec == isoSpec
              && r.value.Value() == Personalise(Parse(isoSpec, message).value.msg, card, reference)
  {
    hide Parse;
    hide Index;
    hide Bit;
    hide Hex;
    hide ParseHex;
    hide Substr;
    hide RewriteCv;
    r := Iso8583Message.NewIso8583Message(message, isoSpec);
    if r.Failure? {
      return;
    }
    var isoMessage := r.value;
    ghost var m := isoMessage.Value();
    Replace(isoMessage, PAN, card.cardNumber);
    Replace(isoMessage, EXPIRY_DATE, card.expiryDate);
    Replace(isoMessage, TRACK2, card.track2Data);
    ghost var mid := isoMessage.Value();
    assert GetField(mid.fields, ISSUER_DATA) == GetField(m.fields, ISSUER_DATA);
    if isoMessage.GetField(ISSUER_DATA) != "" {
      var de123 := isoMessage.GetField(ISSUER_DATA);
      KeptWithoutTag(de123, card.cvv2);
      if Index(de123, "CV") > -1 {
        var text := ReplaceTag(de123, card.cvv2);
        isoMessage.SetField(ISSUER_DATA, text);
      }
      assert isoMessage.Value() == SetPresent(mid, ISSUER_DATA, RewriteCv(de123, card.cvv2));
    }
    isoMessage.SetField(REFERENCE, reference);
  }

  lemma Builder(before: string, cvv2: string)
    ensures before + "CV" + "05" + ("1 " + cvv2) == before + "CV051 " + cvv2
    ensures before + "CV" + "07" + ("11 " + cvv2 + "M") == before + "CV0711 " + cvv2 + "M"
  {
    assert before + "CV" + "05" + ("1 " + cvv2) == before + ("CV" + "05" + "1 ") + cvv2;
    assert "CV" + "05" + "1 " == "CV051 ";
    assert before + "CV" + "07" + ("11 " + cvv2 + "M") == before + ("CV" + "07" + "11 ") + cvv2 + "M";
    assert "CV" + "07" + "11 " == "CV0711 ";
  }

  lemma KeptWithoutTag(de123: string, cvv2: string)
    ensures Index(de123, "CV") == -1 ==> RewriteCv(de123, cvv2) == de123
  {
    hide Index;
  }

  /** The rewritten CV tag ends within the 999 characters DE123 may hold. */
  predicate CvHasRoom(de123: string, cvv2: string) {
    var ind := Index(de123, "CV");
    ind != -1 ==>
      var length := Substr(de123, ind + 2, 2);
      (length == "05" ==> ind + 6 + |cvv2| <= 999) && (length == "07" ==> ind + 8 + |cvv2| <= 999)
  }

  lemma RewrittenLength(de123: string, cvv2: string)
    requires |de123| <= 999
    ensures |RewriteCv(de123, cvv2)| <= 999 <==> CvHasRoom(de123, cvv2)
  {
    var ind := Index(de123, "CV");
    hide Index;
    if ind != -1 {
      hide Substr;
      assert MatchAt(de123, "CV", ind);
      assert |CvValue("05", cvv2)| == 2 + |cvv2| && |CvValue("07", cvv2)| == 4 + |cvv2|;
    }
  }

  /** The card's data fits every field of the template it goes into. */
  predicate CardSuits(spec: Spec, m: Msg, card: Card) {
    && (GetField(m.fields, PAN) != "" ==> FieldFits(spec, PAN, card.cardNumber))
    && (GetField(m.fields, EXPIRY_DATE) != "" ==> FieldFits(spec, EXPIRY_DATE, card.expiryDate))
    && (GetField(m.fields, TRACK2) != "" ==> FieldFits(spec, TRACK2, card.track2Data))
  }

  /** Changing fields without marking any keeps a message well formed exactly when no field is new and every
      value fits. */
  lemma RefitExactly(spec: Spec, m: Msg, r: Msg)
    requires WellFormed(spec, m) && r.(fields := m.fields) == m && m.fields.Keys <= r.fields.Keys
    ensures WellFormed(spec, r) <==>
            r.fields.Keys <= m.fields.Keys && forall i :: i in r.fields ==> FieldFits(spec, i, r.fields[i])
  {
    hide FieldFits;
    hide Marked;
    assert forall i :: i in m.fields ==> i in r.fields;
    if WellFormed(spec, r) {
      forall i | i in r.fields ensures i in m.fields {
        assert Marked(r.primary, r.secondary, i);
      }
    }
  }

  /** The fields of a personalised template. */
  lemma PersonalisedFields(m: Msg, card: Card, reference: string)
    ensures var r := Personalise(m, card, reference);
            && r.(fields := m.fields) == m && r.fields.Keys == m.fields.Keys + {REFERENCE}
            && r.fields[REFERENCE] == reference
            && (GetField(m.fields, PAN) != "" ==> r.fields[PAN] == card.cardNumber)
            && (GetField(m.fields, EXPIRY_DATE) != "" ==> r.fields[EXPIRY_DATE] == card.expiryDate)
            && (GetField(m.fields, TRACK2) != "" ==> r.fields[TRACK2] == card.track2Data)
            && (GetField(m.fields, ISSUER_DATA) != "" ==>
                  r.fields[ISSUER_DATA] == RewriteCv(m.fields[ISSUER_DATA], card.cvv2))
            && (forall i ::
                  (i in m.fields && i != REFERENCE &&
                   (m.fields[i] == "" || (i != PAN && i != EXPIRY_DATE && i != TRACK2 && i != ISSUER_DATA))) ==>
                    r.fields[i] == m.fields[i])
  {
    hide RewriteCv;
  }

  /** A template personalised with any card is well formed exactly when it carried DE37, the card's data fits
      the fields it goes into, and the CV tag, rewritten at its place, still fits. Apart from the reference it
      differs only in fields the template carried. */
  lemma PersonaliseExact(spec: Spec, m: Msg, card: Card, reference: string)
    requires WellFormed(spec, m) && RequestFields(spec) && |reference| == 12
    ensures var r := Personalise(m, card, reference);
            && (WellFormed(spec, r) <==>
                  REFERENCE in m.fields && CardSuits(spec, m, card) &&
                  CvHasRoom(GetField(m.fields, ISSUER_DATA), card.cvv2))
            && r.(fields := m.fields) == m && GetField(r.fields, REFERENCE) == reference
            && r.fields.Keys == m.fields.Keys + {REFERENCE}
            && (forall i :: i in m.fields && i !in {PAN, EXPIRY_DATE, TRACK2, REFERENCE, ISSUER_DATA} ==>
                  r.fields[i] == m.fields[i])
  {
    var r := Personalise(m, card, reference);
    var de123 := GetField(m.fields, ISSUER_DATA);
    PersonalisedFields(m, card, reference);
    RefitExactly(spec, m, r);
    ReferenceFits(spec, reference);
    DataFits(spec, m, card.cvv2);
    assert forall i :: i in m.fields ==> FieldFits(spec, i, m.fields[i]);
    hide WellFormed;
    hide FieldFits;
    hide Personalise;
    hide RewriteCv;
    hide CvHasRoom;
    hide RequestFields;
    if REFERENCE in m.fields && CardSuits(spec, m, card) && CvHasRoom(de123, card.cvv2) {
      forall i | i in r.fields ensures FieldFits(spec, i, r.fields[i]) {
        if i in m.fields && m.fields[i] != "" && (i == PAN || i == EXPIRY_DATE || i == TRACK2 || i == ISSUER_DATA) {
          assert GetField(m.fields, i) != "";
        }
      }
    }
    if forall i :: i in r.fields ==> FieldFits(spec, i, r.fields[i]) {
      assert GetField(m.fields, PAN) != "" ==> PAN in r.fields;
      assert GetField(m.fields, EXPIRY_DATE) != "" ==> EXPIRY_DATE in r.fields;
      assert GetField(m.fields, TRACK2) != "" ==> TRACK2 in r.fields;
      assert de123 != "" ==> ISSUER_DATA in r.fields;
    }
  }

  lemma ReferenceFits(spec: Spec, reference: string)
    requires RequestFields(spec) && |reference| == 12
    ensures FieldFits(spec, REFERENCE, reference)
  {}

  /** The rewritten DE123 fits exactly when its tag has room; a template without one has no tag. */
  lemma DataFits(spec: Spec, m: Msg, cvv2: string)
    requires WellFormed(spec, m) && RequestFields(spec)
    ensures var de123 := GetField(m.fields, ISSUER_DATA);
            FieldFits(spec, ISSUER_DATA, RewriteCv(de123, cvv2)) <==> CvHasRoom(de123, cvv2)
  {
    hide Marked;
    assert ISSUER_DATA in m.fields ==> FieldFits(spec, ISSUER_DATA, m.fields[ISSUER_DATA]);
    RewrittenLength(GetField(m.fields, ISSUER_DATA), cvv2);
    hide RewriteCv;
    hide CvHasRoom;
  }

  // ---------------------------------------------------------------- log entries

  /** newRequestLog */
  function LogEntry(testId: int, now: int, reference: string, connectionId: string, spec: Spec, m: Msg): Entry
    requires Printable(m)
  {
    Entry(testId, now, reference, connectionId, Some(m.mti), GetField(m.fields, PROCESSING_CODE),
          GetField(m.fields, PAN), GetField(m.fields, AMOUNT), GetField(m.fields, CURRENCY), Print(spec, m),
          None)
  }

  /** Every column of a request's row: the message's own type and fields, its text, and no original row. */
  lemma EntryFields(testId: int, now: int, reference: string, connectionId: string, spec: Spec, m: Msg)
    requires WellFormed(spec, m)
    ensures var e := LogEntry(testId, now, reference, connectionId, spec, m);
            && e.testId == testId && e.requestTime == now && e.reference == reference
            && e.connectionId == connectionId && e.mti == Some(m.mti) && e.originalLogId == None
            && e.processingCode == (if 2 in m.fields then m.fields[2] else "")
            && e.pan == (if 1 in m.fields then m.fields[1] else "")
            && e.amount == (if 3 in m.fields then m.fields[3] else "")
            && e.currency == (if 48 in m.fields then m.fields[48] else "")
            && Parse(spec, e.requestMessage).Success? && Parse(spec, e.requestMessage).value.msg == m
  {
    PrintThenParse(spec, m, "");
    assert Print(spec, m) + "" == Print(spec, m);
    hide WellFormed;
    hide Parse;
    hide Print;
  }

  // ---------------------------------------------------------------- refunds

  datatype Candidate = Candidate(logId: nat, reference: string, requestMessage: string)

  /** The sale with a refund's processing code, time, trace number and reference; no result for a processing
      code shorter than two characters, which slices out of bounds. */
  function RefundMessage(m: Msg, reference: string, stamp: string): Option<Msg>
    requires |reference| == 12
  {
    var code := GetField(m.fields, PROCESSING_CODE);
    if |code| < 2 then None
    else
      var r := Codec.SetField(m, PROCESSING_CODE, "20" + code[2..]);
      var s := SetPresent(SetPresent(r, TRANSMISSION_TIME, stamp), STAN, reference[6..]);
      Some(Codec.SetField(s, REFERENCE, reference))
  }

  datatype Refund = Skipped | Crashed | Ready(entry: Entry)

  /** What sendRefund logs for a candidate, if its stored text parses. */
  function RefundFor(spec: Spec, testId: int, now: int, stamp: string, reference: string, connectionId: string,
                     original: Candidate): Refund
    requires |reference| == 12
  {
    match Parse(spec, original.requestMessage)
    case Failure(_) => Skipped
    case Success(p) =>
      match RefundMessage(p.msg, reference, stamp)
      case None => Crashed
      case Some(m) =>
        HeaderRead(spec, original.requestMessage);
        Ready(LogEntry(testId, now, reference, connectionId, spec, m)
              .(originalLogId := if original.logId == 0 then None else Some(original.logId)))
  }

  /** The refund of a candidate up to its log entry. */
  method BuildRefund(isoSpec: Spec, testId: int, now: int, stamp: string, reference: string,
                     connectionId: string, original: Candidate) returns (r: Refund)
    requires |reference| == 12
    ensures r == RefundFor(isoSpec, testId, now, stamp, reference, connectionId, original)
  {
    hide Parse;
    hide Print;
    hide Bit;
    hide Hex;
    hide ParseHex;
    var parsed := Iso8583Message.NewIso8583Message(original.requestMessage, isoSpec);
    if parsed.Failure? {
      return Skipped;
    }
    var refund := parsed.value;
    HeaderRead(isoSpec, original.requestMessage);
    if |refund.GetField(PROCESSING_CODE)| < 2 {
      return Crashed;
    }
    refund.SetField(PROCESSING_CODE, "20" + refund.GetField(PROCESSING_CODE)[2..]);
    Replace(refund, TRANSMISSION_TIME, stamp);
    Replace(refund, STAN, reference[6..]);
    refund.SetField(REFERENCE, reference);
    var text := refund.FormatIso();
    return Ready(Entry(testId, now, reference, connectionId, Some(refund.GetMTI()),
                       refund.GetField(PROCESSING_CODE), refund.GetField(PAN), refund.GetField(AMOUNT),
                       refund.GetField(CURRENCY), text,
                       if original.logId == 0 then None else Some(original.logId)));
  }

  /** A refund of a well-formed sale is the sale except for DE3, DE7, DE11 and DE37, and is itself well formed
      exactly when the sale carried DE37. */
  lemma RefundExact(spec: Spec, m: Msg, reference: string, stamp: string)
    requires WellFormed(spec, m) && RequestFields(spec) && |reference| == 12 && |stamp| == 10
    requires PROCESSING_CODE in m.fields
    ensures RefundMessage(m, reference, stamp).Some?
    ensures var r := RefundMessage(m, reference, stamp).value;
            && (WellFormed(spec, r) <==> REFERENCE in m.fields)
            && r.(fields := m.fields) == m
            && r.fields.Keys == m.fields.Keys + {REFERENCE}
            && (forall i :: i in m.fields && i !in {PROCESSING_CODE, TRANSMISSION_TIME, STAN, REFERENCE} ==>
                  r.fields[i] == m.fields[i])
            && r.fields[PROCESSING_CODE] == "20" + m.fields[PROCESSING_CODE][2..]
            && r.fields[REFERENCE] == reference
            && (TRANSMISSION_TIME in m.fields ==> r.fields[TRANSMISSION_TIME] == stamp)
            && (STAN in m.fields ==> r.fields[STAN] == reference[6..])
  {
    hide Marked;
    var code := m.fields[PROCESSING_CODE];
    assert FieldFits(spec, PROCESSING_CODE, code);
    assert TRANSMISSION_TIME in m.fields ==> FieldFits(spec, TRANSMISSION_TIME, m.fields[TRANSMISSION_TIME]);
    assert STAN in m.fields ==> FieldFits(spec, STAN, m.fields[STAN]);
    var r := Codec.SetField(m, PROCESSING_CODE, "20" + code[2..]);
    SetFieldKeeps(spec, m, PROCESSING_CODE, "20" + code[2..]);
    SetPresentKeeps(spec, r, TRANSMISSION_TIME, stamp);
    var s := SetPresent(r, TRANSMISSION_TIME, stamp);
    SetPresentKeeps(spec, s, STAN, reference[6..]);
    SetFieldKeeps(spec, SetPresent(s, STAN, reference[6..]), REFERENCE, reference);
    hide WellFormed;
  }

  /** The refund of a sale that was logged from a well-formed message: the stored text parses to the logged
      fields, no step fails, and the refund's row names the sale, keeps its type, PAN, amount and currency,
      and has processing code 20xxxx. Its own stored text parses back when the sale carried DE37. */
  lemma RefundOfLoggedSale(spec: Spec, m: Msg, sale: Entry, logId: nat, testId: int, now: int, stamp: string,
                           reference: string, connectionId: string)
    requires WellFormed(spec, m) && RequestFields(spec) && |reference| == 12 && |stamp| == 10 && logId > 0
    requires sale == LogEntry(sale.testId, sale.requestTime, sale.reference, sale.connectionId, spec, m)
    requires 2 <= |sale.processingCode|
    ensures var c := Candidate(logId, sale.reference, sale.requestMessage);
            var refund := RefundFor(spec, testId, now, stamp, reference, connectionId, c);
            && Parse(spec, sale.requestMessage).Success? && Parse(spec, sale.requestMessage).value.msg == m
            && refund.Ready?
            && refund.entry.originalLogId == Some(logId) && refund.entry.reference == reference
            && refund.entry.mti == sale.mti && refund.entry.pan == sale.pan
            && refund.entry.amount == sale.amount && refund.entry.currency == sale.currency
            && sale.pan == GetField(m.fields, 1) && sale.amount == GetField(m.fields, 3)
            && sale.currency == GetField(m.fields, 48) && sale.processingCode == GetField(m.fields, 2)
            && refund.entry.testId == testId && refund.entry.connectionId == connectionId
            && refund.entry.requestTime == now
            && refund.entry.processingCode == "20" + sale.processingCode[2..]
            && (REFERENCE in m.fields ==>
                  Parse(spec, refund.entry.requestMessage) ==
                  Success(Parsed(RefundMessage(m, reference, stamp).value, |refund.entry.requestMessage|)))
  {
    hide Marked;
    hide Bit;
    hide Parse;
    hide Print;
    PrintThenParse(spec, m, "");
    assert Print(spec, m) + "" == Print(spec, m);
    assert PROCESSING_CODE in m.fields;
    RefundExact(spec, m, reference, stamp);
    var r := RefundMessage(m, reference, stamp).value;
    hide RefundMessage;
    if REFERENCE in m.fields {
      PrintThenParse(spec, r, "");
      assert Print(spec, r) + "" == Print(spec, r);
    }
  }
}
