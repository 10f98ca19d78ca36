/** The shipped field specification (data/file_spec.json), the size it allows a message, and what follows for
    messages sent one after another. */
module Shipped {
  import opened Wrappers
  import opened Numerals
  import opened Bits
  import opened Codec
  import opened Issuer
  import opened Outgoing
  import opened Wire

  // ---------------------------------------------------------------- the shipped specification

  function TypeOf(n: int): FieldType {
    if n == 2 || 32 <= n <= 35 || n == 44 || n == 45 || 99 <= n <= 103 then LLVar
    else if n == 36 || 46 <= n <= 48 || 54 <= n <= 63 || 104 <= n <= 127 then LLLVar
    else Fixed
  }

  function MinLength(n: int): int {
    if n <= 48 then MinLengthLow(n)
    else if n <= 81 then
      if n == 57 then 3
      else if n <= 51 then 3
      else if n <= 53 then 16
      else if n <= 63 then 1
      else if n == 64 then 8
      else if n == 65 then 16
      else if n == 66 then 1
      else if n == 67 then 2
      else if n <= 70 then 3
      else if n <= 72 then 4
      else if n == 73 then 6
      else 10
    else if n <= 85 then 12
    else if n <= 89 then 16
    else if n == 90 || n == 95 then 42
    else if n == 91 then 1
    else if n == 92 then 2
    else if n == 93 then 5
    else if n == 94 then 7
    else if n == 96 then 8
    else if n == 97 then 17
    else if n == 98 then 25
    else if n <= 127 then 1
    else 8
  }

  function MinLengthLow(n: int): int {
    if n == 1 then 16
    else if n == 2 then 1
    else if n == 3 then 6
    else if n <= 6 then 12
    else if n == 7 then 10
    else if n <= 10 then 8
    else if n <= 12 then 6
    else if n <= 18 then 4
    else if n <= 24 then 3
    else if n <= 26 then 2
    else if n == 27 then 1
    else if n <= 31 then 9
    else if n <= 36 then 1
    else if n == 37 then 12
    else if n == 38 then 6
    else if n == 39 then 2
    else if n == 40 then 3
    else if n == 41 then 8
    else if n == 42 then 15
    else if n == 43 then 40
    else 1
  }

  const SHIPPED: Spec := map n | 1 <= n <= 128 :: FieldDef(TypeOf(n), MinLength(n))

  /** The shipped specification defines every field, and the server's own fields as the server writes them. */
  lemma ShippedFields()
    ensures IssuerFields(SHIPPED) && RequestFields(SHIPPED)
    ensures forall n :: 1 <= n <= 128 <==> n in SHIPPED
    ensures forall n :: n in SHIPPED ==> SHIPPED[n].fieldType != Unknown
  {}

  // ---------------------------------------------------------------- sizes

  /** The longest text field index i can print to. */
  function MaxText(spec: Spec, i: nat): nat {
    if i + 1 !in spec then 0
    else
      match spec[i + 1].fieldType
      case Fixed => if spec[i + 1].minLength < 0 then 0 else spec[i + 1].minLength
      case LLVar => 101
      case LLLVar => 1002
      case Unknown => 0
  }

  function MaxTexts(spec: Spec, start: nat, limit: nat): nat
    requires start <= limit
    decreases limit - start
  {
    if start == limit then 0 else MaxText(spec, start) + MaxTexts(spec, start + 1, limit)
  }

  lemma WrittenSize(spec: Spec, i: nat, value: string)
    requires FieldFits(spec, i, value)
    ensures |WriteField(spec, i, value)| <= MaxText(spec, i)
  {
    SmallPowers();
    hide Numeral;
    hide Pow;
    match spec[i + 1].fieldType
    case LLVar => PadFits(|value|, 2);
    case LLLVar => PadFits(|value|, 3);
    case _ =>
  }

  lemma {:induction false} WrittenSizes(spec: Spec, fields: map<int, string>, i: nat, limit: nat)
    requires i <= limit && forall k :: k in fields ==> FieldFits(spec, k, fields[k])
    ensures |WriteFields(spec, fields, i, limit)| <= MaxTexts(spec, i, limit)
    decreases limit - i
  {
    hide FieldFits;
    hide WriteField;
    hide MaxText;
    if i < limit {
      WrittenSizes(spec, fields, i + 1, limit);
      if i in fields {
        WrittenSize(spec, i, fields[i]);
      }
    }
  }

  lemma {:induction false} MaxTextsSplit(spec: Spec, start: nat, mid: nat, limit: nat)
    requires start <= mid <= limit
    ensures MaxTexts(spec, start, limit) == MaxTexts(spec, start, mid) + MaxTexts(spec, mid, limit)
    decreases limit - start
  {
    if start < mid {
      MaxTextsSplit(spec, start + 1, mid, limit);
    }
  }

  /** Under any specification a well-formed message is no longer than its header and longest fields. */
  lemma MessageSize(spec: Spec, m: Msg)
    requires WellFormed(spec, m)
    ensures |Print(spec, m)| <= 36 + MaxTexts(spec, 1, 128)
  {
    HeaderSlices(m, "");
    hide Marked;
    hide Bit;
    hide FieldFits;
    WrittenSizes(spec, m.fields, 1, Limit(m));
    MaxTextsSplit(spec, 1, Limit(m), 128);
  }

  /** A stretch of fields of one width. */
  lemma {:induction false} Stretch(start: nat, limit: nat, width: nat)
    requires 1 <= start <= limit <= 128
    requires forall i :: start <= i < limit ==> TextWidth(i) == width
    ensures MaxTexts(SHIPPED, start, 128) == (limit - start) * width + MaxTexts(SHIPPED, limit, 128)
    decreases limit - start
  {
    hide MaxText;
    hide TextWidth;
    if start < limit {
      ShippedText(start);
      Stretch(start + 1, limit, width);
    }
  }

  function TextWidth(i: nat): int {
    if TypeOf(i + 1).LLVar? then 101 else if TypeOf(i + 1).LLLVar? then 1002 else MinLength(i + 1)
  }

  lemma ShippedText(i: nat)
    requires 1 <= i < 128
    ensures MaxText(SHIPPED, i) == TextWidth(i)
  {}

  lemma ShippedFrom2()
    ensures MaxTexts(SHIPPED, 1, 128) == 272 + MaxTexts(SHIPPED, 31, 128)
  {
    hide MaxTexts;
    hide MaxText;
    Stretch(1, 2, 101);
    Stretch(2, 3, 6);
    Stretch(3, 6, 12);
    Stretch(6, 7, 10);
    Stretch(7, 10, 8);
    Stretch(10, 12, 6);
    Stretch(12, 18, 4);
    Stretch(18, 24, 3);
    Stretch(24, 26, 2);
    Stretch(26, 27, 1);
    Stretch(27, 31, 9);
  }

  lemma ShippedFrom32()
    ensures MaxTexts(SHIPPED, 31, 128) == 4700 + MaxTexts(SHIPPED, 48, 128)
  {
    hide MaxTexts;
    hide MaxText;
    Stretch(31, 35, 101);
    Stretch(35, 36, 1002);
    Stretch(36, 37, 12);
    Stretch(37, 38, 6);
    Stretch(38, 39, 2);
    Stretch(39, 40, 3);
    Stretch(40, 41, 8);
    Stretch(41, 42, 15);
    Stretch(42, 43, 40);
    Stretch(43, 45, 101);
    Stretch(45, 48, 1002);
  }

  lemma ShippedFrom49()
    ensures MaxTexts(SHIPPED, 48, 128) == 10111 + MaxTexts(SHIPPED, 73, 128)
  {
    hide MaxTexts;
    hide MaxText;
    Stretch(48, 51, 3);
    Stretch(51, 53, 16);
    Stretch(53, 63, 1002);
    Stretch(63, 64, 8);
    Stretch(64, 65, 16);
    Stretch(65, 66, 1);
    Stretch(66, 67, 2);
    Stretch(67, 70, 3);
    Stretch(70, 72, 4);
    Stretch(72, 73, 6);
  }

  lemma ShippedFrom74()
    ensures MaxTexts(SHIPPED, 73, 128) == 291 + MaxTexts(SHIPPED, 95, 128)
  {
    hide MaxTexts;
    hide MaxText;
    Stretch(73, 81, 10);
    Stretch(81, 85, 12);
    Stretch(85, 89, 16);
    Stretch(89, 90, 42);
    Stretch(90, 91, 1);
    Stretch(91, 92, 2);
    Stretch(92, 93, 5);
    Stretch(93, 94, 7);
    Stretch(94, 95, 42);
  }

  lemma ShippedFrom96()
    ensures MaxTexts(SHIPPED, 95, 128) == 24611
  {
    hide MaxTexts;
    hide MaxText;
    Stretch(95, 96, 8);
    Stretch(96, 97, 17);
    Stretch(97, 98, 25);
    Stretch(98, 103, 101);
    Stretch(103, 127, 1002);
    Stretch(127, 128, 8);
    NoTexts(128);
  }

  /** The longest texts of all fields together. */
  lemma ShippedSize()
    ensures MaxTexts(SHIPPED, 1, 128) == 39985
  {
    hide MaxTexts;
    ShippedFrom2();
    ShippedFrom32();
    ShippedFrom49();
    ShippedFrom74();
    ShippedFrom96();
  }

  /** Every well-formed message under the shipped specification fits the two-byte length prefix. */
  lemma ShippedFits(m: Msg)
    requires WellFormed(SHIPPED, m)
    ensures |Print(SHIPPED, m)| < 0x1_0000
  {
    MessageSize(SHIPPED, m);
    ShippedSize();
    hide WellFormed;
    hide Print;
    hide MaxTexts;
  }

  lemma NoTexts(limit: nat)
    ensures MaxTexts(SHIPPED, limit, limit) == 0
  {}

  // ---------------------------------------------------------------- messages on the wire

  function TextOf(m: Msg): string
    requires WellFormed(SHIPPED, m)
  {
    Print(SHIPPED, m)
  }

  function Texts(messages: seq<Msg>): seq<string>
    requires forall i :: 0 <= i < |messages| ==> WellFormed(SHIPPED, messages[i])
  {
    seq(|messages|, i requires 0 <= i < |messages| => TextOf(messages[i]))
  }

  /** Any number of well-formed messages sent one after another arrive as the same messages in the same
      order. */
  lemma MessagesArrive(messages: seq<Msg>)
    requires forall i :: 0 <= i < |messages| ==> WellFormed(SHIPPED, messages[i])
    ensures var read := ReadAll(Stream(Texts(messages)));
            && |read| == |messages|
            && forall i :: 0 <= i < |messages| ==>
                 Parse(SHIPPED, read[i]) == Success(Parsed(messages[i], |read[i]|))
  {
    var texts := Texts(messages);
    forall i | 0 <= i < |messages|
      ensures |texts[i]| < 0x1_0000
      ensures Parse(SHIPPED, texts[i]) == Success(Parsed(messages[i], |texts[i]|))
    {
      OneMessage(messages[i]);
      assert texts[i] == Print(SHIPPED, messages[i]);
    }
    hide Texts;
    hide WellFormed;
    hide Parse;
    hide Print;
    FramesReadBack(texts);
  }

  lemma OneMessage(m: Msg)
    requires WellFormed(SHIPPED, m)
    ensures |Print(SHIPPED, m)| < 0x1_0000
    ensures Parse(SHIPPED, Print(SHIPPED, m)) == Success(Parsed(m, |Print(SHIPPED, m)|))
  {
    ShippedFits(m);
    RoundTripExactly(SHIPPED, m);
  }
}
