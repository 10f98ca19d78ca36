/** The ISO 8583:1987 message text (iso/iso_messages.go) as functions on values: what the parser reads,
    what the printer writes, and how the two relate. A string is a Go string: each char is one byte. */
module Codec {
  import opened Wrappers
  import opened Numerals
  import opened Bits

  datatype FieldType = Fixed | LLVar | LLLVar | Unknown

  datatype FieldDef = FieldDef(fieldType: FieldType, minLength: int)

  /** Field definitions by field number; the key of a field inside a message is that number minus one. */
  type Spec = map<int, FieldDef>

  // Keys of the fields the server reads and writes.
  const PAN := 1
  const PROCESSING_CODE := 2
  const AMOUNT := 3
  const TRANSMISSION_TIME := 6
  const STAN := 10
  const EXPIRY_DATE := 13
  const TRACK2 := 34
  const REFERENCE := 36
  const AUTH_ID := 37
  const RESPONSE_CODE := 38
  const CURRENCY := 48
  const ADDL_AMOUNTS := 53
  const ISSUER_DATA := 122

  /** The ISO 8583 numbers of these fields; a key of the field map is one less. */
  lemma FieldNumbers()
    ensures PAN + 1 == 2 && PROCESSING_CODE + 1 == 3 && AMOUNT + 1 == 4 && TRANSMISSION_TIME + 1 == 7
    ensures STAN + 1 == 11 && EXPIRY_DATE + 1 == 14 && TRACK2 + 1 == 35 && REFERENCE + 1 == 37
    ensures AUTH_ID + 1 == 38 && RESPONSE_CODE + 1 == 39 && CURRENCY + 1 == 49 && ADDL_AMOUNTS + 1 == 54
    ensures ISSUER_DATA + 1 == 123
  {}

  datatype Msg = Msg(mti: string, primary: uint64, secondary: Option<uint64>, fields: map<int, string>)

  datatype ParseError =
    | TooShort
    | InvalidBitmap
    | NotInSpec(fieldNo: int)
    | UnknownType(fieldNo: int)
    | InvalidLength(fieldNo: int)

  datatype Parsed = Parsed(msg: Msg, end: nat)

  datatype Field = Field(value: string, end: nat)

  datatype Fields = Fields(fields: map<int, string>, end: nat)

  predicate Marked(primary: uint64, secondary: Option<uint64>, i: nat)
    requires i < 128
  {
    if i < 64 then Bit(primary, i) else secondary.Some? && Bit(secondary.value, i - 64)
  }

  function GetField(fields: map<int, string>, i: int): string {
    if i in fields then fields[i] else ""
  }

  // ---------------------------------------------------------------- parsing

  function Take(s: string, pos: nat, n: int): (r: Option<string>)
    requires pos <= |s|
    ensures r.Some? ==> |r.value| == n
  {
    if n < 0 || pos + n > |s| then None else Some(s[pos..pos + n])
  }

  function ReadFixed(s: string, pos: nat, n: int): (r: Result<Field, ParseError>)
    requires pos <= |s|
    ensures r.Success? ==> pos <= r.value.end <= |s|
  {
    match Take(s, pos, n)
    case None => Failure(TooShort)
    case Some(value) => Success(Field(value, pos + n))
  }

  function ReadVar(s: string, pos: nat, digits: nat, fieldNo: int): (r: Result<Field, ParseError>)
    requires pos <= |s|
    ensures r.Success? ==> pos + digits <= r.value.end <= |s|
  {
    match Take(s, pos, digits)
    case None => Failure(TooShort)
    case Some(text) =>
      match Atoi(text)
      case None => Failure(InvalidLength(fieldNo))
      case Some(n) => ReadFixed(s, pos + digits, n)
  }

  function ReadField(spec: Spec, s: string, pos: nat, i: nat): (r: Result<Field, ParseError>)
    requires pos <= |s|
    ensures r.Success? ==> pos <= r.value.end <= |s|
  {
    if i + 1 !in spec then Failure(NotInSpec(i + 1))
    else
      match spec[i + 1].fieldType
      case Fixed => ReadFixed(s, pos, spec[i + 1].minLength)
      case LLVar => ReadVar(s, pos, 2, i + 1)
      case LLLVar => ReadVar(s, pos, 3, i + 1)
      case Unknown => Failure(UnknownType(i + 1))
  }

  /** Reads the marked fields from index i on, adding them to acc. */
  function ReadFields(spec: Spec, s: string, pos: nat, primary: uint64, secondary: Option<uint64>,
                      i: nat, acc: map<int, string>): (r: Result<Fields, ParseError>)
    requires pos <= |s| && i <= 128
    ensures r.Success? ==> pos <= r.value.end <= |s|
    decreases 128 - i
  {
    if i == 128 then Success(Fields(acc, pos))
    else if !Marked(primary, secondary, i) then
      ReadFields(spec, s, pos, primary, secondary, i + 1, acc)
    else
      match ReadField(spec, s, pos, i)
      case Failure(e) => Failure(e)
      case Success(f) => ReadFields(spec, s, f.end, primary, secondary, i + 1, acc[i := f.value])
  }

  function ParseBody(spec: Spec, s: string, pos: nat, primary: uint64, secondary: Option<uint64>)
    : (r: Result<Parsed, ParseError>)
    requires 4 <= pos <= |s|
    ensures r.Success? ==> pos <= r.value.end <= |s|
  {
    match ReadFields(spec, s, pos, primary, secondary, 1, map[])
    case Failure(e) => Failure(e)
    case Success(r) => Success(Parsed(Msg(s[..4], primary, secondary, r.fields), r.end))
  }

  /** The message at the start of s and where it ends. Characters after its last field are ignored. */
  function Parse(spec: Spec, s: string): (r: Result<Parsed, ParseError>)
    ensures r.Success? ==> 20 <= r.value.end <= |s|
  {
    if |s| < 20 then Failure(TooShort)
    else
      match ParseHex(s[4..20])
      case None => Failure(InvalidBitmap)
      case Some(primary) =>
        if !Bit(primary, 0) then ParseBody(spec, s, 20, primary, None)
        else if |s| < 36 then Failure(TooShort)
        else
          match ParseHex(s[20..36])
          case None => Failure(InvalidBitmap)
          case Some(secondary) => ParseBody(spec, s, 36, primary, Some(secondary))
  }

  // ---------------------------------------------------------------- printing

  function WriteField(spec: Spec, i: int, value: string): string {
    if i + 1 !in spec then ""
    else
      match spec[i + 1].fieldType
      case Fixed => value
      case LLVar => PadDecimal(|value|, 2) + value
      case LLLVar => PadDecimal(|value|, 3) + value
      case Unknown => ""
  }

  function WriteFields(spec: Spec, fields: map<int, string>, i: nat, limit: nat): string
    decreases limit - i
  {
    if i >= limit then ""
    else
      (if i in fields then WriteField(spec, i, fields[i]) else "") +
      WriteFields(spec, fields, i + 1, limit)
  }

  /** The printer dereferences the secondary bitmap whenever primary bit 0 is set. */
  predicate Printable(m: Msg) {
    Bit(m.primary, 0) ==> m.secondary.Some?
  }

  function Limit(m: Msg): nat {
    if Bit(m.primary, 0) then 128 else 64
  }

  function Header(m: Msg): string
    requires Printable(m)
  {
    m.mti + Hex(m.primary) + (if Bit(m.primary, 0) then Hex(m.secondary.value) else "")
  }

  function Print(spec: Spec, m: Msg): string
    requires Printable(m)
  {
    Header(m) + WriteFields(spec, m.fields, 1, Limit(m))
  }

  // ---------------------------------------------------------------- well-formedness

  predicate FieldFits(spec: Spec, i: int, value: string) {
    i + 1 in spec &&
    match spec[i + 1].fieldType
    case Fixed => |value| == spec[i + 1].minLength
    case LLVar => |value| <= 99
    case LLLVar => |value| <= 999
    case Unknown => false
  }

  predicate WellFormed(spec: Spec, m: Msg) {
    && |m.mti| == 4
    && (Bit(m.primary, 0) <==> m.secondary.Some?)
    && (forall i :: i in m.fields ==> 1 <= i < 128)
    && (forall i :: i in m.fields ==> Marked(m.primary, m.secondary, i))
    && (forall i :: 1 <= i < 128 && Marked(m.primary, m.secondary, i) ==> i in m.fields)
    && (forall i :: i in m.fields ==> FieldFits(spec, i, m.fields[i]))
  }

  // ---------------------------------------------------------------- length prefixes

  lemma LengthText(text: string)
    requires text != "" && Atoi(text).Some? && 0 <= Atoi(text).value
    ensures Atoi(text).value < Pow(10, |text|)
    ensures Numeral(Atoi(text).value, 10, |text|) == text <==> IsNumeral(text, 10)
  {
    hide Value;
    hide Numeral;
    hide Pow;
    if text[0] == '+' || text[0] == '-' {
      SignedText(text, Atoi(text).value);
    } else {
      ValueBound(text, 10);
      NumeralOfValue(text, 10);
    }
  }

  lemma SignedText(text: string, n: nat)
    requires text != "" && (text[0] == '+' || text[0] == '-') && IsNumeral(text[1..], 10)
    requires n == Value(text[1..], 10) || n == 0 - Value(text[1..], 10)
    ensures n < Pow(10, |text|)
    ensures Numeral(n, 10, |text|) != text && !IsNumeral(text, 10)
  {
    hide Value;
    hide Numeral;
    ValueBound(text[1..], 10);
    assert Pow(10, |text|) == 10 * Pow(10, |text| - 1);
    ValueOfNumeral(n, 10, |text|);
    assert DigitValue(text[0]) == -1;
  }

  lemma AtoiOfNumeral(n: nat, width: nat)
    requires 0 < width && n < Pow(10, width)
    ensures Atoi(Numeral(n, 10, width)) == Some(n)
  {
    ValueOfNumeral(n, 10, width);
    assert 0 <= DigitValue(Numeral(n, 10, width)[0]);
  }

  // ---------------------------------------------------------------- the encoding is a prefix code

  lemma SameSlice(s: string, t: string, end: nat, a: nat, b: nat)
    requires a <= b <= end <= |s| && end <= |t| && t[..end] == s[..end]
    ensures s[a..b] == t[a..b]
  {
    assert s[..end][a..b] == s[a..b] && t[..end][a..b] == t[a..b];
  }

  lemma ReadVarLocal(s: string, t: string, pos: nat, digits: nat, fieldNo: int)
    requires pos <= |s| && ReadVar(s, pos, digits, fieldNo).Success?
    requires ReadVar(s, pos, digits, fieldNo).value.end <= |t|
    requires t[..ReadVar(s, pos, digits, fieldNo).value.end] == s[..ReadVar(s, pos, digits, fieldNo).value.end]
    ensures ReadVar(t, pos, digits, fieldNo) == ReadVar(s, pos, digits, fieldNo)
  {
    hide Atoi;
    var end := ReadVar(s, pos, digits, fieldNo).value.end;
    SameSlice(s, t, end, pos, pos + digits);
    SameSlice(s, t, end, pos + digits, end);
  }

  lemma ReadFieldLocal(spec: Spec, s: string, t: string, pos: nat, i: nat)
    requires pos <= |s| && ReadField(spec, s, pos, i).Success?
    requires ReadField(spec, s, pos, i).value.end <= |t|
    requires t[..ReadField(spec, s, pos, i).value.end] == s[..ReadField(spec, s, pos, i).value.end]
    ensures ReadField(spec, t, pos, i) == ReadField(spec, s, pos, i)
  {
    hide Atoi;
    var end := ReadField(spec, s, pos, i).value.end;
    SameSlice(s, t, end, pos, end);
    match spec[i + 1].fieldType
    case Fixed =>
    case LLVar => ReadVarLocal(s, t, pos, 2, i + 1);
    case LLLVar => ReadVarLocal(s, t, pos, 3, i + 1);
  }

  lemma {:induction false} ReadFieldsLocal(
    spec: Spec, s: string, t: string, pos: nat, primary: uint64, secondary: Option<uint64>, i: nat,
    acc: map<int, string>, end: nat)
    requires pos <= |s| && i <= 128
    requires var r := ReadFields(spec, s, pos, primary, secondary, i, acc); r.Success? && r.value.end == end
    requires end <= |t| && t[..end] == s[..end]
    ensures ReadFields(spec, t, pos, primary, secondary, i, acc) ==
            ReadFields(spec, s, pos, primary, secondary, i, acc)
    decreases 128 - i
  {
    if i < 128 {
      if Marked(primary, secondary, i) {
        var f := ReadField(spec, s, pos, i).value;
        SameSlice(s, t, end, 0, f.end);
        assert s[0..f.end] == s[..f.end] && t[0..f.end] == t[..f.end];
        ReadFieldLocal(spec, s, t, pos, i);
        ReadFieldsLocal(spec, s, t, f.end, primary, secondary, i + 1, acc[i := f.value], end);
      } else {
        ReadFieldsLocal(spec, s, t, pos, primary, secondary, i + 1, acc, end);
      }
    }
  }

  /** Only the consumed characters matter: any text that starts with them parses to the same message. */
  lemma ParseLocal(spec: Spec, s: string, t: string)
    requires Parse(spec, s).Success?
    requires Parse(spec, s).value.end <= |t|
    requires t[..Parse(spec, s).value.end] == s[..Parse(spec, s).value.end]
    ensures Parse(spec, t) == Parse(spec, s)
  {
    var r := Parse(spec, s).value;
    hide Bit;
    hide ParseHex;
    var pos := if r.msg.secondary.Some? then 36 else 20;
    assert pos <= r.end;
    SameSlice(s, t, r.end, 0, 4);
    assert s[..4] == s[0..4] && t[..4] == t[0..4];
    SameSlice(s, t, r.end, 4, 20);
    if r.msg.secondary.Some? {
      SameSlice(s, t, r.end, 20, 36);
    }
    ReadFieldsLocal(spec, s, t, pos, r.msg.primary, r.msg.secondary, 1, map[], r.end);
    hide ReadFields;
  }

  /** No text that stops short of the message's end is accepted. */
  lemma ShorterRejected(spec: Spec, s: string, j: nat)
    requires Parse(spec, s).Success? && j < Parse(spec, s).value.end
    ensures Parse(spec, s[..j]).Failure?
  {
    var end := Parse(spec, s).value.end;
    if Parse(spec, s[..j]).Success? {
      var k := Parse(spec, s[..j]).value.end;
      assert s[..k] == s[..j][..k];
      ParseLocal(spec, s[..j], s);
    }
  }

  // ---------------------------------------------------------------- print, then parse

  lemma ReadWritten(spec: Spec, i: nat, value: string, before: string, after: string)
    requires FieldFits(spec, i, value)
    ensures var s := before + WriteField(spec, i, value) + after;
            ReadField(spec, s, |before|, i) ==
            Success(Field(value, |before| + |WriteField(spec, i, value)|))
  {
    hide Pow;
    hide Numeral;
    hide Value;
    hide PadDecimal;
    hide ReadVar;
    hide Atoi;
    var s := before + WriteField(spec, i, value) + after;
    SmallPowers();
    match spec[i + 1].fieldType
    case Fixed =>
      assert s[|before|..|before| + |value|] == value;
    case LLVar =>
      VarWritten(value, 2, before, after, i + 1);
    case LLLVar =>
      VarWritten(value, 3, before, after, i + 1);
  }

  lemma VarWritten(value: string, digits: nat, before: string, after: string, fieldNo: int)
    requires 0 < digits && |value| < Pow(10, digits)
    ensures |PadDecimal(|value|, digits)| == digits
    ensures var s := before + (PadDecimal(|value|, digits) + value) + after;
            ReadVar(s, |before|, digits, fieldNo) == Success(Field(value, |before| + digits + |value|))
  {
    hide Pow;
    hide Numeral;
    hide Value;
    hide PadDecimal;
    hide Atoi;
    var prefix := PadDecimal(|value|, digits);
    var s := before + (prefix + value) + after;
    PadFits(|value|, digits);
    AtoiOfNumeral(|value|, digits);
    assert s[|before|..|before| + digits] == prefix;
    assert s[|before| + digits..|before| + digits + |value|] == value;
  }

  function From(fields: map<int, string>, i: nat): map<int, string> {
    map k | k in fields && i <= k :: fields[k]
  }

  lemma Regroup(a: string, b: string, c: string, d: string)
    ensures a + (b + c) + d == a + b + (c + d) == (a + b) + c + d
  {}

  lemma FromStep(fields: map<int, string>, i: nat, acc: map<int, string>)
    requires i in fields
    ensures acc[i := fields[i]] + From(fields, i + 1) == acc + From(fields, i)
  {}

  lemma FromSkip(fields: map<int, string>, i: nat)
    requires i !in fields
    ensures From(fields, i + 1) == From(fields, i)
  {}

  lemma FromEnd(fields: map<int, string>, acc: map<int, string>)
    requires forall k :: k in fields ==> k < 128
    ensures acc + From(fields, 128) == acc
  {}

  lemma {:induction false} ReadBack(spec: Spec, m: Msg, i: nat, before: string, after: string,
                                    acc: map<int, string>)
    requires WellFormed(spec, m) && 1 <= i <= 128
    ensures var body := WriteFields(spec, m.fields, i, Limit(m));
            ReadFields(spec, before + body + after, |before|, m.primary, m.secondary, i, acc) ==
            Success(Fields(acc + From(m.fields, i), |before| + |body|))
    decreases 128 - i
  {
    hide Bit;
    hide FieldFits;
    hide ReadField;
    hide WriteField;
    hide From;
    var body := WriteFields(spec, m.fields, i, Limit(m));
    var s := before + body + after;
    if i == 128 {
      FromEnd(m.fields, acc);
      assert body == "" && before + "" + after == before + after;
    } else {
      var rest := WriteFields(spec, m.fields, i + 1, Limit(m));
      assert Marked(m.primary, m.secondary, i) <==> i in m.fields;
      if i in m.fields {
        var value := m.fields[i];
        var text := WriteField(spec, i, value);
        assert i < Limit(m) && body == text + rest;
        ReadWritten(spec, i, value, before, rest + after);
        ReadBack(spec, m, i + 1, before + text, after, acc[i := value]);
        Regroup(before, text, rest, after);
        FromStep(m.fields, i, acc);
      } else {
        assert body == rest;
        ReadBack(spec, m, i + 1, before, after, acc);
        FromSkip(m.fields, i);
      }
    }
  }

  lemma HeaderSlices(m: Msg, rest: string)
    requires |m.mti| == 4 && (Bit(m.primary, 0) <==> m.secondary.Some?)
    ensures var s := Header(m) + rest;
            && |Header(m)| == (if m.secondary.Some? then 36 else 20)
            && s[..4] == m.mti && s[4..20] == Hex(m.primary)
            && (m.secondary.Some? ==> s[20..36] == Hex(m.secondary.value))
  {
    hide Bit;
    hide Hex;
  }

  /** Every well-formed message parses back from its printed text, whatever follows that text. */
  lemma PrintThenParse(spec: Spec, m: Msg, after: string)
    requires WellFormed(spec, m)
    ensures Parse(spec, Print(spec, m) + after) == Success(Parsed(m, |Print(spec, m)|))
  {
    hide Bit;
    hide ParseHex;
    hide Hex;
    hide FieldFits;
    hide ReadFields;
    hide WriteFields;
    var body := WriteFields(spec, m.fields, 1, Limit(m));
    var s := Print(spec, m) + after;
    var header := Header(m);
    ReadBack(spec, m, 1, header, after, map[]);
    assert s == header + body + after;
    assert map[] + From(m.fields, 1) == m.fields;
    ParseOfHex(m.primary);
    HeaderSlices(m, body + after);
    assert s == header + (body + after);
    if m.secondary.Some? {
      ParseOfHex(m.secondary.value);
    }
  }

  // ---------------------------------------------------------------- parse, then print

  /** Every length prefix from field index i on is written with decimal digits only, without a sign. */
  predicate PlainLengths(spec: Spec, s: string, pos: nat, primary: uint64, secondary: Option<uint64>, i: nat)
    requires pos <= |s| && i <= 128
    decreases 128 - i
  {
    i == 128 ||
    if !Marked(primary, secondary, i) then PlainLengths(spec, s, pos, primary, secondary, i + 1)
    else
      var r := ReadField(spec, s, pos, i);
      r.Success? && PlainLength(spec, s, pos, i) &&
      PlainLengths(spec, s, r.value.end, primary, secondary, i + 1)
  }

  predicate PlainLength(spec: Spec, s: string, pos: nat, i: nat)
    requires pos <= |s| && ReadField(spec, s, pos, i).Success?
  {
    match spec[i + 1].fieldType
    case LLVar => IsNumeral(s[pos..pos + 2], 10)
    case LLLVar => IsNumeral(s[pos..pos + 3], 10)
    case _ => true
  }

  /** The text is spelled as the printer would spell it. */
  predicate CanonicalText(spec: Spec, s: string)
    requires Parse(spec, s).Success?
  {
    var m := Parse(spec, s).value.msg;
    && IsCanonical(s[4..20])
    && (m.secondary.Some? ==> IsCanonical(s[20..36]))
    && PlainLengths(spec, s, if m.secondary.Some? then 36 else 20, m.primary, m.secondary, 1)
  }

  lemma WriteRead(spec: Spec, s: string, pos: nat, i: nat)
    requires pos <= |s| && ReadField(spec, s, pos, i).Success?
    ensures var f := ReadField(spec, s, pos, i).value;
            && FieldFits(spec, i, f.value)
            && |WriteField(spec, i, f.value)| == f.end - pos
            && (WriteField(spec, i, f.value) == s[pos..f.end] <==> PlainLength(spec, s, pos, i))
  {
    hide Pow;
    hide Numeral;
    hide Value;
    hide PadDecimal;
    hide ReadVar;
    hide Atoi;
    SmallPowers();
    match spec[i + 1].fieldType
    case Fixed =>
    case LLVar => VarWriteRead(s, pos, 2, i + 1);
    case LLLVar => VarWriteRead(s, pos, 3, i + 1);
  }

  lemma VarWriteRead(s: string, pos: nat, digits: nat, fieldNo: int)
    requires pos <= |s| && 0 < digits && ReadVar(s, pos, digits, fieldNo).Success?
    ensures var f := ReadVar(s, pos, digits, fieldNo).value;
            var text := PadDecimal(|f.value|, digits) + f.value;
            && |f.value| < Pow(10, digits)
            && |text| == f.end - pos
            && (text == s[pos..f.end] <==> IsNumeral(s[pos..pos + digits], 10))
  {
    hide Pow;
    hide Numeral;
    hide Value;
    hide PadDecimal;
    hide Atoi;
    var f := ReadVar(s, pos, digits, fieldNo).value;
    var prefix := s[pos..pos + digits];
    LengthText(prefix);
    PadFits(|f.value|, digits);
    var text := PadDecimal(|f.value|, digits) + f.value;
    assert s[pos..f.end] == prefix + f.value;
    SameSplit(PadDecimal(|f.value|, digits), f.value, prefix, f.value);
  }

  lemma {:induction false} WriteReadFields(
    spec: Spec, s: string, pos: nat, primary: uint64, secondary: Option<uint64>, i: nat,
    acc: map<int, string>, limit: nat)
    requires pos <= |s| && 1 <= i <= 128 && limit == (if secondary.Some? then 128 else 64)
    requires ReadFields(spec, s, pos, primary, secondary, i, acc).Success?
    requires forall k :: k in acc ==> k < i
    ensures var r := ReadFields(spec, s, pos, primary, secondary, i, acc).value;
            && (forall k :: k in acc ==> k in r.fields && r.fields[k] == acc[k])
            && (forall k :: k in r.fields && k !in acc ==>
                  i <= k < 128 && Marked(primary, secondary, k) && FieldFits(spec, k, r.fields[k]))
            && (forall k :: i <= k < 128 && Marked(primary, secondary, k) ==> k in r.fields)
            && |WriteFields(spec, r.fields, i, limit)| == r.end - pos
            && (WriteFields(spec, r.fields, i, limit) == s[pos..r.end] <==>
                PlainLengths(spec, s, pos, primary, secondary, i))
    decreases 128 - i
  {
    hide Bit;
    hide FieldFits;
    hide ReadField;
    hide WriteField;
    hide PlainLength;
    if i < 128 {
      var r := ReadFields(spec, s, pos, primary, secondary, i, acc).value;
      var rest := WriteFields(spec, r.fields, i + 1, limit);
      if Marked(primary, secondary, i) {
        var f := ReadField(spec, s, pos, i).value;
        WriteReadFields(spec, s, f.end, primary, secondary, i + 1, acc[i := f.value], limit);
        WriteRead(spec, s, pos, i);
        var text := WriteField(spec, i, f.value);
        assert r.fields[i] == f.value && i < limit;
        assert WriteFields(spec, r.fields, i, limit) == text + rest;
        hide WriteFields;
        hide ReadFields;
        assert s[pos..r.end] == s[pos..f.end] + s[f.end..r.end];
        SameSplit(text, rest, s[pos..f.end], s[f.end..r.end]);
      } else {
        WriteReadFields(spec, s, pos, primary, secondary, i + 1, acc, limit);
        assert i !in r.fields;
        assert WriteFields(spec, r.fields, i, limit) == rest;
      }
    }
  }

  lemma SameSplit(a: string, b: string, c: string, d: string)
    requires |a| == |c|
    ensures a + b == c + d <==> a == c && b == d
  {
    assert (a + b)[..|a|] == a && (c + d)[..|a|] == c;
    assert (a + b)[|a|..] == b && (c + d)[|a|..] == d;
  }

  lemma HeaderRead(spec: Spec, s: string)
    requires Parse(spec, s).Success?
    ensures var m := Parse(spec, s).value.msg;
            var pos := if m.secondary.Some? then 36 else 20;
            && |m.mti| == 4
            && (Bit(m.primary, 0) <==> m.secondary.Some?)
            && |Header(m)| == pos <= |s|
            && (Header(m) == s[..pos] <==>
                IsCanonical(s[4..20]) && (m.secondary.Some? ==> IsCanonical(s[20..36])))
  {
    hide Bit;
    hide Numeral;
    hide Value;
    hide ReadFields;
    var m := Parse(spec, s).value.msg;
    var pos := if m.secondary.Some? then 36 else 20;
    var second := if m.secondary.Some? then Hex(m.secondary.value) else "";
    HexOfParse(s[4..20]);
    if m.secondary.Some? {
      HexOfParse(s[20..36]);
    }
    assert s[..pos] == s[..20] + s[20..pos] && s[..20] == s[..4] + s[4..20];
    SameSplit(m.mti, Hex(m.primary), s[..4], s[4..20]);
    SameSplit(m.mti + Hex(m.primary), second, s[..20], s[20..pos]);
  }

  /** Whatever the parser accepts is well formed and prints as a text of the length that was consumed;
      it is the same text exactly when the bitmaps were upper case and the lengths unsigned. */
  lemma ParseThenPrint(spec: Spec, s: string)
    requires Parse(spec, s).Success?
    ensures var r := Parse(spec, s).value;
            && WellFormed(spec, r.msg)
            && |Print(spec, r.msg)| == r.end
            && (Print(spec, r.msg) == s[..r.end] <==> CanonicalText(spec, s))
  {
    hide Bit;
    hide Header;
    hide ReadFields;
    hide WriteFields;
    hide PlainLengths;
    hide FieldFits;
    var r := Parse(spec, s).value;
    var m := r.msg;
    var pos := if m.secondary.Some? then 36 else 20;
    HeaderRead(spec, s);
    WriteReadFields(spec, s, pos, m.primary, m.secondary, 1, map[], Limit(m));
    assert s[..r.end] == s[..pos] + s[pos..r.end];
    SameSplit(Header(m), WriteFields(spec, m.fields, 1, Limit(m)), s[..pos], s[pos..r.end]);
  }

  /** Parsing canonicalises: the printed form of an accepted text re-parses to the same message and is
      itself canonical. */
  lemma ParseCanonicalises(spec: Spec, s: string)
    requires Parse(spec, s).Success?
    ensures var r := Parse(spec, s).value;
            Printable(r.msg) && Parse(spec, Print(spec, r.msg)) == Success(r) &&
            CanonicalText(spec, Print(spec, r.msg))
  {
    var r := Parse(spec, s).value;
    ParseThenPrint(spec, s);
    var text := Print(spec, r.msg);
    PrintThenParse(spec, r.msg, "");
    assert text + "" == text;
    ParseThenPrint(spec, text);
    assert text[..|text|] == text;
  }

  /** Printing then parsing recovers exactly the well-formed messages and no others. */
  lemma RoundTripExactly(spec: Spec, m: Msg)
    requires Printable(m)
    ensures Parse(spec, Print(spec, m)) == Success(Parsed(m, |Print(spec, m)|)) <==> WellFormed(spec, m)
  {
    if WellFormed(spec, m) {
      PrintThenParse(spec, m, "");
      assert Print(spec, m) + "" == Print(spec, m);
    }
    if Parse(spec, Print(spec, m)) == Success(Parsed(m, |Print(spec, m)|)) {
      ParseThenPrint(spec, Print(spec, m));
    }
  }

  /** Texts of two well-formed messages, each followed by anything, agree only for equal messages. */
  lemma UniquelyDecodable(spec: Spec, a: Msg, b: Msg, afterA: string, afterB: string)
    requires WellFormed(spec, a) && WellFormed(spec, b)
    requires Print(spec, a) + afterA == Print(spec, b) + afterB
    ensures a == b && afterA == afterB
  {
    PrintThenParse(spec, a, afterA);
    PrintThenParse(spec, b, afterB);
    SameSplit(Print(spec, a), afterA, Print(spec, b), afterB);
  }

  // ---------------------------------------------------------------- marking and setting fields

  /** MarkField: sets the bit of index i, adding the secondary bitmap when the index needs it. */
  function Mark(m: Msg, i: nat): Msg
    requires i < 128
  {
    if i < 64 then m.(primary := WithBit(m.primary, i, true))
    else
      var word: uint64 := if m.secondary.Some? then m.secondary.value else 0;
      m.(primary := WithBit(m.primary, 0, true), secondary := Some(WithBit(word, i - 64, true)))
  }

  /** SetField: changes the map only. */
  function SetField(m: Msg, i: int, value: string): Msg {
    m.(fields := m.fields[i := value])
  }

  function MarkAndSet(m: Msg, i: nat, value: string): Msg
    requires i < 128
  {
    SetField(Mark(m, i), i, value)
  }

  lemma {:induction false} ShrOfZero(k: nat)
    ensures Shr(0, k) == 0
  {
    if k > 0 {
      ShrOfZero(k - 1);
    }
  }

  lemma MarkedAfterMark(m: Msg, i: nat, j: nat)
    requires 1 <= i < 128 && 1 <= j < 128
    ensures Marked(Mark(m, i).primary, Mark(m, i).secondary, j) <==>
            j == i || Marked(m.primary, m.secondary, j)
  {
    if i < 64 {
      if j < 64 {
        BitOfWithBit(m.primary, i, true, j);
      }
    } else {
      var word: uint64 := if m.secondary.Some? then m.secondary.value else 0;
      if j < 64 {
        BitOfWithBit(m.primary, 0, true, j);
      } else {
        BitOfWithBit(word, i - 64, true, j - 64);
        ShrOfZero(127 - j);
      }
    }
  }

  lemma MarkFrame(m: Msg, i: nat)
    requires i < 128
    ensures Mark(m, i).mti == m.mti && Mark(m, i).fields == m.fields
  {}

  lemma SecondaryAfterMark(m: Msg, i: nat)
    requires 1 <= i < 128
    requires Bit(m.primary, 0) <==> m.secondary.Some?
    ensures Bit(Mark(m, i).primary, 0) <==> Mark(m, i).secondary.Some?
  {
    BitOfWithBit(m.primary, if i < 64 then i else 0, true, 0);
  }

  /** Marking and setting a field keeps a message well formed exactly when the value fits the field. */
  lemma MarkAndSetKeeps(spec: Spec, m: Msg, i: nat, value: string)
    requires WellFormed(spec, m) && 1 <= i < 128
    ensures WellFormed(spec, MarkAndSet(m, i, value)) <==> FieldFits(spec, i, value)
  {
    hide Mark;
    hide Marked;
    hide FieldFits;
    var r := MarkAndSet(m, i, value);
    MarkFrame(m, i);
    forall j | 1 <= j < 128
      ensures Marked(r.primary, r.secondary, j) <==> j == i || Marked(m.primary, m.secondary, j)
    {
      MarkedAfterMark(m, i, j);
    }
    SecondaryAfterMark(m, i);
    assert i in r.fields && r.fields[i] == value;
    if FieldFits(spec, i, value) {
      forall j | j in r.fields ensures 1 <= j < 128 && FieldFits(spec, j, r.fields[j]) {
        assert j == i || j in m.fields;
      }
      assert WellFormed(spec, r);
    }
  }

  /** Setting without marking keeps a message well formed exactly when the value fits and the field was
      already there. */
  lemma SetFieldKeeps(spec: Spec, m: Msg, i: int, value: string)
    requires WellFormed(spec, m)
    ensures WellFormed(spec, SetField(m, i, value)) <==> i in m.fields && FieldFits(spec, i, value)
  {
    hide Marked;
    hide FieldFits;
    assert i in SetField(m, i, value).fields;
  }

  /** Marking index 0 of a message without a secondary bitmap makes it unprintable; nothing else does. */
  lemma MarkPrintable(m: Msg, i: nat)
    requires Printable(m) && i < 128
    ensures Printable(Mark(m, i)) <==> i != 0 || m.secondary.Some?
  {
    BitOfWithBit(m.primary, if i < 64 then i else 0, true, 0);
  }
}
