/** The message object of iso/iso_messages.go: parsing and printing loops and the mutators, each proved
    against the value-level functions of Codec. */
module Message {
  import opened Wrappers
  import opened Numerals
  import opened Bits
  import opened Codec

  /** With no secondary bitmap nothing past index 63 is read. */
  lemma {:induction false} NoSecondary(spec: Spec, s: string, pos: nat, primary: uint64, i: nat,
                                       acc: map<int, string>)
    requires pos <= |s| && 64 <= i <= 128
    ensures ReadFields(spec, s, pos, primary, None, i, acc) == Success(Fields(acc, pos))
    decreases 128 - i
  {
    if i < 128 {
      NoSecondary(spec, s, pos, primary, i + 1, acc);
    }
  }

  lemma PrintStep(spec: Spec, fields: map<int, string>, i: nat, limit: nat, text: string, before: string)
    requires i < limit && text == if i in fields then WriteField(spec, i, fields[i]) else ""
    ensures before + WriteFields(spec, fields, i, limit) ==
            before + text + WriteFields(spec, fields, i + 1, limit)
  {
    hide WriteField;
  }

  lemma PrintEnd(spec: Spec, fields: map<int, string>, limit: nat, text: string)
    ensures text + WriteFields(spec, fields, limit, limit) == text
  {}

  /** One field at currIndex: the parser's inner closure. */
  method ParseField(specRef: Spec, message: string, currIndex: nat, ind: nat)
    returns (r: Result<Field, ParseError>)
    requires currIndex <= |message|
    ensures r == ReadField(specRef, message, currIndex, ind)
  {
    var fieldNo := ind + 1;
    if fieldNo !in specRef {
      return Failure(NotInSpec(fieldNo));
    }
    var fieldDef := specRef[fieldNo];
    var lengthDigits := 0;
    match fieldDef.fieldType {
      case Fixed =>
        var value := Take(message, currIndex, fieldDef.minLength);
        if value.None? {
          return Failure(TooShort);
        }
        return Success(Field(value.value, currIndex + fieldDef.minLength));
      case LLVar => lengthDigits := 2;
      case LLLVar => lengthDigits := 3;
      case Unknown => return Failure(UnknownType(fieldNo));
    }
    var lengthStr := Take(message, currIndex, lengthDigits);
    if lengthStr.None? {
      return Failure(TooShort);
    }
    var length := Atoi(lengthStr.value);
    if length.None? {
      return Failure(InvalidLength(fieldNo));
    }
    var value := Take(message, currIndex + lengthDigits, length.value);
    if value.None? {
      return Failure(TooShort);
    }
    return Success(Field(value.value, currIndex + lengthDigits + length.value));
  }

  class Iso8583Message {
    var message: string
    var primaryBitMap: BitSet
    var secondaryBitMap: BitSet?
    var fields: map<int, string>
    const isoSpec: Spec

    ghost function Repr(): set<object>
      reads this
    {
      if secondaryBitMap == null then {this, primaryBitMap}
      else {this, primaryBitMap, secondaryBitMap as BitSet}
    }

    ghost predicate Valid()
      reads this
    {
      4 <= |message| && primaryBitMap != secondaryBitMap
    }

    /** The message as a value; its type identifier is read off the original text. */
    function Value(): Msg
      requires Valid()
      reads this, primaryBitMap, secondaryBitMap
    {
      Msg(message[..4], primaryBitMap.data,
          if secondaryBitMap == null then None else Some(secondaryBitMap.data), fields)
    }

    constructor (message: string, primaryBitMap: BitSet, secondaryBitMap: BitSet?,
                 fields: map<int, string>, isoSpec: Spec)
      ensures this.message == message && this.primaryBitMap == primaryBitMap
      ensures this.secondaryBitMap == secondaryBitMap && this.fields == fields
      ensures this.isoSpec == isoSpec
    {
      this.message, this.primaryBitMap, this.secondaryBitMap := message, primaryBitMap, secondaryBitMap;
      this.fields, this.isoSpec := fields, isoSpec;
    }

    static method NewIso8583Message(message: string, specRef: Spec)
      returns (r: Result<Iso8583Message, ParseError>)
      ensures r.Success? <==> Parse(specRef, message).Success?
      ensures r.Failure? ==> Parse(specRef, message) == Failure(r.error)
      ensures r.Success? ==>
                && r.value.Valid() && fresh(r.value.Repr())
                && r.value.Value() == Parse(specRef, message).value.msg
                && r.value.message == message && r.value.isoSpec == specRef
    {
      hide Bit;
      hide ReadField;
      hide ParseHex;
      var currIndex: nat := 0;
      if currIndex + 4 > |message| {
        return Failure(TooShort);
      }
      currIndex := currIndex + 4;
      if currIndex + 16 > |message| {
        return Failure(TooShort);
      }
      var primaryBitMap := new BitSet(0);
      var ok := primaryBitMap.SetString(message[currIndex..currIndex + 16]);
      currIndex := currIndex + 16;
      if !ok {
        return Failure(InvalidBitmap);
      }
      var secondaryBitMap: BitSet? := null;
      if primaryBitMap.GetBit(0) {
        if currIndex + 16 > |message| {
          return Failure(TooShort);
        }
        secondaryBitMap := new BitSet(0);
        ok := secondaryBitMap.SetString(message[currIndex..currIndex + 16]);
        currIndex := currIndex + 16;
        if !ok {
          return Failure(InvalidBitmap);
        }
      }
      ghost var p := primaryBitMap.data;
      ghost var q := if secondaryBitMap == null then None else Some(secondaryBitMap.data);
      ghost var start := currIndex;
      assert Parse(specRef, message) == ParseBody(specRef, message, start, p, q);

      var fields: map<int, string> := map[];
      var ind: nat := 1;
      while ind < 64
        invariant 1 <= ind <= 64 && currIndex <= |message| && primaryBitMap.data == p
        invariant q == if secondaryBitMap == null then None else Some(secondaryBitMap.data)
        invariant ReadFields(specRef, message, start, p, q, 1, map[]) ==
                  ReadFields(specRef, message, currIndex, p, q, ind, fields)
      {
        if primaryBitMap.GetBit(ind) {
          var retVal := ParseField(specRef, message, currIndex, ind);
          if retVal.Failure? {
            return Failure(retVal.error);
          }
          fields := fields[ind := retVal.value.value];
          currIndex := retVal.value.end;
        }
        ind := ind + 1;
      }
      if secondaryBitMap != null {
        ind := 0;
        while ind < 64
          invariant 0 <= ind <= 64 && currIndex <= |message| && primaryBitMap.data == p
          invariant q == Some(secondaryBitMap.data)
          invariant ReadFields(specRef, message, start, p, q, 1, map[]) ==
                    ReadFields(specRef, message, currIndex, p, q, 64 + ind, fields)
        {
          if secondaryBitMap.GetBit(ind) {
            var retVal := ParseField(specRef, message, currIndex, 64 + ind);
            if retVal.Failure? {
              return Failure(retVal.error);
            }
            fields := fields[64 + ind := retVal.value.value];
            currIndex := retVal.value.end;
          }
          ind := ind + 1;
        }
      } else {
        NoSecondary(specRef, message, currIndex, p, 64, fields);
      }
      var isoMessage := new Iso8583Message(message, primaryBitMap, secondaryBitMap, fields, specRef);
      return Success(isoMessage);
    }

    function GetMTI(): string
      requires Valid()
      reads this
    {
      message[..4]
    }

    method SetField(fieldNum: int, value: string)
      requires Valid()
      modifies this`fields
      ensures Valid() && Repr() == old(Repr())
      ensures Value() == Codec.SetField(old(Value()), fieldNum, value)
    {
      fields := fields[fieldNum := value];
    }

    /** A field that is absent reads as the empty string. */
    function GetField(fieldNum: int): string
      reads this
    {
      Codec.GetField(fields, fieldNum)
    }

    method MarkField(fieldIdx: nat)
      requires Valid() && fieldIdx < 128
      modifies this`secondaryBitMap, primaryBitMap, secondaryBitMap
      ensures Valid() && fresh(Repr() - old(Repr()))
      ensures Value() == Mark(old(Value()), fieldIdx)
    {
      hide WithBit;
      if fieldIdx < 64 {
        primaryBitMap.SetBit(fieldIdx, true);
      } else {
        primaryBitMap.SetBit(0, true);
        if secondaryBitMap == null {
          secondaryBitMap := new BitSet(0);
        }
        secondaryBitMap.SetBit(fieldIdx - 64, true);
      }
    }

    /** A deep copy of req under another type identifier: changing the copy leaves req alone. */
    static method NewResponseMessage(req: Iso8583Message, responseMTI: string)
      returns (resp: Iso8583Message)
      requires req.Valid() && 4 <= |responseMTI|
      ensures resp.Valid() && fresh(resp.Repr()) && resp.isoSpec == req.isoSpec
      ensures resp.Value() == req.Value().(mti := responseMTI[..4])
    {
      var primary := new BitSet(req.primaryBitMap.data);
      var secondary: BitSet? := null;
      if req.secondaryBitMap != null {
        secondary := new BitSet(req.secondaryBitMap.data);
      }
      var text := responseMTI + req.message[4..];
      assert text[..4] == responseMTI[..4];
      resp := new Iso8583Message(text, primary, secondary, req.fields, req.isoSpec);
    }

    method FormatIso() returns (s: string)
      requires Valid() && Printable(Value())
      ensures s == Print(isoSpec, Value())
    {
      hide Bit;
      hide Hex;
      hide PadDecimal;
      hide WriteFields;
      var fieldCnt := 64;
      var sb := GetMTI();
      sb := sb + primaryBitMap.ToHex();
      if primaryBitMap.GetBit(0) {
        fieldCnt := fieldCnt + 64;
        sb := sb + secondaryBitMap.ToHex();
      }
      var field := 1;
      while field < fieldCnt
        invariant 1 <= field <= fieldCnt
        invariant sb + WriteFields(isoSpec, fields, field, fieldCnt) == Print(isoSpec, Value())
      {
        var text := "";
        if field in fields {
          var val := fields[field];
          if field + 1 in isoSpec {
            match isoSpec[field + 1].fieldType {
              case Fixed => text := val;
              case LLVar => text := PadDecimal(|val|, 2) + val;
              case LLLVar => text := PadDecimal(|val|, 3) + val;
              case Unknown =>
            }
          }
        }
        PrintStep(isoSpec, fields, field, fieldCnt, text, sb);
        sb := sb + text;
        field := field + 1;
      }
      s := sb;
      PrintEnd(isoSpec, fields, fieldCnt, s);
    }
  }
}
