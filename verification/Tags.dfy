/** Tagged values inside DE123: reading a tag (network/server/iso_response_handler.go) and replacing the CV
    tag of an outgoing template (network/server/iso_server.go). */
module Tags {
  import opened Wrappers
  import opened Numerals

  predicate MatchAt(s: string, t: string, i: int) {
    0 <= i && i + |t| <= |s| && s[i..i + |t|] == t
  }

  ghost predicate FirstAt(s: string, t: string, i: int) {
    MatchAt(s, t, i) && forall j :: MatchAt(s, t, j) ==> i <= j
  }

  /** strings.Index: the first occurrence at or after position i, or -1. */
  function IndexFrom(s: string, t: string, i: nat): (r: int)
    ensures r == -1 || (i <= r && MatchAt(s, t, r))
    ensures forall j :: i <= j && MatchAt(s, t, j) ==> 0 <= r <= j
    decreases |s| - i
  {
    if i + |t| > |s| then -1 else if s[i..i + |t|] == t then i else IndexFrom(s, t, i + 1)
  }

  function Index(s: string, t: string): (r: int)
    ensures r == -1 || MatchAt(s, t, r)
    ensures forall j :: MatchAt(s, t, j) ==> 0 <= r <= j
  {
    IndexFrom(s, t, 0)
  }

  /** utils.Substr on ASCII text, where a rune is a byte. */
  function Substr(input: string, start: nat, length: nat): string {
    if start >= |input| then ""
    else if start + length > |input| then input[start..]
    else input[start..start + length]
  }

  /** The text after `tag` and a two-character length, "" when there is none; no result when the length is
      negative, which slices out of bounds. */
  function ExtractTag(field: string, tag: string): Option<string>
    requires |tag| == 2
  {
    var ind := Index(field, tag);
    if ind == -1 || |field| < ind + 4 then Some("")
    else
      match Atoi(field[ind + 2..ind + 4])
      case None => Some("")
      case Some(l) =>
        if |field| < ind + 4 + l then Some("")
        else if l < 0 then None
        else Some(field[ind + 4..ind + 4 + l])
  }

  /** What follows the tag and its length: version, separator, CVV2 and, for length 07, an indicator. */
  function CvValue(length: string, cvv2: string): string {
    if length == "05" then "1 " + cvv2 else "11 " + cvv2 + "M"
  }

  /** Replaces the first CV tag and drops everything after it; a CV tag of any other length is cut off. */
  function RewriteCv(de123: string, cvv2: string): string {
    var ind := Index(de123, "CV");
    if ind == -1 then de123
    else
      var length := Substr(de123, ind + 2, 2);
      if length in {"05", "07"} then de123[..ind] + "CV" + length + CvValue(length, cvv2) else de123[..ind]
  }

  /** Extraction fails exactly on a tag whose length is a minus sign followed by a non-zero digit. */
  lemma ExtractTagFails(field: string, tag: string)
    requires |tag| == 2
    ensures ExtractTag(field, tag).None? <==>
            var ind := Index(field, tag);
            ind != -1 && ind + 4 <= |field| && field[ind + 2] == '-' && '1' <= field[ind + 3] <= '9'
  {
    var ind := Index(field, tag);
    if ind != -1 && ind + 4 <= |field| {
      var text := field[ind + 2..ind + 4];
      OneDigit(text[1..]);
      if text[0] != '-' && text[0] != '+' {
        assert Atoi(text).Some? ==> 0 <= Atoi(text).value;
      }
    }
  }

  lemma OneDigit(s: string)
    requires |s| == 1
    ensures IsNumeral(s, 10) <==> '0' <= s[0] <= '9'
    ensures IsNumeral(s, 10) ==> Value(s, 10) == s[0] as int - '0' as int
  {
    assert s[..0] == "";
  }

  /** An extracted value has the length its tag declares. */
  lemma ExtractedLength(field: string, tag: string)
    requires |tag| == 2 && ExtractTag(field, tag).Some? && ExtractTag(field, tag).value != ""
    ensures MatchAt(field, tag, Index(field, tag))
    ensures var ind := Index(field, tag);
            ind + 4 <= |field| &&
            Atoi(field[ind + 2..ind + 4]) == Some(|ExtractTag(field, tag).value|)
  {}

  /** The first occurrence of the tag, its declared length and that many characters after it make up a value, and
      nothing else does. */
  lemma ExtractedExactly(field: string, tag: string, value: string)
    requires |tag| == 2 && value != ""
    ensures ExtractTag(field, tag) == Some(value) <==>
            exists i ::
              && FirstAt(field, tag, i) && i + 4 + |value| <= |field|
              && Atoi(field[i + 2..i + 4]) == Some(|value|) && field[i + 4..i + 4 + |value|] == value
  {
    hide Atoi;
    var ind := Index(field, tag);
    hide Index;
    if ExtractTag(field, tag) == Some(value) {
      assert FirstAt(field, tag, ind);
    }
    if i :| && FirstAt(field, tag, i) && i + 4 + |value| <= |field|
            && Atoi(field[i + 2..i + 4]) == Some(|value|) && field[i + 4..i + 4 + |value|] == value {
      FirstFound(field, tag, i);
    }
  }

  lemma FirstFound(field: string, tag: string, i: int)
    requires FirstAt(field, tag, i)
    ensures Index(field, tag) == i
  {
    hide IndexFrom;
  }

  /** Text that holds "CV" first at ind keeps its first "CV" there whatever follows. */
  lemma FirstCvStays(de123: string, ind: nat, rest: string)
    requires Index(de123, "CV") == ind
    ensures Index(de123[..ind] + "CV" + rest, "CV") == ind
  {
    var r := de123[..ind] + "CV" + rest;
    assert r[ind..ind + 2] == "CV";
    assert MatchAt(r, "CV", ind);
    forall j | MatchAt(r, "CV", j) ensures ind <= j {
      if j < ind {
        assert r[j] == "CV"[0] && r[j + 1] == "CV"[1] by {
          assert r[j..j + 2][0] == r[j] && r[j..j + 2][1] == r[j + 1];
        }
        assert r[ind] == 'C';
        assert de123[j..j + 2] == r[j..j + 2];
        assert MatchAt(de123, "CV", j);
      }
    }
  }

  /** Rewriting a CV tag of length 05 or 07 keeps the tag where it was, and reading it back gives what was
      written exactly when the CVV2 has three characters. */
  lemma CvReadsBack(de123: string, cvv2: string)
    requires Index(de123, "CV") >= 0
    requires Substr(de123, Index(de123, "CV") + 2, 2) in {"05", "07"}
    ensures var length := Substr(de123, Index(de123, "CV") + 2, 2);
            var r := RewriteCv(de123, cvv2);
            && Index(r, "CV") == Index(de123, "CV")
            && (ExtractTag(r, "CV") == Some(CvValue(length, cvv2)) <==> |cvv2| == 3)
            && (|cvv2| == 3 ==>
                  var value := ExtractTag(r, "CV");
                  && value.Some? && |value.value| == (if length == "05" then 5 else 7)
                  && value.value[if length == "05" then 2 else 3..][..3] == cvv2)
            && de123[..Index(de123, "CV")] + "CV" + length <= r
  {
    hide Index;
    hide ExtractTag;
    hide Substr;
    hide CvValue;
    hide FirstAt;
    var ind := Index(de123, "CV");
    var length := Substr(de123, ind + 2, 2);
    var value := CvValue(length, cvv2);
    FirstCvStays(de123, ind, length + value);
    var r := de123[..ind] + "CV" + (length + value);
    assert RewriteCv(de123, cvv2) == r by {
      assert de123[..ind] + "CV" + length + value == r;
    }
    assert de123[..ind] + "CV" + length + value == r;
    CvValueHolds(length, cvv2);
    ReadsDeclared(de123[..ind], length, value);
  }

  lemma CvValueHolds(length: string, cvv2: string)
    requires length in {"05", "07"}
    ensures CvValue(length, cvv2) != ""
    ensures |CvValue(length, cvv2)| == (if length == "05" then 5 else 7) <==> |cvv2| == 3
    ensures |cvv2| == 3 ==> CvValue(length, cvv2)[if length == "05" then 2 else 3..][..3] == cvv2
  {}

  lemma ReadsDeclared(before: string, length: string, value: string)
    requires length in {"05", "07"} && value != ""
    requires Index(before + "CV" + length + value, "CV") == |before|
    ensures ExtractTag(before + "CV" + length + value, "CV") == Some(value) <==>
            |value| == if length == "05" then 5 else 7
  {
    var r := before + "CV" + length + value;
    var ind := |before|;
    var n := if length == "05" then 5 else 7;
    assert r[ind + 2..ind + 4] == length;
    LengthDigits(length);
    hide Atoi;
    hide Index;
    assert |r| >= ind + 4 + n ==> r[ind + 4..ind + 4 + n] == value[..n];
    assert |value| == n ==> value[..n] == value;
  }

  lemma LengthDigits(length: string)
    requires length in {"05", "07"}
    ensures Atoi(length) == Some(if length == "05" then 5 else 7)
  {
    OneDigit(['0']);
    ValueSnoc(['0'], length[1], 10);
    assert length == ['0'] + [length[1]];
    hide Value;
  }
}
