/** Positional numerals as Go's formatting verbs print them (%02d, %03d, %012d, %016X) and as
    strconv reads them back. */
module Numerals {
  import opened Wrappers

  const DIGITS := "0123456789ABCDEF"

  function Pow(base: nat, exp: nat): nat {
    if exp == 0 then 1 else base * Pow(base, exp - 1)
  }

  /** The value of a hexadecimal digit of either case, or -1 for any other character. */
  function DigitValue(c: char): (d: int)
    ensures -1 <= d < 16
  {
    if '0' <= c <= '9' then c as int - '0' as int
    else if 'A' <= c <= 'F' then c as int - 'A' as int + 10
    else if 'a' <= c <= 'f' then c as int - 'a' as int + 10
    else -1
  }

  predicate IsNumeral(s: string, base: nat) {
    forall i :: 0 <= i < |s| ==> 0 <= DigitValue(s[i]) < base
  }

  /** A numeral written the way the printer writes it: no lower-case digits. */
  predicate IsCanonical(s: string) {
    forall i :: 0 <= i < |s| ==> !('a' <= s[i] <= 'f')
  }

  function Value(s: string, base: nat): nat
    requires IsNumeral(s, base)
  {
    if s == "" then 0
    else Value(s[..|s| - 1], base) * base + DigitValue(s[|s| - 1])
  }

  /** The low `width` digits of n, most significant first. */
  function Numeral(n: nat, base: nat, width: nat): (s: string)
    requires 2 <= base <= 16
    ensures |s| == width
    decreases width
  {
    if width == 0 then "" else Numeral(n / base, base, width - 1) + [DIGITS[n % base]]
  }

  /** Go's %0<width>d: zero padded, and wider than asked when the number needs it. */
  function PadDecimal(n: nat, width: nat): (s: string)
    ensures width <= |s|
    decreases n - width
  {
    PowExceeds(10, width);
    if n < Pow(10, width) then Numeral(n, 10, width) else PadDecimal(n, width + 1)
  }

  /** strconv.Atoi on text short enough not to overflow: an optional sign, then decimal digits. */
  function Atoi(s: string): Option<int> {
    var signed := s != "" && (s[0] == '+' || s[0] == '-');
    var digits := if signed then s[1..] else s;
    if digits == "" || !IsNumeral(digits, 10) then None
    else if signed && s[0] == '-' then Some(0 - Value(digits, 10))
    else Some(Value(digits, 10))
  }

  /** A sign is read as strconv reads it, and nothing else but decimal digits is. */
  lemma AtoiExactly(text: string)
    ensures Atoi(text).Some? <==>
            || (text != "" && IsNumeral(text, 10))
            || (|text| >= 2 && (text[0] == '+' || text[0] == '-') && IsNumeral(text[1..], 10))
    ensures text != "" && IsNumeral(text, 10) ==> Atoi(text) == Some(Value(text, 10))
    ensures |text| >= 2 && text[0] == '+' && IsNumeral(text[1..], 10) ==> Atoi(text) == Some(Value(text[1..], 10))
    ensures |text| >= 2 && text[0] == '-' && IsNumeral(text[1..], 10) ==>
              Atoi(text) == Some(0 - Value(text[1..], 10))
  {
    hide Value;
    if text != "" && (text[0] == '+' || text[0] == '-') {
      assert DigitValue(text[0]) == -1;
    }
  }

  lemma PowExceeds(base: nat, e: nat)
    requires 2 <= base
    ensures e < Pow(base, e)
  {
    if e > 0 {
      PowExceeds(base, e - 1);
    }
  }

  lemma DivStep(q: nat, base: nat, r: nat)
    requires r < base
    ensures (q * base + r) / base == q && (q * base + r) % base == r
  {
    DivUnique(q * base + r, base, q, r);
  }

  lemma Scale(a: int, b: int, k: nat)
    requires a <= b
    ensures a * k <= b * k
  {}

  lemma DivUnique(n: nat, base: nat, q: nat, r: nat)
    requires n == q * base + r && r < base
    ensures n / base == q && n % base == r
  {
    var p := n / base;
    assert n == p * base + n % base;
    if p < q {
      Scale(p + 1, q, base);
    } else if q < p {
      Scale(q + 1, p, base);
    }
  }

  lemma DivBound(n: nat, base: nat, p: nat)
    requires base > 0 && n < base * p
    ensures n / base < p
  {
    var q := n / base;
    assert n == q * base + n % base;
    if p <= q {
      Scale(p, q, base);
    }
  }

  /** Letters of either case are the digits ten to fifteen. */
  lemma HexLetters(k: nat)
    requires k < 6
    ensures DigitValue(['A', 'B', 'C', 'D', 'E', 'F'][k]) == 10 + k
    ensures DigitValue(['a', 'b', 'c', 'd', 'e', 'f'][k]) == 10 + k
  {}

  lemma DigitOfPrinted(d: nat)
    requires d < 16
    ensures DigitValue(DIGITS[d]) == d
    ensures !('a' <= DIGITS[d] <= 'f')
  {}

  lemma ValueSnoc(front: string, last: char, base: nat)
    requires IsNumeral(front, base) && 0 <= DigitValue(last) < base
    ensures IsNumeral(front + [last], base)
    ensures Value(front + [last], base) == Value(front, base) * base + DigitValue(last)
  {
    assert (front + [last])[..|front|] == front;
  }

  lemma NumeralStep(n: nat, base: nat, width: nat) returns (q: nat, r: nat)
    requires 2 <= base <= 16 && 0 < width && n < Pow(base, width)
    ensures n == q * base + r && r < base && q < Pow(base, width - 1)
    ensures Numeral(n, base, width) == Numeral(q, base, width - 1) + [DIGITS[r]]
  {
    q, r := n / base, n % base;
    assert n == q * base + r;
    DivBound(n, base, Pow(base, width - 1));
  }

  /** Reading back what was printed gives the number. */
  lemma {:induction false} ValueOfNumeral(n: nat, base: nat, width: nat)
    requires 2 <= base <= 16 && n < Pow(base, width)
    ensures IsNumeral(Numeral(n, base, width), base)
    ensures IsCanonical(Numeral(n, base, width))
    ensures Value(Numeral(n, base, width), base) == n
    decreases width
  {
    if width > 0 {
      var q, r := NumeralStep(n, base, width);
      hide Numeral;
      hide Value;
      hide Pow;
      ValueOfNumeral(q, base, width - 1);
      DigitOfPrinted(r);
      ValueSnoc(Numeral(q, base, width - 1), DIGITS[r], base);
    }
  }

  lemma ScaleBound(v: nat, base: nat, d: nat, p: nat)
    requires v < p && d < base
    ensures v * base + d < base * p
  {
    assert (v + 1) * base <= p * base;
  }

  lemma {:induction false} ValueBound(s: string, base: nat)
    requires 2 <= base && IsNumeral(s, base)
    ensures Value(s, base) < Pow(base, |s|)
  {
    if s != "" {
      var front := s[..|s| - 1];
      ValueBound(front, base);
      ScaleBound(Value(front, base), base, DigitValue(s[|s| - 1]), Pow(base, |s| - 1));
    }
  }

  lemma SnocEqual(front: string, last: char, s: string)
    requires s != ""
    ensures front + [last] == s <==> front == s[..|s| - 1] && last == s[|s| - 1]
  {
    assert s == s[..|s| - 1] + [s[|s| - 1]];
    assert (front + [last])[..|front|] == front;
  }

  lemma SnocCanonical(s: string)
    requires s != ""
    ensures IsCanonical(s) <==> IsCanonical(s[..|s| - 1]) && !('a' <= s[|s| - 1] <= 'f')
  {
    forall i | 0 <= i < |s| - 1 ensures s[i] == s[..|s| - 1][i] {}
  }

  lemma NumeralSnoc(q: nat, d: nat, base: nat, width: nat)
    requires 2 <= base <= 16 && d < base
    ensures Numeral(q * base + d, base, width + 1) == Numeral(q, base, width) + [DIGITS[d]]
  {
    DivStep(q, base, d);
  }

  /** Printing what was read gives the same text exactly when the text has no lower-case digits. */
  lemma {:induction false} NumeralOfValue(s: string, base: nat)
    requires 2 <= base <= 16 && IsNumeral(s, base)
    ensures Numeral(Value(s, base), base, |s|) == s <==> IsCanonical(s)
  {
    if s != "" {
      hide Numeral;
      hide IsCanonical;
      var front, d := s[..|s| - 1], DigitValue(s[|s| - 1]);
      NumeralOfValue(front, base);
      assert Value(s, base) == Value(front, base) * base + d;
      hide Value;
      NumeralSnoc(Value(front, base), d, base, |front|);
      SnocEqual(Numeral(Value(front, base), base, |front|), DIGITS[d], s);
      SnocCanonical(s);
      SameDigit(d, s[|s| - 1]);
      hide DIGITS;
      hide DigitValue;
    }
  }

  lemma SameDigit(d: nat, c: char)
    requires d < 16 && DigitValue(c) == d
    ensures DIGITS[d] == c <==> !('a' <= c <= 'f')
  {}

  /** Equal-width numerals are equal only for equal numbers. */
  lemma NumeralInjective(m: nat, n: nat, base: nat, width: nat)
    requires 2 <= base <= 16 && m < Pow(base, width) && n < Pow(base, width)
    requires Numeral(m, base, width) == Numeral(n, base, width)
    ensures m == n
  {
    ValueOfNumeral(m, base, width);
    ValueOfNumeral(n, base, width);
  }

  lemma PadFits(n: nat, width: nat)
    requires n < Pow(10, width)
    ensures PadDecimal(n, width) == Numeral(n, 10, width)
  {
    hide Numeral;
    PowExceeds(10, width);
  }

  /** Zero padding keeps the number, and only a number too large for its width takes more places. */
  lemma {:induction false} PadExact(n: nat, width: nat)
    ensures var s := PadDecimal(n, width);
            && IsNumeral(s, 10) && Value(s, 10) == n
            && (|s| == width || (width < |s| && Pow(10, |s| - 1) <= n))
    decreases n - width
  {
    hide Numeral;
    hide Value;
    hide Pow;
    PowExceeds(10, width);
    if n < Pow(10, width) {
      ValueOfNumeral(n, 10, width);
    } else {
      PadExact(n, width + 1);
    }
  }

  lemma SmallPowers()
    ensures Pow(10, 1) == 10 && Pow(10, 2) == 100 && Pow(10, 3) == 1000 && Pow(10, 4) == 10000
  {
    assert Pow(10, 0) == 1;
    assert Pow(10, 1) == 10;
    assert Pow(10, 2) == 100;
    assert Pow(10, 3) == 1000;
  }
}
