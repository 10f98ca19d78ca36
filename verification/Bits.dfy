/** The 64-bit bitmap word (iso/bit_set.go). Bit 0 is the most significant one, as in an ISO 8583 bit map. */
module Bits {
  import opened Wrappers
  import opened Numerals

  const WORD_LIMIT := 0x1_0000_0000_0000_0000

  type uint64 = n: int | 0 <= n < 0x1_0000_0000_0000_0000

  /** n >> k */
  function Shr(n: nat, k: nat): nat
    decreases k
  {
    if k == 0 then n else Shr(n / 2, k - 1)
  }

  predicate Bit(data: nat, index: nat)
    requires index < 64
  {
    Shr(data, 63 - index) % 2 == 1
  }

  /** n with the bit of weight 2^k set to v. */
  function Assign(n: nat, k: nat, v: bool): nat
    decreases k
  {
    if k == 0 then n - n % 2 + (if v then 1 else 0) else 2 * Assign(n / 2, k - 1, v) + n % 2
  }

  function WithBit(data: uint64, index: nat, v: bool): uint64
    requires index < 64
  {
    WordLimit();
    AssignBound(data, 63 - index, v, 64);
    Assign(data, 63 - index, v)
  }

  /** strconv.ParseUint(s, 16, 64) */
  function ParseHex(s: string): Option<uint64> {
    if s == "" || !IsNumeral(s, 16) || Value(s, 16) >= WORD_LIMIT then None else Some(Value(s, 16))
  }

  function Hex(data: uint64): (s: string)
    ensures |s| == 16
  {
    Numeral(data, 16, 16)
  }

  lemma WordLimit()
    ensures Pow(2, 64) == WORD_LIMIT == Pow(16, 16)
  {
    assert Pow(2, 8) == 256;
    assert Pow(2, 16) == 65536;
    assert Pow(2, 24) == 0x100_0000;
    assert Pow(2, 32) == 0x1_0000_0000;
    assert Pow(2, 40) == 0x100_0000_0000;
    assert Pow(2, 48) == 0x1_0000_0000_0000;
    assert Pow(2, 56) == 0x100_0000_0000_0000;
    assert Pow(16, 4) == 65536;
    assert Pow(16, 8) == 0x1_0000_0000;
    assert Pow(16, 12) == 0x1_0000_0000_0000;
  }

  lemma {:induction false} AssignBound(n: nat, k: nat, v: bool, width: nat)
    requires k < width && n < Pow(2, width)
    ensures Assign(n, k, v) < Pow(2, width)
    decreases k
  {
    assert Pow(2, width) == 2 * Pow(2, width - 1);
    hide Pow;
    if k > 0 {
      AssignBound(n / 2, k - 1, v, width - 1);
    }
  }

  /** Clearing and setting through a one-bit mask is assignment to that bit. */
  lemma {:induction false} AssignByMask(n: nat, k: nat, v: bool)
    ensures Shr(n, k) % 2 == 1 ==> Pow(2, k) <= n
    ensures Assign(n, k, v) ==
            n - (if Shr(n, k) % 2 == 1 then Pow(2, k) else 0) + (if v then Pow(2, k) else 0)
    decreases k
  {
    if k > 0 {
      AssignByMask(n / 2, k - 1, v);
    }
  }

  lemma {:induction false} AssignReads(n: nat, k: nat, v: bool, j: nat)
    ensures (Shr(Assign(n, k, v), j) % 2 == 1) == (if j == k then v else Shr(n, j) % 2 == 1)
    decreases k
  {
    if k > 0 && j > 0 {
      AssignReads(n / 2, k - 1, v, j - 1);
    }
  }

  /** Read over write: SetBit changes the bit it names and no other. */
  lemma BitOfWithBit(data: uint64, index: nat, v: bool, j: nat)
    requires index < 64 && j < 64
    ensures Bit(WithBit(data, index, v), j) == if j == index then v else Bit(data, j)
  {
    AssignReads(data, 63 - index, v, 63 - j);
  }

  lemma {:induction false} BitsDetermine(m: nat, n: nat, width: nat)
    requires m < Pow(2, width) && n < Pow(2, width)
    requires forall k :: 0 <= k < width ==> Shr(m, k) % 2 == Shr(n, k) % 2
    ensures m == n
    decreases width
  {
    if width > 0 {
      forall k | 0 <= k < width - 1 ensures Shr(m / 2, k) % 2 == Shr(n / 2, k) % 2 {
        assert Shr(m, k + 1) % 2 == Shr(n, k + 1) % 2;
      }
      BitsDetermine(m / 2, n / 2, width - 1);
      assert Shr(m, 0) % 2 == Shr(n, 0) % 2;
    }
  }

  /** Two bitmap words with the same 64 bits are the same word. */
  lemma BitmapsEqual(m: uint64, n: uint64)
    requires forall i :: 0 <= i < 64 ==> Bit(m, i) == Bit(n, i)
    ensures m == n
  {
    WordLimit();
    forall k | 0 <= k < 64 ensures Shr(m, k) % 2 == Shr(n, k) % 2 {
      assert Bit(m, 63 - k) == Bit(n, 63 - k);
    }
    BitsDetermine(m, n, 64);
  }

  lemma {:induction false} HexDigitBits(s: string, t: nat)
    requires IsNumeral(s, 16) && t < 4 * |s|
    ensures Shr(Value(s, 16), t) % 2 == Shr(DigitValue(s[|s| - 1 - t / 4]), t % 4) % 2
    decreases |s|
  {
    var front, last := s[..|s| - 1], |s| - 1;
    var q, d := Value(front, 16), DigitValue(s[last]);
    assert Value(s, 16) == q * 16 + d;
    if t < 4 {
      LowDigitBits(q, d, t);
    } else {
      HexDigitBits(front, t - 4);
      LowDigitBits(q, d, 0);
      ShrPlus(q * 16 + d, 4, t - 4);
      assert (t - 4) / 4 == t / 4 - 1 && (t - 4) % 4 == t % 4;
      assert front[|front| - 1 - (t - 4) / 4] == s[last - t / 4];
    }
  }

  lemma LowDigitBits(q: nat, d: nat, t: nat)
    requires d < 16 && t < 4
    ensures Shr(q * 16 + d, t) % 2 == Shr(d, t) % 2
    ensures Shr(q * 16 + d, 4) == q
  {
    var n := q * 16 + d;
    ShrFour(n);
    ShrFour(d);
    assert n / 2 == q * 8 + d / 2;
    assert n / 4 == q * 4 + d / 4;
    assert n / 8 == q * 2 + d / 8;
    if t == 0 {
    } else if t == 1 {
    } else if t == 2 {
    } else {
      assert t == 3;
    }
  }

  lemma ShrFour(n: nat)
    ensures Shr(n, 0) == n && Shr(n, 1) == n / 2 && Shr(n, 2) == n / 4
    ensures Shr(n, 3) == n / 8 && Shr(n, 4) == n / 16
  {
    assert Shr(n / 2 / 2 / 2 / 2, 0) == n / 16;
    assert Shr(n / 2 / 2 / 2, 1) == n / 16 && Shr(n / 2 / 2 / 2, 0) == n / 8;
    assert Shr(n / 2 / 2, 2) == n / 16 && Shr(n / 2 / 2, 1) == n / 8;
    assert Shr(n / 2, 3) == n / 16 && Shr(n / 2, 2) == n / 8 && Shr(n / 2, 1) == n / 4;
  }

  lemma {:induction false} ShrPlus(n: nat, a: nat, b: nat)
    ensures Shr(n, a + b) == Shr(Shr(n, a), b)
    decreases a
  {
    if a > 0 {
      ShrPlus(n / 2, a - 1, b);
    }
  }

  /** The hexadecimal bitmap text and its bits: bit i is bit 3 - i % 4 of hex digit i / 4. */
  lemma HexBit(s: string, i: nat)
    requires |s| == 16 && IsNumeral(s, 16) && i < 64
    ensures ParseHex(s).Some?
    ensures Bit(ParseHex(s).value, i) <==> Shr(DigitValue(s[i / 4]), 3 - i % 4) % 2 == 1
  {
    ValueBound(s, 16);
    WordLimit();
    HexDigitBits(s, 63 - i);
    assert 15 - (63 - i) / 4 == i / 4 && (63 - i) % 4 == 3 - i % 4;
  }

  /** A printed bitmap reads back as itself. */
  lemma ParseOfHex(data: uint64)
    ensures ParseHex(Hex(data)) == Some(data) && IsCanonical(Hex(data))
  {
    WordLimit();
    ValueOfNumeral(data, 16, 16);
  }

  /** A read bitmap prints as the text it was read from, up to the case of its digits. */
  lemma HexOfParse(s: string)
    requires |s| == 16 && ParseHex(s).Some?
    ensures Hex(ParseHex(s).value) == s <==> IsCanonical(s)
  {
    NumeralOfValue(s, 16);
  }

  class BitSet {
    var data: uint64

    constructor (data: uint64)
      ensures this.data == data
    {
      this.data := data;
    }

    predicate GetBit(index: nat)
      requires index < 64
      reads this
    {
      Bit(data, index)
    }

    /** Clears the bit through a mask and sets it again if asked. */
    method SetBit(index: nat, val: bool)
      requires index < 64
      modifies this
      ensures data == WithBit(old(data), index, val)
      ensures forall j :: 0 <= j < 64 ==> GetBit(j) == if j == index then val else old(GetBit(j))
    {
      var mask := Pow(2, 63 - index);
      AssignByMask(data, 63 - index, val);
      var word: nat := if Shr(data, 63 - index) % 2 == 1 then data - mask else data;
      word := if val then word + mask else word;
      assert word == WithBit(data, index, val);
      forall j | 0 <= j < 64
        ensures Bit(WithBit(data, index, val), j) == if j == index then val else Bit(data, j)
      {
        BitOfWithBit(data, index, val, j);
      }
      data := word;
    }

    /** Leaves the word alone when the text is not a hexadecimal 64-bit number. */
    method SetString(s: string) returns (ok: bool)
      modifies this
      ensures ok <==> ParseHex(s).Some?
      ensures data == if ok then ParseHex(s).value else old(data)
    {
      var parsed := ParseHex(s);
      ok := parsed.Some?;
      if ok {
        data := parsed.value;
      }
    }

    function ToHex(): (s: string)
      reads this
      ensures ParseHex(s) == Some(data)
    {
      ParseOfHex(data);
      Hex(data)
    }
  }
}
