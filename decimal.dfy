/**
 * Decimal text of integers, as Qt's `QString::number(int)` writes it and
 * `QByteArray::number(int)` encodes it in ASCII: an optional '-' followed by
 * the digits of the magnitude, most significant first, without leading zeros.
 */
module Decimal {

  type Byte = bv8

  predicate IsDigit(c: char) {
    '0' <= c <= '9'
  }

  predicate AllDigits(s: string) {
    forall k :: 0 <= k < |s| ==> IsDigit(s[k])
  }

  function DigitChar(d: nat): (c: char)
    requires d < 10
    ensures IsDigit(c) && DigitValue(c) == d
  {
    (48 + d) as char
  }

  function DigitValue(c: char): nat
    requires IsDigit(c)
  {
    c as int - 48
  }

  /** The digits of `n`, most significant first; "0" for zero, no leading zeros otherwise. */
  function NatToDecimal(n: nat): (s: string)
    decreases n
    ensures |s| > 0 && AllDigits(s)
    ensures |s| > 1 ==> s[0] != '0'
    ensures n >= 10 <==> |s| > 1
  {
    if n < 10 then [DigitChar(n)] else NatToDecimal(n / 10) + [DigitChar(n % 10)]
  }

  /** The number a string of digits denotes (the reading direction of `NatToDecimal`). */
  function DigitsValue(s: string): nat
    requires AllDigits(s)
  {
    if s == [] then 0 else 10 * DigitsValue(s[..|s| - 1]) + DigitValue(s[|s| - 1])
  }

  lemma {:induction false} DigitsValueOfNatToDecimal(n: nat)
    ensures DigitsValue(NatToDecimal(n)) == n
  {
    if n >= 10 {
      var s := NatToDecimal(n);
      assert s[..|s| - 1] == NatToDecimal(n / 10);
      DigitsValueOfNatToDecimal(n / 10);
    }
  }

  /** An optional '-' followed by digits only. */
  predicate IsDecimalText(s: string) {
    |s| > 0 && AllDigits(s[1..]) && (s[0] == '-' || IsDigit(s[0]))
  }

  /** `QString::number(i)`: '-' and the digits of `-i` for a negative `i`, the digits of `i` otherwise. */
  function IntToDecimal(i: int): (s: string)
    ensures IsDecimalText(s)
    ensures s[0] == '-' <==> i < 0
  {
    if i < 0 then "-" + NatToDecimal(-i) else NatToDecimal(i)
  }

  /** Reads back the text `IntToDecimal` writes. */
  function DecimalToInt(s: string): int
    requires IsDecimalText(s)
  {
    if s[0] == '-' then -(DigitsValue(s[1..]) as int) else DigitsValue(s)
  }

  lemma DecimalRoundTrip(i: int)
    ensures DecimalToInt(IntToDecimal(i)) == i
  {
    if i < 0 {
      assert IntToDecimal(i)[1..] == NatToDecimal(-i);
      DigitsValueOfNatToDecimal(-i);
    } else {
      DigitsValueOfNatToDecimal(i);
    }
  }

  /** Distinct integers have distinct decimal texts. */
  lemma IntToDecimalInjective(a: int, b: int)
    ensures IntToDecimal(a) == IntToDecimal(b) ==> a == b
  {
    DecimalRoundTrip(a);
    DecimalRoundTrip(b);
  }

  /** The characters decimal text is made of. */
  predicate IsDecimalChar(c: char) {
    c == '-' || IsDigit(c)
  }

  /** The ASCII code of a character of decimal text. */
  function AsciiByte(c: char): (b: Byte)
    requires IsDecimalChar(c)
    ensures b as int == c as int
  {
    match c
    case '-' => 0x2D
    case '0' => 0x30
    case '1' => 0x31
    case '2' => 0x32
    case '3' => 0x33
    case '4' => 0x34
    case '5' => 0x35
    case '6' => 0x36
    case '7' => 0x37
    case '8' => 0x38
    case _ => 0x39
  }

  /** The ASCII bytes of a decimal text. */
  function Ascii(s: string): (b: seq<Byte>)
    requires forall k :: 0 <= k < |s| ==> IsDecimalChar(s[k])
    ensures |b| == |s|
    ensures forall k :: 0 <= k < |s| ==> b[k] == AsciiByte(s[k])
  {
    seq(|s|, k requires 0 <= k < |s| => AsciiByte(s[k]))
  }

  lemma AsciiInjective(s: string, t: string)
    requires forall k :: 0 <= k < |s| ==> IsDecimalChar(s[k])
    requires forall k :: 0 <= k < |t| ==> IsDecimalChar(t[k])
    ensures Ascii(s) == Ascii(t) ==> s == t
  {
    if Ascii(s) == Ascii(t) {
      forall k | 0 <= k < |s|
        ensures s[k] == t[k]
      {
        assert AsciiByte(s[k]) == Ascii(s)[k] == Ascii(t)[k] == AsciiByte(t[k]);
      }
    }
  }

  /** `QByteArray::number(i)`: the ASCII bytes of the decimal text of `i`. */
  function ByteArrayNumber(i: int): (b: seq<Byte>)
    ensures |b| == |IntToDecimal(i)|
  {
    var s := IntToDecimal(i);
    assert forall k :: 0 <= k < |s| ==> IsDecimalChar(s[k]) by {
      forall k | 0 <= k < |s|
        ensures IsDecimalChar(s[k])
      {
        if k > 0 {
          assert s[1..][k - 1] == s[k];
        }
      }
    }
    Ascii(s)
  }

  lemma ByteArrayNumberInjective(a: int, b: int)
    ensures ByteArrayNumber(a) == ByteArrayNumber(b) ==> a == b
  {
    if ByteArrayNumber(a) == ByteArrayNumber(b) {
      AsciiInjective(IntToDecimal(a), IntToDecimal(b));
      IntToDecimalInjective(a, b);
    }
  }
}
