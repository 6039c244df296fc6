/**
 * Integer.parseInt and String.valueOf(int), the two conversions the retry
 * header goes through: the consumer parses the attempt count it receives and
 * writes the next one back as decimal text.
 */
module Decimal {
  import opened Common

  const MinInt32: int := -0x8000_0000
  const MaxInt32: int := 0x7FFF_FFFF

  predicate IsInt32(i: int) {
    MinInt32 <= i <= MaxInt32
  }

  predicate IsAsciiDigit(c: char) {
    '0' <= c <= '9'
  }

  /**
   * The zero of every other run of ten decimal digits (general category Nd)
   * in the Basic Multilingual Plane, as of Unicode 15.0. Integer.parseInt
   * reads one UTF-16 unit at a time through Character.digit(c, 10), which
   * accepts exactly these digits and the ASCII ones; a digit outside this
   * plane arrives as two surrogates, neither of which is a digit.
   */
  const OtherDigitZeros: seq<int> := [
    0x0660, 0x06F0, 0x07C0, 0x0966, 0x09E6, 0x0A66, 0x0AE6, 0x0B66, 0x0BE6, 0x0C66,
    0x0CE6, 0x0D66, 0x0DE6, 0x0E50, 0x0ED0, 0x0F20, 0x1040, 0x1090, 0x17E0, 0x1810,
    0x1946, 0x19D0, 0x1A80, 0x1A90, 0x1B50, 0x1BB0, 0x1C40, 0x1C50, 0xA620, 0xA8D0,
    0xA900, 0xA9D0, 0xA9F0, 0xAA50, 0xABF0, 0xFF10]

  /** The zero of the first run in `zeros` that holds code point `c`. */
  function ZeroIn(zeros: seq<int>, c: int): (r: Option<int>)
    ensures r.Some? ==> r.value in zeros && r.value <= c <= r.value + 9
    ensures r.None? ==> forall z :: z in zeros ==> !(z <= c <= z + 9)
  {
    if zeros == [] then None
    else if zeros[0] <= c <= zeros[0] + 9 then Some(zeros[0])
    else
      assert zeros == [zeros[0]] + zeros[1..];
      ZeroIn(zeros[1..], c)
  }

  /** Character.digit(c, 10) >= 0 */
  predicate IsDigit(c: char) {
    IsAsciiDigit(c) || ZeroIn(OtherDigitZeros, c as int).Some?
  }

  /** Character.digit(c, 10) for a digit: its position in its run of ten. */
  function DigitValue(c: char): (d: nat)
    requires IsDigit(c)
    ensures d < 10
  {
    if IsAsciiDigit(c) then c as int - '0' as int
    else c as int - ZeroIn(OtherDigitZeros, c as int).value
  }

  predicate AllDigits(s: string) {
    forall i :: 0 <= i < |s| ==> IsDigit(s[i])
  }

  function DigitChar(d: nat): (c: char)
    requires d < 10
    ensures IsAsciiDigit(c) && DigitValue(c) == d
  {
    ('0' as int + d) as char
  }

  /** The value of a string of decimal digits, most significant first. */
  function DigitsValue(s: string): nat
    requires AllDigits(s)
  {
    if s == [] then 0 else DigitsValue(s[..|s| - 1]) * 10 + DigitValue(s[|s| - 1])
  }

  /** The decimal text of a natural number, without leading zeros. */
  function NatToDecimal(n: nat): (s: string)
    ensures s != [] && AllDigits(s)
    ensures forall i :: 0 <= i < |s| ==> IsAsciiDigit(s[i])
    decreases n
  {
    if n < 10 then [DigitChar(n)] else NatToDecimal(n / 10) + [DigitChar(n % 10)]
  }

  /** String.valueOf(int) */
  function IntToString(i: int): string {
    if i < 0 then "-" + NatToDecimal(-i) else NatToDecimal(i)
  }

  /**
   * Integer.parseInt: an optional '+' or '-' followed by at least one decimal
   * digit of any script, with a value that fits in 32 bits; anything else is a
   * NumberFormatException, here None.
   */
  function ParseInt(s: string): (r: Option<int>)
    ensures r.Some? ==> IsInt32(r.value)
  {
    if s == [] then None
    else
      var negative := s[0] == '-';
      var digits := if s[0] == '-' || s[0] == '+' then s[1..] else s;
      if digits == [] || !AllDigits(digits) then None
      else
        var magnitude: int := DigitsValue(digits);
        var v := if negative then -magnitude else magnitude;
        if IsInt32(v) then Some(v) else None
  }

  lemma {:induction false} DigitsValueOfNatToDecimal(n: nat)
    ensures DigitsValue(NatToDecimal(n)) == n
    decreases n
  {
    var s := NatToDecimal(n);
    if n >= 10 {
      DigitsValueOfNatToDecimal(n / 10);
      assert s[..|s| - 1] == NatToDecimal(n / 10);
    }
  }

  /** The header text written for a count is read back as that same count. */
  lemma {:induction false} ParseIntOfIntToString(i: int)
    requires IsInt32(i)
    ensures ParseInt(IntToString(i)) == Some(i)
  {
    if i < 0 {
      var d := NatToDecimal(-i);
      var s := "-" + d;
      assert IntToString(i) == s;
      assert s[0] == '-' && s[1..] == d;
      DigitsValueOfNatToDecimal(-i);
    } else {
      var d := NatToDecimal(i);
      assert IntToString(i) == d;
      assert d[0] != '-' && d[0] != '+' by { assert IsAsciiDigit(d[0]); }
      DigitsValueOfNatToDecimal(i);
    }
  }

  /** Text that is not a number is rejected rather than read as zero. */
  lemma ParseIntRejectsNonDigits(s: string, k: nat)
    requires 0 < k < |s| && !IsDigit(s[k])
    ensures ParseInt(s) == None
  {
    if s[0] == '-' || s[0] == '+' {
      assert !IsDigit(s[1..][k - 1]);
    }
  }

  /** Digits of other scripts count as in Java: ARABIC-INDIC DIGIT THREE after '1' reads as 13. */
  lemma ParseIntReadsEveryScript()
    ensures ParseInt("1\U{0663}") == Some(13)
  {
    var s := "1\U{0663}";
    assert OtherDigitZeros[0] == 0x0660;
    assert ZeroIn(OtherDigitZeros, 0x0663) == Some(0x0660);
    assert IsDigit(s[0]) && DigitValue(s[0]) == 1;
    assert IsDigit(s[1]) && DigitValue(s[1]) == 3;
    assert AllDigits(s) && s[0] != '-' && s[0] != '+';
    assert s[..1] == "1" && "1"[..0] == [];
    assert DigitsValue("1") == 1;
    assert DigitsValue(s) == 13;
  }
}
