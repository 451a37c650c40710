/** Fixed-width decimal digit strings: the digit groups of `HH:MM` clock times
    and of `YYYY-MM-DDTHH:MM:SSZ` timestamps, read as `parseInt` reads a string
    of digits and written zero-padded. */
module Decimal {

  predicate IsDigit(c: char) {
    '0' <= c <= '9'
  }

  predicate AllDigits(s: string) {
    forall i :: 0 <= i < |s| ==> IsDigit(s[i])
  }

  function DigitValue(c: char): (d: nat)
    requires IsDigit(c)
    ensures d < 10
  {
    c as int - '0' as int
  }

  /** The digit character for a value below ten; inverse of `DigitValue`. */
  function DigitChar(d: nat): (c: char)
    requires d < 10
    ensures IsDigit(c) && DigitValue(c) == d
  {
    (d + '0' as int) as char
  }

  function Pow10(n: nat): (p: nat)
    ensures p >= 1
  {
    if n == 0 then 1 else 10 * Pow10(n - 1)
  }

  /** The value of a string of decimal digits, most significant first. A string
      of `n` digits denotes a value below `10^n`. */
  function DecimalValue(s: string): (v: nat)
    requires AllDigits(s)
    ensures v < Pow10(|s|)
    decreases |s|
  {
    if |s| == 0 then 0
    else DecimalValue(s[..|s| - 1]) * 10 + DigitValue(s[|s| - 1])
  }

  /** `v` written with exactly `width` digits, zero-padded on the left; reading
      it back gives `v`. */
  function PadDecimal(v: nat, width: nat): (s: string)
    requires v < Pow10(width)
    ensures |s| == width && AllDigits(s)
    ensures DecimalValue(s) == v
  {
    if width == 0 then []
    else
      var front := PadDecimal(v / 10, width - 1);
      var s := front + [DigitChar(v % 10)];
      assert s[..|s| - 1] == front;
      s
  }

  /** Every digit string is the zero-padded form of its own value: padding is
      the only way to write a value with a given number of digits. */
  lemma {:induction false} PadOfDecimal(s: string)
    requires AllDigits(s)
    ensures PadDecimal(DecimalValue(s), |s|) == s
  {
    if |s| > 0 {
      var front := s[..|s| - 1];
      var last := s[|s| - 1];
      PadOfDecimal(front);
      var v := DecimalValue(s);
      assert v / 10 == DecimalValue(front);
      assert v % 10 == DigitValue(last);
      assert s == front + [last];
    }
  }

  /** A digit group inside a longer text is the zero-padded form of its value. */
  lemma SliceIsPad(s: string, i: nat, j: nat, v: nat)
    requires i <= j <= |s| && AllDigits(s[i..j]) && v == DecimalValue(s[i..j])
    ensures PadDecimal(v, j - i) == s[i..j]
  {
    PadOfDecimal(s[i..j]);
  }
}
