/** Decimal digit strings: reading them as Python's `int()` does, writing naturals as
    JavaScript's `Number.prototype.toString()` does. */
module Decimal {

  /** A character Python's `\d` and `int()` take for a decimal digit. Only the ASCII digits
      and the fullwidth digits U+FF10..U+FF19 are modelled. */
  predicate IsDigit(c: char) {
    '0' <= c <= '9' || '０' <= c <= '９'
  }

  /** The value of one decimal digit. */
  function DigitValue(c: char): (d: nat)
    requires IsDigit(c)
    ensures d < 10
  {
    if c <= '9' then c as int - '0' as int else c as int - '０' as int
  }

  /** The ASCII digit for a value below ten. */
  function AsciiDigit(d: nat): (c: char)
    requires d < 10
    ensures '0' <= c <= '9' && IsDigit(c) && DigitValue(c) == d
  {
    ('0' as int + d) as char
  }

  predicate AllDigits(s: string) {
    forall k :: 0 <= k < |s| ==> IsDigit(s[k])
  }

  function Pow10(n: nat): (p: nat)
    ensures p >= 1
  {
    if n == 0 then 1 else 10 * Pow10(n - 1)
  }

  /** `int(s)` for a non-empty string of digits, most significant digit first. */
  function DigitsValue(s: string): (v: nat)
    requires |s| >= 1 && AllDigits(s)
    ensures v < Pow10(|s|)
    decreases |s|
  {
    if |s| == 1 then DigitValue(s[0])
    else
      var init := s[..|s| - 1];
      assert AllDigits(init) by { forall k | 0 <= k < |init| ensures IsDigit(init[k]) { assert init[k] == s[k]; } }
      var hi := DigitsValue(init);
      assert hi * 10 + DigitValue(s[|s| - 1]) < Pow10(|s|) by {
        assert hi <= Pow10(|s| - 1) - 1;
        assert hi * 10 <= Pow10(|s| - 1) * 10 - 10;
      }
      hi * 10 + DigitValue(s[|s| - 1])
  }

  /** A leading zero does not change the value that `int()` reads. */
  lemma {:induction false} LeadingZero(s: string)
    requires |s| >= 1 && AllDigits(s)
    ensures AllDigits(['0'] + s) && DigitsValue(['0'] + s) == DigitsValue(s)
    decreases |s|
  {
    var z := ['0'] + s;
    assert forall k :: 0 <= k < |z| ==> IsDigit(z[k]) by {
      forall k | 0 <= k < |z| ensures IsDigit(z[k]) { if k > 0 { assert z[k] == s[k - 1]; } }
    }
    if |s| == 1 {
      assert z[..|z| - 1] == ['0'];
    } else {
      var init := s[..|s| - 1];
      assert AllDigits(init) by { forall k | 0 <= k < |init| ensures IsDigit(init[k]) { assert init[k] == s[k]; } }
      assert z[..|z| - 1] == ['0'] + init;
      LeadingZero(init);
    }
  }

  /** The decimal digits of `n`, without leading zeros: what `n.toString()` gives in
      JavaScript for a non-negative integer. Reading them back gives `n`. */
  function NatToString(n: nat): (s: string)
    ensures |s| >= 1 && AllDigits(s) && DigitsValue(s) == n
    ensures forall k :: 0 <= k < |s| ==> '0' <= s[k] <= '9'
    ensures n < 10 <==> |s| == 1
    ensures n < 100 ==> |s| <= 2
    ensures |s| > 1 ==> s[0] != '0'
    decreases n
  {
    if n < 10 then [AsciiDigit(n)]
    else
      var hi := NatToString(n / 10);
      var s := hi + [AsciiDigit(n % 10)];
      assert s[..|s| - 1] == hi && s[0] == hi[0];
      assert |hi| == 1 ==> hi == [AsciiDigit(n / 10)];
      s
  }
}
