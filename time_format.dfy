/** `formatTime` of the page script: seconds as `MM:SS`, using JavaScript's number
    operations on exact reals. */
module TimeFormat {
  import opened Decimal

  /** `Math.trunc`: rounds toward zero. */
  function Trunc(x: real): (t: int)
    ensures x >= 0.0 ==> 0 <= t && t as real <= x < t as real + 1.0
    ensures x < 0.0 ==> t <= 0 && t as real - 1.0 < x <= t as real
  {
    if x >= 0.0 then x.Floor else -((-x).Floor)
  }

  /** JavaScript's `x % 60`: the remainder of truncating division. It differs from `x` by a
      whole multiple of 60, has the dividend's sign and is below 60 in magnitude, which
      together fix it. */
  function Rem60(x: real): (r: real)
    ensures -60.0 < r < 60.0
    ensures x >= 0.0 ==> 0.0 <= r && r == x - (x / 60.0).Floor as real * 60.0
    ensures x <= 0.0 ==> r <= 0.0
    ensures (x - r) / 60.0 == ((x - r) / 60.0).Floor as real
  {
    x - Trunc(x / 60.0) as real * 60.0
  }

  /** `n.toString()` for an integral number. */
  function IntToString(n: int): (s: string)
    ensures n >= 0 ==> |s| >= 1 && AllDigits(s) && DigitsValue(s) == n
    ensures n < 0 ==> |s| >= 2 && s[0] == '-' && AllDigits(s[1..]) && DigitsValue(s[1..]) == -n
    ensures |s| >= 2 && s[0] != '-' ==> s[0] != '0'
    ensures n < 0 && |s| > 2 ==> s[1] != '0'
    ensures forall k :: 0 <= k < |s| && (n >= 0 || k >= 1) ==> '0' <= s[k] <= '9'
  {
    if n < 0 then "-" + NatToString(-n) else NatToString(n)
  }

  /** `s.padStart(2, '0')`: zeros in front up to length two; longer strings unchanged. */
  function PadStart2(s: string): (r: string)
    ensures |s| >= 2 ==> r == s
    ensures |s| < 2 ==> |r| == 2 && r[2 - |s|..] == s && forall k :: 0 <= k < 2 - |s| ==> r[k] == '0'
  {
    if |s| >= 2 then s else seq(2 - |s|, _ => '0') + s
  }

  /** `formatTime(seconds)`. */
  function FormatTime(seconds: real): string {
    var minutes := (seconds / 60.0).Floor;
    var remainingSeconds := Rem60(seconds).Floor;
    PadStart2(IntToString(minutes)) + ":" + PadStart2(IntToString(remainingSeconds))
  }

  /** Two ASCII digits for a value below one hundred. */
  function TwoDigits(k: nat): (s: string)
    requires k < 100
    ensures |s| == 2 && '0' <= s[0] <= '9' && '0' <= s[1] <= '9'
    ensures AllDigits(s) && DigitsValue(s) == k
  {
    var s := [AsciiDigit(k / 10), AsciiDigit(k % 10)];
    assert s[..1] == [AsciiDigit(k / 10)];
    s
  }

  /** Padding the decimal form of a value below one hundred gives its two digits. */
  lemma PaddedTwoDigits(k: nat)
    requires k < 100
    ensures PadStart2(NatToString(k)) == TwoDigits(k)
  {
    var s := NatToString(k);
    if k < 10 {
      assert s == [AsciiDigit(k)];
    } else {
      assert s == NatToString(k / 10) + [AsciiDigit(k % 10)];
      assert NatToString(k / 10) == [AsciiDigit(k / 10)];
    }
  }

  /** The whole minutes of a time. */
  function WholeMinutes(s: real): int {
    (s / 60.0).Floor
  }

  /** The whole seconds left over after the whole minutes. */
  function WholeSeconds(s: real): int {
    (s - WholeMinutes(s) as real * 60.0).Floor
  }

  /** For a non-negative time: whole minutes, then the whole seconds left over, each padded to
      two digits; the seconds field is below sixty. */
  lemma FormatTimeNonNegative(s: real)
    requires s >= 0.0
    ensures 0 <= WholeMinutes(s) && 0 <= WholeSeconds(s) < 60
    ensures FormatTime(s) == PadStart2(NatToString(WholeMinutes(s))) + ":" + PadStart2(NatToString(WholeSeconds(s)))
  {
    var r := Rem60(s);
    assert r == s - WholeMinutes(s) as real * 60.0;
  }

  /** Below 6000 seconds (100 minutes) the text is exactly `MM:SS`: five characters, two
      digits, a colon, two digits, the second pair below 60. */
  lemma FormatTimeShape(s: real)
    requires 0.0 <= s < 6000.0
    ensures 0 <= WholeMinutes(s) < 100 && 0 <= WholeSeconds(s) < 60
    ensures FormatTime(s) == TwoDigits(WholeMinutes(s)) + ":" + TwoDigits(WholeSeconds(s))
    ensures |FormatTime(s)| == 5
  {
    FormatTimeNonNegative(s);
    var m := WholeMinutes(s);
    assert m < 100 by { assert m as real <= s / 60.0 < 100.0; }
    PaddedTwoDigits(m);
    PaddedTwoDigits(WholeSeconds(s));
  }

  /** A whole number of seconds below 6000 is written as its minutes and its seconds. */
  lemma FormatWholeSeconds(n: nat)
    requires n < 6000
    ensures FormatTime(n as real) == TwoDigits(n / 60) + ":" + TwoDigits(n % 60)
  {
    var x := n as real;
    var q, r := n / 60, n % 60;
    assert x == q as real * 60.0 + r as real;
    assert x / 60.0 == q as real + r as real / 60.0;
    assert WholeMinutes(x) == q;
    assert WholeSeconds(x) == r;
    FormatTimeShape(x);
  }
}
