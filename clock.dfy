/**
 * formatTime: elapsed seconds rendered as `minutes:ss`, and the reading of
 * such a string back into seconds.
 */
module Clock {
  import opened Options

  predicate IsDigit(ch: char)
  {
    '0' <= ch <= '9'
  }

  predicate AllDigits(s: string)
  {
    forall k :: 0 <= k < |s| ==> IsDigit(s[k])
  }

  function DigitChar(d: nat): (ch: char)
    requires d < 10
    ensures IsDigit(ch) && ch as int - '0' as int == d
  {
    "0123456789"[d]
  }

  function DigitValue(ch: char): nat
    requires IsDigit(ch)
  {
    ch as int - '0' as int
  }

  /** A natural number in decimal without leading zeros, as a template string renders it. */
  function Decimal(n: nat): (s: string)
    ensures 1 <= |s| && AllDigits(s)
    ensures |s| == 1 <==> n < 10
    ensures n < 100 ==> |s| <= 2
    ensures s[0] == '0' ==> n == 0
    decreases n
  {
    if n < 10 then [DigitChar(n)] else Decimal(n / 10) + [DigitChar(n % 10)]
  }

  /** The value of a string of decimal digits. */
  function ParseDecimal(s: string): nat
    requires AllDigits(s)
    decreases |s|
  {
    if s == [] then 0 else ParseDecimal(s[..|s| - 1]) * 10 + DigitValue(s[|s| - 1])
  }

  /** Reading a rendered number gives the number back. */
  lemma {:induction false} DecimalRoundTrip(n: nat)
    ensures ParseDecimal(Decimal(n)) == n
    decreases n
  {
    if n >= 10 {
      var s := Decimal(n);
      assert s[..|s| - 1] == Decimal(n / 10);
      DecimalRoundTrip(n / 10);
    }
  }

  /**
   * formatTime: the minutes `seconds / 60`, a colon, then `seconds % 60`
   * with a `0` in front when it is below 10.
   */
  function FormatTime(seconds: nat): (s: string)
    ensures 4 <= |s| && s[|s| - 3] == ':'
    ensures AllDigits(s[..|s| - 3]) && AllDigits(s[|s| - 2..])
  {
    var minutes := seconds / 60;
    var remainderSeconds := seconds % 60;
    Decimal(minutes) + ":" + (if remainderSeconds < 10 then "0" else "") + Decimal(remainderSeconds)
  }

  /** Reads `minutes:ss` (two-digit seconds below 60) back into a number of seconds. */
  function ParseTime(s: string): (t: Option<nat>)
    ensures t.Some? ==> 4 <= |s| && s[|s| - 3] == ':'
  {
    if 4 <= |s| && s[|s| - 3] == ':' && AllDigits(s[..|s| - 3]) && AllDigits(s[|s| - 2..])
       && ParseDecimal(s[|s| - 2..]) < 60
    then Some(ParseDecimal(s[..|s| - 3]) * 60 + ParseDecimal(s[|s| - 2..]))
    else None
  }

  /**
   * The displayed time determines the elapsed seconds: its minutes field is
   * `seconds / 60`, its two-digit field `seconds % 60`, and together they
   * give back `seconds`.
   */
  lemma FormatTimeRoundTrip(seconds: nat)
    ensures var s := FormatTime(seconds);
      && ParseDecimal(s[..|s| - 3]) == seconds / 60
      && ParseDecimal(s[|s| - 2..]) == seconds % 60
      && ParseTime(s) == Some(seconds)
  {
    var minutes, rest := seconds / 60, seconds % 60;
    var s := FormatTime(seconds);
    var padded := (if rest < 10 then "0" else "") + Decimal(rest);
    assert s == Decimal(minutes) + ":" + padded;
    assert |padded| == 2;
    assert s[..|s| - 3] == Decimal(minutes);
    assert s[|s| - 2..] == padded;
    DecimalRoundTrip(minutes);
    DecimalRoundTrip(rest);
    if rest < 10 {
      assert padded[..1] == "0";
      assert padded[..|padded| - 1] == "0";
    }
  }
}
