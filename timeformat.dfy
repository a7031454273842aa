/** The `mm:ss` rendering of the elapsed time shown during a round, and a reader for it
    that serves as its inverse. */
module TimeFormat {
  import opened Wrappers

  predicate IsDigit(c: char) {
    '0' <= c <= '9'
  }

  predicate AllDigits(s: string) {
    forall i :: 0 <= i < |s| ==> IsDigit(s[i])
  }

  function DigitChar(d: nat): (c: char)
    requires d < 10
    ensures IsDigit(c)
  {
    ('0' as int + d) as char
  }

  function DigitValue(c: char): (d: nat)
    requires IsDigit(c)
    ensures d < 10
  {
    c as int - '0' as int
  }

  /** The decimal numeral of n without leading zeros (`Number.prototype.toString`). */
  function Decimal(n: nat): (s: string)
    ensures |s| >= 1 && AllDigits(s)
    decreases n
  {
    if n < 10 then [DigitChar(n)] else Decimal(n / 10) + [DigitChar(n % 10)]
  }

  /** `String.prototype.padStart(width, fill)` with a one-character fill. */
  function PadStart(s: string, width: nat, fill: char): (r: string)
    ensures |r| == if |s| >= width then |s| else width
    ensures |s| >= width ==> r == s
    decreases width - |s|
  {
    if |s| >= width then s else PadStart([fill] + s, width, fill)
  }

  /** Elapsed milliseconds as `mm:ss`: whole minutes, then whole seconds within the minute,
      each padded with zeros to at least two digits. */
  function FormatTime(time: nat): (s: string)
    ensures |s| >= 5 && s[|s| - 3] == ':'
    ensures AllDigits(s[..|s| - 3]) && AllDigits(s[|s| - 2..])
  {
    var minutes := time / 60000;
    var seconds := (time % 60000) / 1000;
    DecimalShort(seconds);
    PadStartZeros(Decimal(minutes), 2);
    PadStartZeros(Decimal(seconds), 2);
    var mm, ss := PadStart(Decimal(minutes), 2, '0'), PadStart(Decimal(seconds), 2, '0');
    assert (mm + ":" + ss)[..|mm + ":" + ss| - 3] == mm;
    assert (mm + ":" + ss)[|mm + ":" + ss| - 2..] == ss;
    mm + ":" + ss
  }

  /** The value of a string of decimal digits (leading zeros allowed). */
  function DigitsValue(s: string): nat
    requires AllDigits(s)
  {
    if s == [] then 0 else DigitsValue(s[..|s| - 1]) * 10 + DigitValue(s[|s| - 1])
  }

  /** Reads `m...m:ss` back into minutes and seconds: at least two minute digits, a colon,
      exactly two second digits. */
  function ParseTime(s: string): Option<(nat, nat)> {
    if |s| >= 5 && s[|s| - 3] == ':' && AllDigits(s[..|s| - 3]) && AllDigits(s[|s| - 2..])
    then Some((DigitsValue(s[..|s| - 3]), DigitsValue(s[|s| - 2..])))
    else None
  }

  lemma {:induction false} DecimalValue(n: nat)
    ensures DigitsValue(Decimal(n)) == n
    decreases n
  {
    if n >= 10 {
      DecimalValue(n / 10);
      var s := Decimal(n);
      assert s[..|s| - 1] == Decimal(n / 10);
    }
  }

  /** Below 100 the numeral has at most two digits. */
  lemma DecimalShort(n: nat)
    requires n < 100
    ensures |Decimal(n)| <= 2
  {
    if n >= 10 {
      assert n / 10 < 10;
    }
  }

  lemma {:induction false} LeadingZero(s: string)
    requires AllDigits(s)
    ensures AllDigits(['0'] + s) && DigitsValue(['0'] + s) == DigitsValue(s)
    decreases |s|
  {
    if s != [] {
      var t := ['0'] + s;
      assert t[..|t| - 1] == ['0'] + s[..|s| - 1];
      LeadingZero(s[..|s| - 1]);
    }
  }

  /** Padding with zeros keeps the digits and the value, and reaches the width. */
  lemma {:induction false} PadStartZeros(s: string, width: nat)
    requires AllDigits(s)
    ensures AllDigits(PadStart(s, width, '0'))
    ensures DigitsValue(PadStart(s, width, '0')) == DigitsValue(s)
    ensures |PadStart(s, width, '0')| == if |s| >= width then |s| else width
    decreases width - |s|
  {
    if |s| < width {
      LeadingZero(s);
      PadStartZeros(['0'] + s, width);
    }
  }

  /** The rendered time is the minute field, a colon and a two-digit second field, the
      seconds are below 60, and reading it back gives floor(t / 60000) minutes and
      floor((t mod 60000) / 1000) seconds. */
  lemma ParseFormatTime(t: nat)
    ensures (t % 60000) / 1000 < 60
    ensures |FormatTime(t)| >= 5 && FormatTime(t)[|FormatTime(t)| - 3] == ':'
    ensures ParseTime(FormatTime(t)) == Some((t / 60000, (t % 60000) / 1000))
  {
    var minutes := t / 60000;
    var seconds := (t % 60000) / 1000;
    var mm := PadStart(Decimal(minutes), 2, '0');
    var ss := PadStart(Decimal(seconds), 2, '0');
    var r := FormatTime(t);
    assert r == mm + ":" + ss;
    DecimalShort(seconds);
    PadStartZeros(Decimal(minutes), 2);
    PadStartZeros(Decimal(seconds), 2);
    assert |ss| == 2;
    assert r[..|r| - 3] == mm;
    assert r[|r| - 2..] == ss;
    DecimalValue(minutes);
    DecimalValue(seconds);
  }

  /** Two times render alike exactly when they agree in whole seconds. */
  lemma FormatTimeSameSecond(t1: nat, t2: nat)
    ensures FormatTime(t1) == FormatTime(t2) <==> t1 / 1000 == t2 / 1000
  {
    ParseFormatTime(t1);
    ParseFormatTime(t2);
    WholeSeconds(t1);
    WholeSeconds(t2);
  }

  lemma WholeSeconds(t: nat)
    ensures t / 1000 == (t / 60000) * 60 + (t % 60000) / 1000
  {
    var m, r := t / 60000, t % 60000;
    assert t == m * 60000 + r;
    assert (m * 60000 + r) / 1000 == m * 60 + r / 1000 by {
      assert m * 60000 == (m * 60) * 1000;
    }
  }
}
