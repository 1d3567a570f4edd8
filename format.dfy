/**
 * The text formatting of the export (usePerformanceRecorder.ts): integer
 * `toString`, `padStart(2, '0')`, `toFixed(2)`, the `formatTime` layout and the
 * KB/s / MB/s unit switch of `formatNetworkSpeed`. Each formatter has a parser
 * beside it, and the lemmas prove that parsing gives back what was formatted.
 */
module Format {
  import opened Wrappers

  /**
   * A JavaScript number as the core produces it: a finite value (an exact real,
   * without IEEE-754 rounding), or one of the two non-finite results of dividing
   * by a zero total (0 / 0 is NaN, a positive number over 0 is Infinity).
   */
  datatype Number = Finite(value: real) | NaN | PosInfinity

  predicate IsDigit(c: char) { '0' <= c <= '9' }

  predicate AllDigits(s: string) { forall i :: 0 <= i < |s| ==> IsDigit(s[i]) }

  /** Neither a comma nor a line break: a string that one CSV cell can hold as is. */
  predicate CellSafe(s: string) { ',' !in s && '\n' !in s }

  function DigitValue(c: char): nat
    requires IsDigit(c)
  {
    c as int - '0' as int
  }

  function DigitChar(d: nat): (c: char)
    requires d < 10
    ensures IsDigit(c) && DigitValue(c) == d
  {
    ('0' as int + d) as char
  }

  lemma DigitsAreCellSafe(s: string)
    requires AllDigits(s)
    ensures CellSafe(s)
  {
  }

  // ---------------------------------------------------------------------------
  // Integers

  /** `n.toString()` of a non-negative integer: its decimal digits, no leading zero. */
  function NatToString(n: nat): (s: string)
    ensures 1 <= |s| && AllDigits(s)
    ensures s[0] == '0' <==> n == 0
    decreases n
  {
    if n < 10 then [DigitChar(n)] else NatToString(n / 10) + [DigitChar(n % 10)]
  }

  /** `i.toString()` of any integer: a minus sign before the digits of a negative one. */
  function IntToString(i: int): (s: string)
    ensures 1 <= |s| && (s[0] == '-' <==> i < 0)
    ensures i >= 0 ==> AllDigits(s)
  {
    if i < 0 then "-" + NatToString(-i) else NatToString(i)
  }

  /** The value of a string of decimal digits ("" reads as 0). */
  function ParseDecimal(s: string): nat
    requires AllDigits(s)
  {
    if s == [] then 0 else ParseDecimal(s[..|s| - 1]) * 10 + DigitValue(s[|s| - 1])
  }

  lemma {:induction false} ParseNatToString(n: nat)
    ensures ParseDecimal(NatToString(n)) == n
    decreases n
  {
    var s := NatToString(n);
    if n >= 10 {
      assert s[..|s| - 1] == NatToString(n / 10);
      ParseNatToString(n / 10);
    }
  }

  function Pow10(k: nat): (p: nat)
    ensures p >= 1
  {
    if k == 0 then 1 else 10 * Pow10(k - 1)
  }

  /** A number in [10^k, 10^(k+1)) is written with k + 1 digits. */
  lemma {:induction false} NatToStringLength(n: nat, k: nat)
    requires Pow10(k) <= n < Pow10(k + 1)
    ensures |NatToString(n)| == k + 1
    decreases k
  {
    if k > 0 {
      assert n >= 10;
      assert Pow10(k - 1) <= n / 10 < Pow10(k);
      NatToStringLength(n / 10, k - 1);
    }
  }

  /** `padStart(2, '0')`: left-pad with zeros to length 2; a longer string is left as it is. */
  function PadStart2(s: string): (r: string)
    ensures |r| == if |s| < 2 then 2 else |s|
    ensures r[|r| - |s|..] == s
    ensures forall i :: 0 <= i < |r| - |s| ==> r[i] == '0'
  {
    if |s| >= 2 then s else if |s| == 1 then "0" + s else "00"
  }

  /** `n.toString().padStart(2, '0')`, the shape of every date field after the year. */
  function TwoDigits(n: nat): (s: string)
    ensures 2 <= |s| && AllDigits(s)
  {
    PadStart2(NatToString(n))
  }

  /** Below 100 the padded field is exactly two digits that read back as n. */
  lemma TwoDigitsRoundTrip(n: nat)
    requires n < 100
    ensures |TwoDigits(n)| == 2 && AllDigits(TwoDigits(n))
    ensures ParseDecimal(TwoDigits(n)) == n
  {
    var s := NatToString(n);
    ParseNatToString(n);
    if n < 10 {
      assert TwoDigits(n) == "0" + s;
      assert ("0" + s)[..1] == "0";
    } else {
      NatToStringLength(n, 1);
    }
  }

  /** From 100 on, padding changes nothing: padStart never truncates. */
  lemma TwoDigitsWide(n: nat)
    requires n >= 100
    ensures TwoDigits(n) == NatToString(n)
  {
  }

  // ---------------------------------------------------------------------------
  // Dates

  /**
   * The local-time fields a `Date` reports: `getFullYear()`, `getMonth()`
   * (zero-based), `getDate()`, `getHours()`, `getMinutes()`, `getSeconds()`.
   */
  datatype DateTime = DateTime(year: int, month: nat, day: nat, hours: nat, minutes: nat, seconds: nat)

  predicate ValidDate(d: DateTime)
  {
    d.month < 12 && 1 <= d.day <= 31 && d.hours < 24 && d.minutes < 60 && d.seconds < 60
  }

  /**
   * `formatTime`: `YYYY-MM-DD HH-MM-SS`, the month shown one-based. It holds no
   * comma and no line break, so it fits one CSV cell and a file name.
   */
  function FormatTime(d: DateTime): (s: string)
    ensures |s| >= 16 && CellSafe(s)
  {
    TimeCellSafe(d.year, d.month + 1, d.day, d.hours, d.minutes, d.seconds);
    IntToString(d.year) + "-" + TwoDigits(d.month + 1) + "-" + TwoDigits(d.day) + " " +
    TwoDigits(d.hours) + "-" + TwoDigits(d.minutes) + "-" + TwoDigits(d.seconds)
  }

  lemma TimeCellSafe(year: int, mo: nat, da: nat, h: nat, mi: nat, se: nat)
    ensures CellSafe(IntToString(year) + "-" + TwoDigits(mo) + "-" + TwoDigits(da) + " " +
                     TwoDigits(h) + "-" + TwoDigits(mi) + "-" + TwoDigits(se))
  {
    var y := IntToString(year);
    DigitsAreCellSafe(NatToString(if year < 0 then -year else year));
    SafeAppend(y, "-", mo);
    SafeAppend(y + "-" + TwoDigits(mo), "-", da);
    SafeAppend(y + "-" + TwoDigits(mo) + "-" + TwoDigits(da), " ", h);
    SafeAppend(y + "-" + TwoDigits(mo) + "-" + TwoDigits(da) + " " + TwoDigits(h), "-", mi);
    SafeAppend(y + "-" + TwoDigits(mo) + "-" + TwoDigits(da) + " " + TwoDigits(h) + "-" + TwoDigits(mi), "-", se);
  }

  /** One separator and one padded field appended to a safe prefix keep it safe. */
  lemma SafeAppend(prefix: string, sep: string, n: nat)
    requires CellSafe(prefix) && CellSafe(sep)
    ensures CellSafe(prefix + sep + TwoDigits(n))
  {
    DigitsAreCellSafe(TwoDigits(n));
  }

  /** Reads back a 19-character `YYYY-MM-DD HH-MM-SS` string. */
  function ParseTime(s: string): Option<DateTime>
  {
    if |s| == 19 && s[4] == '-' && s[7] == '-' && s[10] == ' ' && s[13] == '-' && s[16] == '-'
       && AllDigits(s[0..4]) && AllDigits(s[5..7]) && AllDigits(s[8..10])
       && AllDigits(s[11..13]) && AllDigits(s[14..16]) && AllDigits(s[17..19])
       && ParseDecimal(s[5..7]) >= 1
    then Some(DateTime(ParseDecimal(s[0..4]), ParseDecimal(s[5..7]) - 1, ParseDecimal(s[8..10]),
                       ParseDecimal(s[11..13]), ParseDecimal(s[14..16]), ParseDecimal(s[17..19])))
    else None
  }

  /** Where the six fields and five separators of a formatted time sit. */
  lemma TimeLayout(y: string, mo: string, da: string, h: string, mi: string, se: string)
    requires |y| == 4 && |mo| == 2 && |da| == 2 && |h| == 2 && |mi| == 2 && |se| == 2
    ensures var s := y + "-" + mo + "-" + da + " " + h + "-" + mi + "-" + se;
      |s| == 19 && s[4] == '-' && s[7] == '-' && s[10] == ' ' && s[13] == '-' && s[16] == '-' &&
      s[0..4] == y && s[5..7] == mo && s[8..10] == da && s[11..13] == h && s[14..16] == mi && s[17..19] == se
  {
    var s := y + "-" + mo + "-" + da + " " + h + "-" + mi + "-" + se;
    var tail := h + "-" + mi + "-" + se;
    assert s == (y + "-" + mo + "-" + da + " ") + tail;
    assert tail[0..2] == h && tail[3..5] == mi && tail[6..8] == se;
  }

  /**
   * For a valid date with a four-digit year the formatted time is 19 characters
   * long and reads back as the same date: every field after the year is padded
   * to two digits and the month is shown as getMonth() + 1.
   */
  lemma FormatTimeRoundTrip(d: DateTime)
    requires ValidDate(d) && 1000 <= d.year <= 9999
    ensures |FormatTime(d)| == 19
    ensures ParseTime(FormatTime(d)) == Some(d)
  {
    assert Pow10(3) == 1000 && Pow10(4) == 10000;
    var y := NatToString(d.year);
    NatToStringLength(d.year, 3);
    ParseNatToString(d.year);
    TwoDigitsRoundTrip(d.month + 1);
    TwoDigitsRoundTrip(d.day);
    TwoDigitsRoundTrip(d.hours);
    TwoDigitsRoundTrip(d.minutes);
    TwoDigitsRoundTrip(d.seconds);
    var mo, da, h := TwoDigits(d.month + 1), TwoDigits(d.day), TwoDigits(d.hours);
    var mi, se := TwoDigits(d.minutes), TwoDigits(d.seconds);
    TimeLayout(y, mo, da, h, mi, se);
    var s := FormatTime(d);
    assert s == y + "-" + mo + "-" + da + " " + h + "-" + mi + "-" + se;
    FieldAt(s, 0, 4, y, d.year);
    FieldAt(s, 5, 7, mo, d.month + 1);
    FieldAt(s, 8, 10, da, d.day);
    FieldAt(s, 11, 13, h, d.hours);
    FieldAt(s, 14, 16, mi, d.minutes);
    FieldAt(s, 17, 19, se, d.seconds);
    ReadBack(s, d.year, d.month + 1, d.day, d.hours, d.minutes, d.seconds);
  }

  /** A slice equal to a digit string has that string's value. */
  lemma FieldAt(s: string, i: nat, j: nat, f: string, v: nat)
    requires i <= j <= |s| && s[i..j] == f && AllDigits(f) && ParseDecimal(f) == v
    ensures AllDigits(s[i..j]) && ParseDecimal(s[i..j]) == v
  {
  }

  /** A well-shaped time string whose six fields hold the given values parses to them. */
  lemma ReadBack(s: string, y: nat, mo: nat, da: nat, h: nat, mi: nat, se: nat)
    requires |s| == 19 && s[4] == '-' && s[7] == '-' && s[10] == ' ' && s[13] == '-' && s[16] == '-'
    requires AllDigits(s[0..4]) && AllDigits(s[5..7]) && AllDigits(s[8..10])
    requires AllDigits(s[11..13]) && AllDigits(s[14..16]) && AllDigits(s[17..19])
    requires ParseDecimal(s[0..4]) == y && ParseDecimal(s[5..7]) == mo && ParseDecimal(s[8..10]) == da
    requires ParseDecimal(s[11..13]) == h && ParseDecimal(s[14..16]) == mi && ParseDecimal(s[17..19]) == se
    requires mo >= 1
    ensures ParseTime(s) == Some(DateTime(y, mo - 1, da, h, mi, se))
  {
  }

  // ---------------------------------------------------------------------------
  // Numbers with two decimals

  /**
   * The integer n that `x.toFixed(2)` prints as n / 100: the integer nearest to
   * 100 * x, halves rounded away from zero (toFixed rounds |x| and keeps the sign).
   */
  function Hundredths(x: real): (n: int)
    ensures x >= 0.0 ==> 0 <= n && -0.5 < n as real - 100.0 * x <= 0.5
    ensures x < 0.0 ==> n <= 0 && -0.5 <= n as real - 100.0 * x < 0.5
  {
    if x < 0.0 then -(0.5 - 100.0 * x).Floor else (100.0 * x + 0.5).Floor
  }

  /** The digits of n / 100 with exactly two decimals. */
  function FixedDigits(n: nat): string
  {
    NatToString(n / 100) + "." + [DigitChar(n % 100 / 10), DigitChar(n % 10)]
  }

  /** `x.toFixed(2)` for a finite x below 10^21. */
  function ToFixed2(x: real): (s: string)
    ensures CellSafe(s)
  {
    DigitsAreCellSafe(NatToString(if x < 0.0 then -Hundredths(x) / 100 else Hundredths(x) / 100));
    if x < 0.0 then "-" + FixedDigits(-Hundredths(x)) else FixedDigits(Hundredths(x))
  }

  /** `v.toFixed(2)` for any number the core holds; NaN and Infinity print as words. */
  function NumberToFixed2(v: Number): (s: string)
    ensures CellSafe(s)
  {
    match v
    case Finite(r) => ToFixed2(r)
    case NaN => "NaN"
    case PosInfinity => "Infinity"
  }

  /** Reads `ddd.dd` back as a count of hundredths. */
  function ParseUnsignedFixed(t: string): Option<nat>
  {
    if |t| >= 4 && t[|t| - 3] == '.' && AllDigits(t[..|t| - 3]) && IsDigit(t[|t| - 2]) && IsDigit(t[|t| - 1])
    then Some(ParseDecimal(t[..|t| - 3]) * 100 + DigitValue(t[|t| - 2]) * 10 + DigitValue(t[|t| - 1]))
    else None
  }

  /** Reads `[-]ddd.dd` back as a signed count of hundredths. */
  function ParseFixed2(s: string): Option<int>
  {
    if |s| > 0 && s[0] == '-' then
      match ParseUnsignedFixed(s[1..])
      case Some(n) => Some(-(n as int))
      case None => None
    else ParseUnsignedFixed(s)
  }

  lemma FixedDigitsRoundTrip(n: nat)
    ensures FixedDigits(n)[0] != '-'
    ensures ParseUnsignedFixed(FixedDigits(n)) == Some(n)
  {
    var t := FixedDigits(n);
    var q := NatToString(n / 100);
    assert IsDigit(t[0]);
    assert t[..|t| - 3] == q;
    ParseNatToString(n / 100);
    LastTwoDigits(n);
  }

  lemma LastTwoDigits(n: nat)
    ensures n / 100 * 100 + n % 100 / 10 * 10 + n % 10 == n
  {
  }

  /**
   * `toFixed(2)` reads back as the rounded value: the printed string is a sign,
   * digits, a point and exactly two decimals, and it denotes Hundredths(x) / 100,
   * which is within half a hundredth of x.
   */
  lemma ToFixed2RoundTrip(x: real)
    ensures ParseFixed2(ToFixed2(x)) == Some(Hundredths(x))
  {
    if x < 0.0 {
      var t := FixedDigits(-Hundredths(x));
      FixedDigitsRoundTrip(-Hundredths(x));
      assert ("-" + t)[1..] == t;
    } else {
      FixedDigitsRoundTrip(Hundredths(x));
    }
  }

  /** `formatNetworkSpeed`: below 1 MB/s the value is shown times 1024 in KB/s. */
  function FormatNetworkSpeed(speedInMB: real): (s: string)
    ensures CellSafe(s)
  {
    if speedInMB < 1.0 then ToFixed2(speedInMB * 1024.0) + " KB/s" else ToFixed2(speedInMB) + " MB/s"
  }

  /**
   * The unit switch: the text ends in " KB/s" and shows the speed times 1024
   * exactly when the speed is below 1 MB/s (a negative speed included), and
   * otherwise ends in " MB/s" and shows the speed itself, both to two decimals.
   */
  lemma NetworkSpeedUnit(speedInMB: real)
    ensures var s := FormatNetworkSpeed(speedInMB);
      |s| > 5 &&
      (speedInMB < 1.0 <==> s[|s| - 5..] == " KB/s") &&
      (speedInMB >= 1.0 <==> s[|s| - 5..] == " MB/s") &&
      ParseFixed2(s[..|s| - 5]) ==
        Some(if speedInMB < 1.0 then Hundredths(speedInMB * 1024.0) else Hundredths(speedInMB))
  {
    var s := FormatNetworkSpeed(speedInMB);
    var v := if speedInMB < 1.0 then speedInMB * 1024.0 else speedInMB;
    var u := if speedInMB < 1.0 then " KB/s" else " MB/s";
    assert s == ToFixed2(v) + u;
    assert s[|s| - 5..] == u && s[..|s| - 5] == ToFixed2(v);
    assert " KB/s"[1] != " MB/s"[1];
    ToFixed2RoundTrip(v);
  }
}
