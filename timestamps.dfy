/**
 * UTC timestamps as the report scripts read them: `iso_to_dt` parses the fixed-width
 * `YYYY-MM-DDTHH:MM:SSZ` text (the `Z`-only, fraction-free profile of the date-time of
 * section 5.6 of RFC 3339) into a UTC instant, here epoch seconds of the proleptic
 * Gregorian calendar. `now` is an instant in epoch microseconds, the precision of
 * `datetime.now(timezone.utc)`.
 */
module Timestamps {
  import opened Wrappers
  import opened Text

  const SecondsPerDay := 86400
  const MicrosPerSecond := 1000000
  const MicrosPerDay := SecondsPerDay * MicrosPerSecond
  /** Days from 0001-01-01 to 1970-01-01. */
  const UnixEpochDay := 719162

  predicate IsLeap(year: int) {
    year % 4 == 0 && (year % 100 != 0 || year % 400 == 0)
  }

  function DaysInYear(year: int): int {
    if IsLeap(year) then 366 else 365
  }

  function DaysInMonth(year: int, month: int): int
    requires 1 <= month <= 12
  {
    if month == 2 then (if IsLeap(year) then 29 else 28)
    else if month == 4 || month == 6 || month == 9 || month == 11 then 30
    else 31
  }

  function DaysBeforeMonth(year: int, month: int): int
    requires 1 <= month <= 12
  {
    [0, 31, 59, 90, 120, 151, 181, 212, 243, 273, 304, 334][month - 1]
      + (if month > 2 && IsLeap(year) then 1 else 0)
  }

  /** Days from 0001-01-01 to the first day of `year`. */
  function DaysBeforeYear(year: int): int
    requires year >= 1
  {
    var y := year - 1;
    365 * y + y / 4 - y / 100 + y / 400
  }

  datatype DateTime = DateTime(year: int, month: int, day: int, hour: int, minute: int, second: int)

  /** The field ranges `datetime` accepts. */
  predicate Valid(d: DateTime) {
    && 1 <= d.year <= 9999
    && 1 <= d.month <= 12
    && 1 <= d.day <= DaysInMonth(d.year, d.month)
    && 0 <= d.hour < 24
    && 0 <= d.minute < 60
    && 0 <= d.second < 60
  }

  function DayNumber(d: DateTime): int
    requires Valid(d)
  {
    DaysBeforeYear(d.year) + DaysBeforeMonth(d.year, d.month) + d.day - 1 - UnixEpochDay
  }

  function TimeOfDay(d: DateTime): int {
    d.hour * 3600 + d.minute * 60 + d.second
  }

  /** Seconds since 1970-01-01T00:00:00Z. */
  function ToEpoch(d: DateTime): int
    requires Valid(d)
  {
    DayNumber(d) * SecondsPerDay + TimeOfDay(d)
  }

  /** Field-by-field (year first) comparison of two date-times. */
  predicate Before(d1: DateTime, d2: DateTime) {
    || d1.year < d2.year
    || (d1.year == d2.year && d1.month < d2.month)
    || (d1.year == d2.year && d1.month == d2.month && d1.day < d2.day)
    || (d1.year == d2.year && d1.month == d2.month && d1.day == d2.day && d1.hour < d2.hour)
    || (d1.year == d2.year && d1.month == d2.month && d1.day == d2.day && d1.hour == d2.hour
        && d1.minute < d2.minute)
    || (d1.year == d2.year && d1.month == d2.month && d1.day == d2.day && d1.hour == d2.hour
        && d1.minute == d2.minute && d1.second < d2.second)
  }

  // ---- digits ----

  predicate IsDigit(c: char) {
    '0' <= c <= '9'
  }

  predicate AllDigits(s: string) {
    forall i :: 0 <= i < |s| ==> IsDigit(s[i])
  }

  function DigitValue(c: char): int {
    c as int - '0' as int
  }

  function DigitChar(n: int): char
    requires 0 <= n <= 9
  {
    ('0' as int + n) as char
  }

  function Pow10(n: nat): nat {
    if n == 0 then 1 else 10 * Pow10(n - 1)
  }

  /** The decimal value of a string of digits. */
  function Number(s: string): nat
    requires AllDigits(s)
  {
    if s == [] then 0 else Number(s[..|s| - 1]) * 10 + DigitValue(s[|s| - 1])
  }

  /** `n` written with exactly `width` digits, zero-padded on the left (`%02d`, `%04d`). */
  function Pad(n: nat, width: nat): string {
    if width == 0 then "" else Pad(n / 10, width - 1) + [DigitChar(n % 10)]
  }

  lemma {:induction false} PadNumber(n: nat, width: nat)
    requires n < Pow10(width)
    ensures |Pad(n, width)| == width && AllDigits(Pad(n, width))
    ensures Number(Pad(n, width)) == n
  {
    if width > 0 {
      PadNumber(n / 10, width - 1);
      var p := Pad(n, width);
      assert p[..|p| - 1] == Pad(n / 10, width - 1);
    }
  }

  lemma {:induction false} NumberPad(s: string)
    requires AllDigits(s)
    ensures Pad(Number(s), |s|) == s
  {
    if s != [] {
      var n := |s| - 1;
      NumberPad(s[..n]);
      assert Number(s) / 10 == Number(s[..n]);
      assert DigitChar(Number(s) % 10) == s[n];
      assert s == s[..n] + [s[n]];
    }
  }

  /** Equal-length digit strings compare as text exactly as their values compare. */
  lemma {:induction false} DigitsOrder(x: string, y: string)
    requires |x| == |y| && AllDigits(x) && AllDigits(y)
    ensures LexLess(x, y) <==> Number(x) < Number(y)
    ensures x == y <==> Number(x) == Number(y)
  {
    if |x| > 0 {
      var n := |x| - 1;
      DigitsOrder(x[..n], y[..n]);
      assert x == x[..n] + [x[n]] && y == y[..n] + [y[n]];
      LexAppend(x[..n], [x[n]], y[..n], [y[n]]);
      assert LexLess([x[n]], [y[n]]) <==> x[n] < y[n] by {
        if x[n] == y[n] {
          assert [x[n]][1..] == [] && [y[n]][1..] == [];
        }
      }
    }
  }

  // ---- the text form ----

  /** The canonical text of `d` in the layout `%Y-%m-%dT%H:%M:%SZ`, every field zero-padded. */
  function Format(d: DateTime): string
    requires Valid(d)
  {
    Pad(d.year, 4) + ("-" + (Pad(d.month, 2) + ("-" + (Pad(d.day, 2) + ("T" + TimeText(d))))))
  }

  /** The `HH:MM:SSZ` end of the text form. */
  function TimeText(d: DateTime): string
    requires Valid(d)
  {
    Pad(d.hour, 2) + (":" + (Pad(d.minute, 2) + (":" + (Pad(d.second, 2) + "Z"))))
  }

  /** The fixed characters and digit runs of `YYYY-MM-DDTHH:MM:SSZ`. */
  predicate Shaped(s: string) {
    && |s| == 20
    && s[4] == '-' && s[7] == '-' && s[10] == 'T' && s[13] == ':' && s[16] == ':' && s[19] == 'Z'
    && AllDigits(s[0..4]) && AllDigits(s[5..7]) && AllDigits(s[8..10])
    && AllDigits(s[11..13]) && AllDigits(s[14..16]) && AllDigits(s[17..19])
  }

  function Fields(s: string): DateTime
    requires Shaped(s)
  {
    DateTime(Number(s[0..4]), Number(s[5..7]), Number(s[8..10]),
             Number(s[11..13]), Number(s[14..16]), Number(s[17..19]))
  }

  predicate WellFormed(s: string) {
    Shaped(s) && Valid(Fields(s))
  }

  /**
   * `iso_to_dt(s)` on the canonical layout only: upper-case `T` and `Z`, ASCII digits, every
   * field zero-padded and in range. Every other text is `None`, including texts `strptime`
   * would accept (see the README).
   */
  function Parse(s: string): Option<int> {
    if WellFormed(s) then Some(ToEpoch(Fields(s))) else None
  }

  /** Where each field and separator sits in the 20-character form. */
  function Layout(y: string, mo: string, da: string, ho: string, mi: string, se: string): (s: string)
    requires |y| == 4 && |mo| == 2 && |da| == 2 && |ho| == 2 && |mi| == 2 && |se| == 2
    ensures |s| == 20
    ensures s[0..4] == y && s[5..7] == mo && s[8..10] == da
    ensures s[11..13] == ho && s[14..16] == mi && s[17..19] == se
    ensures s[4] == '-' && s[7] == '-' && s[10] == 'T' && s[13] == ':' && s[16] == ':' && s[19] == 'Z'
  {
    var sec := se + "Z";
    var mn := mi + (":" + sec);
    var h := ho + (":" + mn);
    var dd := da + ("T" + h);
    var m := mo + ("-" + dd);
    var s := y + ("-" + m);
    assert s[5..] == m && s[8..] == dd && s[11..] == h && s[14..] == mn && s[17..] == sec;
    s
  }

  lemma FormatPieces(d: DateTime)
    requires Valid(d)
    ensures Shaped(Format(d)) && Fields(Format(d)) == d
  {
    PadNumber(d.year, 4);
    PadNumber(d.month, 2);
    PadNumber(d.day, 2);
    PadNumber(d.hour, 2);
    PadNumber(d.minute, 2);
    PadNumber(d.second, 2);
    var s := Layout(Pad(d.year, 4), Pad(d.month, 2), Pad(d.day, 2),
                    Pad(d.hour, 2), Pad(d.minute, 2), Pad(d.second, 2));
    assert s == Format(d);
  }

  /** Parsing the formatted text of a valid date-time gives back its instant. */
  lemma ParseFormat(d: DateTime)
    requires Valid(d)
    ensures Parse(Format(d)) == Some(ToEpoch(d))
  {
    FormatPieces(d);
  }

  /** Two texts of the 20-character form with the same fields and separators are the same text. */
  lemma SameLayout(f: string, s: string)
    requires |f| == 20 && |s| == 20
    requires f[0..4] == s[0..4] && f[5..7] == s[5..7] && f[8..10] == s[8..10]
    requires f[11..13] == s[11..13] && f[14..16] == s[14..16] && f[17..19] == s[17..19]
    requires f[4] == s[4] && f[7] == s[7] && f[10] == s[10] && f[13] == s[13] && f[16] == s[16] && f[19] == s[19]
    ensures f == s
  {
    forall i | 0 <= i < 20 ensures f[i] == s[i] {
      if i < 4 { assert f[i] == f[0..4][i]; }
      else if 5 <= i < 7 { assert f[i] == f[5..7][i - 5]; }
      else if 8 <= i < 10 { assert f[i] == f[8..10][i - 8]; }
      else if 11 <= i < 13 { assert f[i] == f[11..13][i - 11]; }
      else if 14 <= i < 16 { assert f[i] == f[14..16][i - 14]; }
      else if 17 <= i < 19 { assert f[i] == f[17..19][i - 17]; }
    }
  }

  /** Every text `Parse` accepts is the formatted text of what it parsed: the form has one spelling per instant. */
  lemma FormatParse(s: string)
    requires WellFormed(s)
    ensures Format(Fields(s)) == s
  {
    var d := Fields(s);
    var y, mo, da, ho, mi, se := s[0..4], s[5..7], s[8..10], s[11..13], s[14..16], s[17..19];
    NumberPad(y);
    NumberPad(mo);
    NumberPad(da);
    NumberPad(ho);
    NumberPad(mi);
    NumberPad(se);
    var f := Layout(y, mo, da, ho, mi, se);
    assert f == Format(d);
    SameLayout(f, s);
  }

  // ---- calendar arithmetic ----

  lemma DaysBeforeYearStep(year: int)
    requires year >= 1
    ensures DaysBeforeYear(year + 1) == DaysBeforeYear(year) + DaysInYear(year)
  {
    var y := year - 1;
    assert year / 4 - y / 4 == (if year % 4 == 0 then 1 else 0);
    assert year / 100 - y / 100 == (if year % 100 == 0 then 1 else 0);
    assert year / 400 - y / 400 == (if year % 400 == 0 then 1 else 0);
  }

  lemma {:induction false} DaysBeforeYearGrows(y1: int, y2: int)
    requires 1 <= y1 < y2
    ensures DaysBeforeYear(y1) + DaysInYear(y1) <= DaysBeforeYear(y2)
    decreases y2 - y1
  {
    DaysBeforeYearStep(y1);
    if y1 + 1 < y2 {
      DaysBeforeYearGrows(y1 + 1, y2);
    }
  }

  lemma MonthsFitYear(year: int, m1: int, m2: int)
    requires 1 <= m1 <= 12 && 1 <= m2 <= 12
    ensures DaysBeforeMonth(year, m1) + DaysInMonth(year, m1) <= DaysInYear(year)
    ensures m1 < m2 ==> DaysBeforeMonth(year, m1) + DaysInMonth(year, m1) <= DaysBeforeMonth(year, m2)
  {
  }

  lemma DayNumberOrder(d1: DateTime, d2: DateTime)
    requires Valid(d1) && Valid(d2)
    ensures d1.year < d2.year ==> DayNumber(d1) < DayNumber(d2)
    ensures d1.year == d2.year && d1.month < d2.month ==> DayNumber(d1) < DayNumber(d2)
  {
    MonthsFitYear(d1.year, d1.month, d2.month);
    if d1.year < d2.year {
      DaysBeforeYearGrows(d1.year, d2.year);
    }
  }

  /** Later fields mean a later instant. */
  lemma EpochOrder(d1: DateTime, d2: DateTime)
    requires Valid(d1) && Valid(d2)
    ensures Before(d1, d2) <==> ToEpoch(d1) < ToEpoch(d2)
  {
    DayNumberOrder(d1, d2);
    DayNumberOrder(d2, d1);
  }

  /** A digit field followed by a separator: the texts compare by the field's value first, then by what follows. */
  lemma FieldThen(x1: string, c: char, rest1: string, x2: string, rest2: string)
    requires |x1| == |x2| && AllDigits(x1) && AllDigits(x2)
    ensures LexLess(x1 + ([c] + rest1), x2 + ([c] + rest2))
        <==> Number(x1) < Number(x2) || (Number(x1) == Number(x2) && LexLess(rest1, rest2))
  {
    DigitsOrder(x1, x2);
    LexAppend(x1, [c] + rest1, x2, [c] + rest2);
    LexAppend([c], rest1, [c], rest2);
    LexIrreflexive([c]);
  }

  /** `FieldThen` for two numbers written with the same width. */
  lemma FieldThenPad(n1: nat, n2: nat, width: nat, c: char, rest1: string, rest2: string)
    requires n1 < Pow10(width) && n2 < Pow10(width)
    ensures LexLess(Pad(n1, width) + ([c] + rest1), Pad(n2, width) + ([c] + rest2))
        <==> n1 < n2 || (n1 == n2 && LexLess(rest1, rest2))
  {
    PadNumber(n1, width);
    PadNumber(n2, width);
    FieldThen(Pad(n1, width), c, rest1, Pad(n2, width), rest2);
  }

  /** Field-by-field comparison of the time of day. */
  predicate TimeBefore(d1: DateTime, d2: DateTime) {
    || d1.hour < d2.hour
    || (d1.hour == d2.hour && d1.minute < d2.minute)
    || (d1.hour == d2.hour && d1.minute == d2.minute && d1.second < d2.second)
  }

  lemma SecondTextOrder(s1: nat, s2: nat)
    requires s1 < 60 && s2 < 60
    ensures LexLess(Pad(s1, 2) + "Z", Pad(s2, 2) + "Z") <==> s1 < s2
  {
    PadNumber(s1, 2);
    PadNumber(s2, 2);
    DigitsOrder(Pad(s1, 2), Pad(s2, 2));
    LexAppend(Pad(s1, 2), "Z", Pad(s2, 2), "Z");
    LexIrreflexive("Z");
  }

  lemma TimeTextOrder(d1: DateTime, d2: DateTime)
    requires Valid(d1) && Valid(d2)
    ensures LexLess(TimeText(d1), TimeText(d2)) <==> TimeBefore(d1, d2)
  {
    var s1 := Pad(d1.second, 2) + "Z";
    var s2 := Pad(d2.second, 2) + "Z";
    SecondTextOrder(d1.second, d2.second);
    FieldThenPad(d1.minute, d2.minute, 2, ':', s1, s2);
    var m1 := Pad(d1.minute, 2) + (":" + s1);
    var m2 := Pad(d2.minute, 2) + (":" + s2);
    FieldThenPad(d1.hour, d2.hour, 2, ':', m1, m2);
  }

  /** The text form orders date-times as their fields do. */
  lemma FormatOrder(d1: DateTime, d2: DateTime)
    requires Valid(d1) && Valid(d2)
    ensures LexLess(Format(d1), Format(d2)) <==> Before(d1, d2)
  {
    TimeTextOrder(d1, d2);
    var t1, t2 := TimeText(d1), TimeText(d2);
    FieldThenPad(d1.day, d2.day, 2, 'T', t1, t2);
    var e1 := Pad(d1.day, 2) + ("T" + t1);
    var e2 := Pad(d2.day, 2) + ("T" + t2);
    FieldThenPad(d1.month, d2.month, 2, '-', e1, e2);
    var m1 := Pad(d1.month, 2) + ("-" + e1);
    var m2 := Pad(d2.month, 2) + ("-" + e2);
    FieldThenPad(d1.year, d2.year, 4, '-', m1, m2);
  }

  /**
   * For well-formed timestamps, comparing the raw text (as `min(..., key=lambda pr: pr["created_at"])`
   * does) orders them exactly as comparing the parsed instants.
   */
  lemma TextOrderIsInstantOrder(a: string, b: string)
    requires WellFormed(a) && WellFormed(b)
    ensures LexLess(a, b) <==> Parse(a).value < Parse(b).value
  {
    FormatParse(a);
    FormatParse(b);
    FormatOrder(Fields(a), Fields(b));
    EpochOrder(Fields(a), Fields(b));
  }

  /** `datetime(now.year, now.month, now.day)`: the UTC midnight starting the day of `now`, in epoch seconds. */
  function TodayStart(now: int): (start: int)
    ensures start % SecondsPerDay == 0
    ensures start * MicrosPerSecond <= now < (start + SecondsPerDay) * MicrosPerSecond
  {
    now / MicrosPerDay * SecondsPerDay
  }

  /** `(now - t).days` for an instant `t` in seconds: whole days elapsed, rounded down. */
  function WholeDaysSince(now: int, t: int): (days: int)
    ensures days * MicrosPerDay <= now - t * MicrosPerSecond < (days + 1) * MicrosPerDay
  {
    (now - t * MicrosPerSecond) / MicrosPerDay
  }
}
