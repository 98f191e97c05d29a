/** The part of Python's `datetime` the sync tool relies on: naive date-times
    with whole seconds, their distance in seconds, a shift back by whole hours,
    and the fixed `strptime`/`strftime` forms `%Y-%m-%d` and `%Y-%m-%dT%H:%M:%S`. */
module Civil {
  import opened Wrappers
  import opened Numerals

  /** A naive `datetime.datetime` (no time zone, no microseconds). */
  datatype DateTime = DateTime(year: int, month: int, day: int, hour: int, minute: int, second: int)

  const MinYear := 1
  const MaxYear := 9999
  const SecondsPerHour := 3600
  const SecondsPerDay := 86400

  /** The first instant `datetime` can represent, 0001-01-01T00:00:00. */
  const Earliest := DateTime(1, 1, 1, 0, 0, 0)

  predicate IsLeap(y: int)
  {
    y % 4 == 0 && (y % 100 != 0 || y % 400 == 0)
  }

  function DaysInMonth(y: int, m: int): int
  {
    if m == 2 then (if IsLeap(y) then 29 else 28)
    else if m == 4 || m == 6 || m == 9 || m == 11 then 30
    else 31
  }

  predicate ValidDate(y: int, m: int, d: int)
  {
    MinYear <= y <= MaxYear && 1 <= m <= 12 && 1 <= d <= DaysInMonth(y, m)
  }

  /** The values the `datetime` constructor accepts. */
  predicate Valid(t: DateTime)
  {
    && ValidDate(t.year, t.month, t.day)
    && 0 <= t.hour < 24
    && 0 <= t.minute < 60
    && 0 <= t.second < 60
  }

  /** Days in the years before `y`, for the proleptic Gregorian calendar. */
  function DaysBeforeYear(y: int): int
  {
    var p := y - 1;
    p * 365 + p / 4 - p / 100 + p / 400
  }

  /** Days in the months of year `y` before month `m`. */
  function DaysBeforeMonth(y: int, m: int): int
  {
    var common :=
      if m <= 1 then 0 else if m == 2 then 31 else if m == 3 then 59
      else if m == 4 then 90 else if m == 5 then 120 else if m == 6 then 151
      else if m == 7 then 181 else if m == 8 then 212 else if m == 9 then 243
      else if m == 10 then 273 else if m == 11 then 304 else 334;
    if m > 2 && IsLeap(y) then common + 1 else common
  }

  /** `date.toordinal()`: 0001-01-01 is day 1. */
  function Ordinal(y: int, m: int, d: int): int
  {
    DaysBeforeYear(y) + DaysBeforeMonth(y, m) + d
  }

  /** The instant as a count of seconds; the difference of two of these is
      what subtracting two `datetime`s gives, as a `timedelta`. */
  function Seconds(t: DateTime): int
  {
    Ordinal(t.year, t.month, t.day) * SecondsPerDay
      + t.hour * SecondsPerHour + t.minute * 60 + t.second
  }

  function Midnight(t: DateTime): DateTime
  {
    DateTime(t.year, t.month, t.day, 0, 0, 0)
  }

  /** The calendar day before `(y, m, d)`. */
  function PrevDay(y: int, m: int, d: int): (int, int, int)
  {
    if d > 1 then (y, m, d - 1)
    else if m > 1 then (y, m - 1, DaysInMonth(y, m - 1))
    else (y - 1, 12, 31)
  }

  lemma DivStep(p: int, k: int)
    requires k == 4 || k == 100 || k == 400
    ensures p / k - (p - 1) / k == if p % k == 0 then 1 else 0
  {
    if k == 4 {
    } else if k == 100 {
    } else {
    }
  }

  /** A multiple of 400 is a multiple of 100. */
  lemma Multiple400(y: int)
    ensures y % 400 == 0 ==> y % 100 == 0
  {
    if y % 400 == 0 {
      var q := y / 400;
      assert y == 400 * q;
      assert y == 100 * (4 * q) + 0;
    }
  }

  /** A multiple of 100 is a multiple of 4. */
  lemma Multiple100(y: int)
    ensures y % 100 == 0 ==> y % 4 == 0
  {
    if y % 100 == 0 {
      var q := y / 100;
      assert y == 100 * q;
      assert y == 4 * (25 * q) + 0;
    }
  }

  /** A year has 366 days exactly when it is a leap year. */
  lemma YearLength(y: int)
    ensures DaysBeforeYear(y + 1) - DaysBeforeYear(y) == if IsLeap(y) then 366 else 365
  {
    var a, b, c := y / 4 - (y - 1) / 4, y / 100 - (y - 1) / 100, y / 400 - (y - 1) / 400;
    DivStep(y, 4);
    DivStep(y, 100);
    DivStep(y, 400);
    Multiple400(y);
    Multiple100(y);
    assert DaysBeforeYear(y + 1) - DaysBeforeYear(y) == 365 + a - b + c;
  }

  /** Stepping back one calendar day lowers the ordinal by exactly one,
      across month and year ends, from any day after 0001-01-01. */
  lemma PrevDayOrdinal(y: int, m: int, d: int)
    requires ValidDate(y, m, d) && (y, m, d) != (1, 1, 1)
    ensures var (py, pm, pd) := PrevDay(y, m, d);
      ValidDate(py, pm, pd) && Ordinal(py, pm, pd) == Ordinal(y, m, d) - 1
  {
    if d == 1 && m == 1 {
      YearLength(y - 1);
    }
  }

  /** Every valid date lies on or after 0001-01-01, and only that date has ordinal 1. */
  lemma OrdinalLowerBound(y: int, m: int, d: int)
    requires ValidDate(y, m, d)
    ensures Ordinal(y, m, d) >= 1
    ensures (y, m, d) != (1, 1, 1) ==> Ordinal(y, m, d) >= 2
  {
    assert (y - 1) / 4 >= (y - 1) / 100 >= (y - 1) / 400 >= 0;
  }

  /** `t + timedelta(hours=-h)` for `0 <= h < 24`; `None` is the OverflowError
      Python raises when the result would fall before 0001-01-01. */
  function MinusHours(t: DateTime, h: nat): (r: Option<DateTime>)
    requires Valid(t) && h < 24
    ensures r.Some? <==> Seconds(t) - h * SecondsPerHour >= Seconds(Earliest)
    ensures r.Some? ==> Valid(r.value) && Seconds(r.value) == Seconds(t) - h * SecondsPerHour
  {
    if t.hour >= h then
      Some(DateTime(t.year, t.month, t.day, t.hour - h, t.minute, t.second))
    else if (t.year, t.month, t.day) == (1, 1, 1) then
      None
    else
      var (py, pm, pd) := PrevDay(t.year, t.month, t.day);
      var r := DateTime(py, pm, pd, t.hour + 24 - h, t.minute, t.second);
      MinusHoursAcrossMidnight(t, h, r);
      Some(r)
  }

  lemma MinusHoursAcrossMidnight(t: DateTime, h: nat, r: DateTime)
    requires Valid(t) && h < 24 && t.hour < h && (t.year, t.month, t.day) != (1, 1, 1)
    requires (r.year, r.month, r.day) == PrevDay(t.year, t.month, t.day)
    requires r.hour == t.hour + 24 - h && r.minute == t.minute && r.second == t.second
    ensures Valid(r) && Seconds(r) == Seconds(t) - h * SecondsPerHour
    ensures Seconds(t) - h * SecondsPerHour >= Seconds(Earliest)
  {
    PrevDayOrdinal(t.year, t.month, t.day);
    OrdinalLowerBound(t.year, t.month, t.day);
  }

  // ---- strptime / strftime with fixed-width, zero-padded fields ----

  /** `s[i..i + w]` is a run of `w` decimal digits. */
  predicate DigitsAt(s: string, i: nat, w: nat)
  {
    i + w <= |s| && AllDigits(s[i..i + w])
  }

  /** The value of the `w`-digit field at `i`; it is below `10^w`. */
  function FieldAt(s: string, i: nat, w: nat): (n: nat)
    requires DigitsAt(s, i, w)
    ensures n < Pow10(w)
  {
    DigitsValueBound(s[i..i + w]);
    DigitsValue(s[i..i + w])
  }

  /** `s` begins with `YYYY-MM-DD`. */
  predicate DateShape(s: string)
  {
    |s| >= 10 && DigitsAt(s, 0, 4) && s[4] == '-' && DigitsAt(s, 5, 2) && s[7] == '-' && DigitsAt(s, 8, 2)
  }

  /** `s` is `YYYY-MM-DDTHH:MM:SS`. */
  predicate TimestampShape(s: string)
  {
    && |s| == 19 && DateShape(s) && s[10] == 'T'
    && DigitsAt(s, 11, 2) && s[13] == ':' && DigitsAt(s, 14, 2) && s[16] == ':' && DigitsAt(s, 17, 2)
  }

  /** `datetime.strptime(s, "%Y-%m-%d")`; `None` is the ValueError. A four-digit
      year never exceeds `MaxYear`, so only year 0000, the month and the day
      can make well-shaped text fail. */
  function ParseDate(s: string): (r: Option<DateTime>)
    ensures r.Some? ==> Valid(r.value) && r.value == Midnight(r.value)
    ensures r.Some? <==> && |s| == 10 && DateShape(s) && FieldAt(s, 0, 4) >= MinYear
                         && 1 <= FieldAt(s, 5, 2) <= 12
                         && 1 <= FieldAt(s, 8, 2) <= DaysInMonth(FieldAt(s, 0, 4), FieldAt(s, 5, 2))
  {
    assert Pow10(4) == 10000;
    if |s| == 10 && DateShape(s) then
      var t := DateTime(FieldAt(s, 0, 4), FieldAt(s, 5, 2), FieldAt(s, 8, 2), 0, 0, 0);
      if Valid(t) then Some(t) else None
    else None
  }

  /** `datetime.strptime(s, "%Y-%m-%dT%H:%M:%S")`; `None` is the ValueError. */
  function ParseTimestamp(s: string): (r: Option<DateTime>)
    ensures r.Some? ==> Valid(r.value)
  {
    if TimestampShape(s) then
      var t := DateTime(FieldAt(s, 0, 4), FieldAt(s, 5, 2), FieldAt(s, 8, 2),
                        FieldAt(s, 11, 2), FieldAt(s, 14, 2), FieldAt(s, 17, 2));
      if Valid(t) then Some(t) else None
    else None
  }

  /** `t.strftime("%Y-%m-%d")`. */
  function FormatDate(t: DateTime): (s: string)
    requires Valid(t)
    ensures |s| == 10
  {
    Padded(t.year, 4) + "-" + Padded(t.month, 2) + "-" + Padded(t.day, 2)
  }

  /** `t.isoformat()`, the `%Y-%m-%dT%H:%M:%S` text of a whole-second date-time.
      The program never writes timestamps; this exists to state that
      `ParseTimestamp` and writing are inverse. */
  function FormatTimestamp(t: DateTime): (s: string)
    requires Valid(t)
    ensures |s| == 19
  {
    FormatDate(t) + "T" + Padded(t.hour, 2) + ":" + Padded(t.minute, 2) + ":" + Padded(t.second, 2)
  }

  /** The digits of a padded field read back as the field. */
  lemma FieldOfPadded(s: string, i: nat, n: nat, w: nat)
    requires i + w <= |s| && s[i..i + w] == Padded(n, w) && n < Pow10(w)
    ensures DigitsAt(s, i, w) && FieldAt(s, i, w) == n
  {
    PaddedValue(n, w);
  }

  lemma FormatDateShape(t: DateTime)
    requires Valid(t)
    ensures var s := FormatDate(t);
      && DateShape(s)
      && FieldAt(s, 0, 4) == t.year && FieldAt(s, 5, 2) == t.month && FieldAt(s, 8, 2) == t.day
  {
    var s := FormatDate(t);
    assert s[0..4] == Padded(t.year, 4);
    assert s[5..7] == Padded(t.month, 2);
    assert s[8..10] == Padded(t.day, 2);
    FieldOfPadded(s, 0, t.year, 4);
    FieldOfPadded(s, 5, t.month, 2);
    FieldOfPadded(s, 8, t.day, 2);
  }

  /** Parsing a formatted date gives the date at midnight: the time of day is lost. */
  lemma ParseFormatDate(t: DateTime)
    requires Valid(t)
    ensures ParseDate(FormatDate(t)) == Some(Midnight(t))
  {
    FormatDateShape(t);
  }

  /** Only canonical text parses: formatting a parsed date gives the text back. */
  lemma FormatParseDate(s: string)
    requires ParseDate(s).Some?
    ensures FormatDate(ParseDate(s).value) == s
  {
    var t := ParseDate(s).value;
    PaddedOfDigits(s[0..4]);
    PaddedOfDigits(s[5..7]);
    PaddedOfDigits(s[8..10]);
    assert s == s[0..4] + "-" + s[5..7] + "-" + s[8..10];
  }

  /** Parsing an ISO timestamp is the inverse of writing one. */
  lemma ParseFormatTimestamp(t: DateTime)
    requires Valid(t)
    ensures ParseTimestamp(FormatTimestamp(t)) == Some(t)
  {
    var s := FormatTimestamp(t);
    FormatDateShape(t);
    assert s[..10] == FormatDate(t);
    assert DateShape(s) by {
      assert s[0..4] == FormatDate(t)[0..4];
      assert s[5..7] == FormatDate(t)[5..7];
      assert s[8..10] == FormatDate(t)[8..10];
    }
    assert s[11..13] == Padded(t.hour, 2);
    assert s[14..16] == Padded(t.minute, 2);
    assert s[17..19] == Padded(t.second, 2);
    FieldOfPadded(s, 11, t.hour, 2);
    FieldOfPadded(s, 14, t.minute, 2);
    FieldOfPadded(s, 17, t.second, 2);
  }

  lemma FormatParseTimestamp(s: string)
    requires ParseTimestamp(s).Some?
    ensures FormatTimestamp(ParseTimestamp(s).value) == s
  {
    PaddedOfDigits(s[0..4]);
    PaddedOfDigits(s[5..7]);
    PaddedOfDigits(s[8..10]);
    PaddedOfDigits(s[11..13]);
    PaddedOfDigits(s[14..16]);
    PaddedOfDigits(s[17..19]);
    assert s == s[0..4] + "-" + s[5..7] + "-" + s[8..10] + "T" + s[11..13] + ":" + s[14..16] + ":" + s[17..19];
  }
}
