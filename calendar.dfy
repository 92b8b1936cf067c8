/** Python's `date` and `datetime` as the finance app uses them: comparison,
    day differences (`(a - b).days`), trailing windows (`now - timedelta(days=n)`)
    and the `strftime` patterns of the exports. */
module Calendar {
  import opened Strings

  /** A `datetime.date`. */
  datatype Date = Date(year: int, month: int, day: int)

  /** A naive `datetime.datetime`, to the second. */
  datatype DateTime = DateTime(date: Date, hour: int, minute: int, second: int)

  predicate IsLeap(y: int)
  {
    y % 4 == 0 && (y % 100 != 0 || y % 400 == 0)
  }

  function DaysInMonth(y: int, m: int): int
  {
    if m == 2 then (if IsLeap(y) then 29 else 28)
    else if m == 4 || m == 6 || m == 9 || m == 11 then 30
    else 31
  }

  function DaysInYear(y: int): int
  {
    if IsLeap(y) then 366 else 365
  }

  /** The dates Python can represent: years 1 to 9999 of the proleptic
      Gregorian calendar. */
  predicate ValidDate(d: Date)
  {
    1 <= d.year <= 9999 && 1 <= d.month <= 12 && 1 <= d.day <= DaysInMonth(d.year, d.month)
  }

  predicate ValidDateTime(t: DateTime)
  {
    ValidDate(t.date) && 0 <= t.hour < 24 && 0 <= t.minute < 60 && 0 <= t.second < 60
  }

  /** The values a `DateField` holds. */
  type CivilDate = d: Date | ValidDate(d) witness Date(1, 1, 1)

  /** The values a `DateTimeField` holds. */
  type CivilDateTime = t: DateTime | ValidDateTime(t) witness DateTime(Date(1, 1, 1), 0, 0, 0)

  /** `a <= b` on dates: by year, then month, then day. */
  predicate DateLeq(a: Date, b: Date)
  {
    a.year < b.year || (a.year == b.year && (a.month < b.month || (a.month == b.month && a.day <= b.day)))
  }

  predicate DateLt(a: Date, b: Date)
  {
    DateLeq(a, b) && a != b
  }

  function DaysBeforeYear(y: int): int
    requires y >= 1
  {
    var p := y - 1;
    p * 365 + p / 4 - p / 100 + p / 400
  }

  function DaysBeforeMonth(y: int, m: int): int
    requires 1 <= m <= 12
    decreases m
  {
    if m == 1 then 0 else DaysBeforeMonth(y, m - 1) + DaysInMonth(y, m - 1)
  }

  /** `d.toordinal()`: 1 January of year 1 is day 1 and each day adds one. */
  function Ordinal(d: Date): int
    requires ValidDate(d)
  {
    DaysBeforeYear(d.year) + DaysBeforeMonth(d.year, d.month) + d.day
  }

  /** `(a - b).days`. */
  function DaysBetween(a: Date, b: Date): int
    requires ValidDate(a) && ValidDate(b)
  {
    Ordinal(a) - Ordinal(b)
  }

  lemma DaysBeforeNextYear(y: int)
    requires y >= 1
    ensures DaysBeforeYear(y + 1) == DaysBeforeYear(y) + DaysInYear(y)
  {
    var p := y - 1;
    assert (p + 1) / 4 == p / 4 + (if y % 4 == 0 then 1 else 0);
    assert (p + 1) / 100 == p / 100 + (if y % 100 == 0 then 1 else 0);
    assert (p + 1) / 400 == p / 400 + (if y % 400 == 0 then 1 else 0);
  }

  lemma {:induction false} DaysBeforeYearGrows(a: int, b: int)
    requires 1 <= a <= b
    ensures DaysBeforeYear(a) + (b - a) * 365 <= DaysBeforeYear(b)
    decreases b - a
  {
    if a < b {
      DaysBeforeNextYear(a);
      DaysBeforeYearGrows(a + 1, b);
    }
  }

  lemma {:induction false} DaysBeforeMonthGrows(y: int, a: int, b: int)
    requires 1 <= a < b <= 12
    ensures DaysBeforeMonth(y, a) + DaysInMonth(y, a) <= DaysBeforeMonth(y, b)
    decreases b - a
  {
    if a + 1 < b {
      DaysBeforeMonthGrows(y, a + 1, b);
    }
  }

  /** A date lies inside its year. */
  lemma DayOfYearBounds(d: Date)
    requires ValidDate(d)
    ensures 1 <= DaysBeforeMonth(d.year, d.month) + d.day <= DaysInYear(d.year)
  {
    if d.month < 12 {
      DaysBeforeMonthGrows(d.year, d.month, 12);
    }
  }

  lemma EarlierYearFirst(a: Date, b: Date)
    requires ValidDate(a) && ValidDate(b) && a.year < b.year
    ensures Ordinal(a) < Ordinal(b)
  {
    var ya, yb := DaysBeforeYear(a.year), DaysBeforeYear(b.year);
    DayOfYearBounds(a);
    DayOfYearBounds(b);
    DaysBeforeNextYear(a.year);
    DaysBeforeYearGrows(a.year + 1, b.year);
    assert ya + DaysInYear(a.year) <= yb;
  }

  lemma OrdinalStrict(a: Date, b: Date)
    requires ValidDate(a) && ValidDate(b) && DateLt(a, b)
    ensures Ordinal(a) < Ordinal(b)
  {
    if a.year < b.year {
      EarlierYearFirst(a, b);
    } else if a.month < b.month {
      DaysBeforeMonthGrows(a.year, a.month, b.month);
    }
  }

  /** Comparing dates field by field is comparing their day numbers, so the
      date-window filters and the day counts agree. */
  lemma OrdinalMonotone(a: Date, b: Date)
    requires ValidDate(a) && ValidDate(b)
    ensures DateLeq(a, b) <==> Ordinal(a) <= Ordinal(b)
    ensures a == b <==> Ordinal(a) == Ordinal(b)
  {
    if DateLt(a, b) {
      OrdinalStrict(a, b);
    } else if DateLt(b, a) {
      OrdinalStrict(b, a);
    }
  }

  /** Seconds since the start of day 1, the measure on which datetimes are
      compared and shifted. */
  function Timestamp(t: DateTime): int
    requires ValidDateTime(t)
  {
    Ordinal(t.date) * 86400 + t.hour * 3600 + t.minute * 60 + t.second
  }

  /** The start of `t`'s day is a whole number of days past day 1, and `t`
      lies within that day: one date's datetimes all come before the next
      date's. */
  lemma TimestampWithinDay(t: DateTime)
    requires ValidDateTime(t)
    ensures Ordinal(t.date) * 86400 <= Timestamp(t) < Ordinal(t.date) * 86400 + 86400
  {
  }

  /** `t >= now - timedelta(days=n)`: `t` lies in the trailing window of `n`
      days that ends at `now`. */
  predicate WithinLastDays(t: DateTime, now: DateTime, n: int)
    requires ValidDateTime(t) && ValidDateTime(now)
  {
    Timestamp(t) >= Timestamp(now) - n * 86400
  }

  /** A longer window keeps everything a shorter one keeps. */
  lemma {:induction false} WindowWidens(t: DateTime, now: DateTime, n: int, m: int)
    requires ValidDateTime(t) && ValidDateTime(now) && n <= m
    requires WithinLastDays(t, now, n)
    ensures WithinLastDays(t, now, m)
  {
    assert n * 86400 <= m * 86400;
  }

  /** A two-digit zero-padded field (`%d`, `%m`, `%H`, `%M`). */
  function Pad2(n: int): (s: string)
    requires 0 <= n < 100
    ensures |s| == 2 && AllDigits(s)
    ensures 10 * DigitValue(s[0]) + DigitValue(s[1]) == n
  {
    [Digit(n / 10), Digit(n % 10)]
  }

  /** `strftime('%d.%m.%Y')`. The year is written without padding, as the
      C library of Linux writes `%Y`. */
  function FormatDate(d: Date): (s: string)
    requires ValidDate(d)
    ensures |s| >= 7 && s[2] == '.' && s[5] == '.'
    ensures s[..2] == Pad2(d.day) && s[3..5] == Pad2(d.month)
    ensures s[6..] == NatToString(d.year)
  {
    Pad2(d.day) + "." + Pad2(d.month) + "." + NatToString(d.year)
  }

  /** `strftime('%d.%m.%Y %H:%M')`. */
  function FormatDateTime(t: DateTime): (s: string)
    requires ValidDateTime(t)
    ensures |s| >= 13 && s[..|s| - 6] == FormatDate(t.date)
    ensures s[|s| - 6] == ' ' && s[|s| - 3] == ':'
    ensures s[|s| - 5..|s| - 3] == Pad2(t.hour) && s[|s| - 2..] == Pad2(t.minute)
  {
    FormatDate(t.date) + " " + Pad2(t.hour) + ":" + Pad2(t.minute)
  }

  /** Different dates are written differently. */
  lemma FormatDateInjective(a: Date, b: Date)
    requires ValidDate(a) && ValidDate(b)
    requires FormatDate(a) == FormatDate(b)
    ensures a == b
  {
    var s := FormatDate(a);
    assert s[0..2] == Pad2(a.day) == Pad2(b.day);
    assert s[3..5] == Pad2(a.month) == Pad2(b.month);
    NatToStringInjective(a.year, b.year);
  }

  /** The date-and-time text determines the date, hour and minute (the
      seconds are not written). */
  lemma FormatDateTimeInjective(a: DateTime, b: DateTime)
    requires ValidDateTime(a) && ValidDateTime(b)
    requires FormatDateTime(a) == FormatDateTime(b)
    ensures a.date == b.date && a.hour == b.hour && a.minute == b.minute
  {
    var s := FormatDateTime(a);
    var n := |s|;
    FormatDateInjective(a.date, b.date);
    assert s[n - 5..n - 3] == Pad2(a.hour) == Pad2(b.hour);
    assert s[n - 2..] == Pad2(a.minute) == Pad2(b.minute);
  }
}
