/** Proleptic Gregorian calendar dates as Python's `datetime.date` sees them
    (years 1 to 9999), in the two complete calendar-date representations of
    ISO 8601 (section 4.1.2.2 of ISO 8601:2004): basic `YYYYMMDD` and
    extended `YYYY-MM-DD`. */
module Dates {
  import opened Common

  datatype Date = Date(year: int, month: int, day: int)

  const MinYear: int := 1
  const MaxYear: int := 9999

  predicate IsLeapYear(y: int)
  {
    y % 4 == 0 && (y % 100 != 0 || y % 400 == 0)
  }

  function DaysInMonth(y: int, m: int): (n: int)
    requires 1 <= m <= 12
    ensures 28 <= n <= 31
  {
    if m == 2 then (if IsLeapYear(y) then 29 else 28)
    else if m == 4 || m == 6 || m == 9 || m == 11 then 30
    else 31
  }

  /** A date `datetime.date(year, month, day)` accepts. */
  predicate ValidDate(d: Date)
  {
    MinYear <= d.year <= MaxYear && 1 <= d.month <= 12 && 1 <= d.day <= DaysInMonth(d.year, d.month)
  }

  /** Python compares dates field by field: year, then month, then day. */
  predicate DateLe(a: Date, b: Date)
  {
    a.year < b.year || (a.year == b.year && (a.month < b.month || (a.month == b.month && a.day <= b.day)))
  }

  function DaysInYear(y: int): int
  {
    if IsLeapYear(y) then 366 else 365
  }

  function DaysBeforeYear(y: int): nat
    decreases y
  {
    if y <= MinYear then 0 else DaysBeforeYear(y - 1) + DaysInYear(y - 1)
  }

  function DaysBeforeMonth(y: int, m: int): nat
    requires 1 <= m <= 13
  {
    (if m == 1 then 0 else if m == 2 then 31 else if m == 3 then 59
     else if m == 4 then 90 else if m == 5 then 120 else if m == 6 then 151
     else if m == 7 then 181 else if m == 8 then 212 else if m == 9 then 243
     else if m == 10 then 273 else if m == 11 then 304 else if m == 12 then 334 else 365)
    + (if m > 2 && IsLeapYear(y) then 1 else 0)
  }

  /** Python's `date.toordinal()`: 0001-01-01 is day 1. */
  function DayNumber(d: Date): int
    requires ValidDate(d)
  {
    DaysBeforeYear(d.year) + DaysBeforeMonth(d.year, d.month) + d.day
  }

  /** `d + timedelta(days=1)` (before the overflow check at year 9999). */
  function NextDay(d: Date): Date
    requires ValidDate(d)
  {
    if d.day < DaysInMonth(d.year, d.month) then Date(d.year, d.month, d.day + 1)
    else if d.month < 12 then Date(d.year, d.month + 1, 1)
    else Date(d.year + 1, 1, 1)
  }

  const LastDate: Date := Date(MaxYear, 12, 31)

  lemma NextDayValid(d: Date)
    requires ValidDate(d) && d != LastDate
    ensures ValidDate(NextDay(d))
    ensures DayNumber(NextDay(d)) == DayNumber(d) + 1
  {
    if d.day == DaysInMonth(d.year, d.month) && d.month == 12 {
      assert DaysBeforeYear(d.year + 1) == DaysBeforeYear(d.year) + DaysInYear(d.year);
    }
  }

  lemma {:induction false} DaysBeforeYearMonotone(a: int, b: int)
    requires a <= b
    ensures DaysBeforeYear(a) + (if MinYear <= a < b then DaysInYear(a) else 0) <= DaysBeforeYear(b)
    decreases b - a
  {
    if a < b {
      DaysBeforeYearMonotone(a, b - 1);
      if MinYear <= a {
        if a < b - 1 {
          assert DaysBeforeYear(b) == DaysBeforeYear(b - 1) + DaysInYear(b - 1);
        }
      }
    }
  }

  /** The order Python uses on dates is the order of their day numbers. */
  lemma DateLeIffDayNumber(a: Date, b: Date)
    requires ValidDate(a) && ValidDate(b)
    ensures DateLe(a, b) <==> DayNumber(a) <= DayNumber(b)
    ensures a == b <==> DayNumber(a) == DayNumber(b)
  {
    if a.year < b.year {
      DaysBeforeYearMonotone(a.year, b.year);
    } else if b.year < a.year {
      DaysBeforeYearMonotone(b.year, a.year);
    }
  }

  // ---------------------------------------------------------------------------
  // ISO 8601 representations
  // ---------------------------------------------------------------------------

  /** Extended format `YYYY-MM-DD` (Python's `str(date)` and
      `strftime('%Y-%m-%d')`). */
  function FormatIso(d: Date): (s: string)
    requires ValidDate(d)
    ensures |s| == 10 && s[4] == '-' && s[7] == '-'
  {
    DigitWidths(d);
    PadNumber(d.year, 4) + "-" + PadNumber(d.month, 2) + "-" + PadNumber(d.day, 2)
  }

  lemma DigitWidths(d: Date)
    requires ValidDate(d)
    ensures |PadNumber(d.year, 4)| == 4 && |PadNumber(d.month, 2)| == 2 && |PadNumber(d.day, 2)| == 2
  {
    assert d.day < 100;
    PadNumberLength(d.year, 4);
    PadNumberLength(d.month, 2);
    PadNumberLength(d.day, 2);
  }

  /** Basic format `YYYYMMDD`. */
  function FormatBasic(d: Date): (s: string)
    requires ValidDate(d)
    ensures |s| == 8 && AllDigits(s)
  {
    DigitWidths(d);
    PadNumber(d.year, 4) + PadNumber(d.month, 2) + PadNumber(d.day, 2)
  }

  /** `datetime.strptime(s, '%Y%m%d').date()` on eight ASCII digits: the
      digits split 4-2-2 and the result must be a real calendar date
      (`None` stands for the ValueError). */
  function ParseBasic(s: string): (r: Option<Date>)
    requires |s| == 8 && AllDigits(s)
    ensures r.Some? ==> ValidDate(r.value)
  {
    var d := Date(ParseDigits(s[..4]), ParseDigits(s[4..6]), ParseDigits(s[6..]));
    if ValidDate(d) then Some(d) else None
  }

  lemma ParseFormatBasic(d: Date)
    requires ValidDate(d)
    ensures ParseBasic(FormatBasic(d)) == Some(d)
  {
    var y, m, dd := PadNumber(d.year, 4), PadNumber(d.month, 2), PadNumber(d.day, 2);
    DigitWidths(d);
    var s := FormatBasic(d);
    assert s[..4] == y && s[4..6] == m && s[6..] == dd;
    ParsePadNumber(d.year, 4);
    ParsePadNumber(d.month, 2);
    ParsePadNumber(d.day, 2);
  }

  lemma IsoFields(d: Date)
    requires ValidDate(d)
    ensures FormatIso(d)[..4] == PadNumber(d.year, 4)
    ensures FormatIso(d)[5..7] == PadNumber(d.month, 2)
    ensures FormatIso(d)[8..] == PadNumber(d.day, 2)
  {
    DigitWidths(d);
  }

  /** The extended representation holds only digits and hyphens, so it
      never contains a path separator. */
  lemma IsoCharacters(d: Date)
    requires ValidDate(d)
    ensures forall i | 0 <= i < 10 :: FormatIso(d)[i] == '-' || IsDigit(FormatIso(d)[i])
    ensures '/' !in FormatIso(d)
  {
    var s := FormatIso(d);
    IsoFields(d);
    forall i | 0 <= i < 10
      ensures s[i] == '-' || IsDigit(s[i])
    {
      if i < 4 {
        assert s[i] == s[..4][i];
      } else if 4 < i < 7 {
        assert s[i] == s[5..7][i - 5];
      } else if 7 < i {
        assert s[i] == s[8..][i - 8];
      }
    }
  }

  /** Distinct dates have distinct extended representations. */
  lemma FormatIsoInjective(a: Date, b: Date)
    requires ValidDate(a) && ValidDate(b)
    ensures FormatIso(a) == FormatIso(b) ==> a == b
  {
    if FormatIso(a) == FormatIso(b) {
      IsoFields(a);
      IsoFields(b);
      PadNumberInjective(a.year, b.year, 4);
      PadNumberInjective(a.month, b.month, 2);
      PadNumberInjective(a.day, b.day, 2);
    }
  }
}
