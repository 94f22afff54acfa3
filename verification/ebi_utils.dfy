/** Helpers of the EBI BioSample extraction: the daily date ranges the API
    is queried with, and the Hive-style relative file name of a day. */
module EbiUtils {
  import opened Common
  import opened Dates

  // ---------------------------------------------------------------------------
  // get_filename
  // ---------------------------------------------------------------------------

  /** `f"year={d.year}"`: the year is not padded. */
  function YearPart(d: Date): string
    requires ValidDate(d)
  {
    "year=" + NatToString(d.year)
  }

  function MonthPart(d: Date): string
    requires ValidDate(d)
  {
    "month=" + PadNumber(d.month, 2)
  }

  function DayPart(d: Date): string
    requires ValidDate(d)
  {
    "day=" + PadNumber(d.day, 2)
  }

  const DataName: string := "data_0.parquet"
  const TmpSuffix: string := ".tmp"

  /** `get_filename`: the name is built from the start date alone; the end
      date and the output directory are accepted and ignored. */
  function GetFilename(startDate: Date, endDate: Date, tmp: bool, outputDirectory: string): string
    requires ValidDate(startDate)
  {
    YearPart(startDate) + "/" + (MonthPart(startDate) + "/" + (DayPart(startDate) + "/" + FileTail(tmp)))
  }

  function FileTail(tmp: bool): string
  {
    DataName + (if tmp then TmpSuffix else "")
  }

  /** The name ends in ".tmp" exactly when `tmp` is set. */
  lemma GetFilenameTmp(startDate: Date, endDate: Date, tmp: bool, outputDirectory: string)
    requires ValidDate(startDate)
    ensures var s := GetFilename(startDate, endDate, tmp, outputDirectory);
      tmp <==> |s| >= |TmpSuffix| && s[|s| - |TmpSuffix|..] == TmpSuffix
  {
    var d, t := startDate, FileTail(tmp);
    SuffixOfAppend(YearPart(d) + "/", MonthPart(d) + "/" + (DayPart(d) + "/" + t), 4);
    SuffixOfAppend(MonthPart(d) + "/", DayPart(d) + "/" + t, 4);
    SuffixOfAppend(DayPart(d) + "/", t, 4);
    FileTailTmp(tmp);
  }

  lemma FileTailTmp(tmp: bool)
    ensures |FileTail(tmp)| >= |TmpSuffix|
    ensures tmp <==> FileTail(tmp)[|FileTail(tmp)| - |TmpSuffix|..] == TmpSuffix
  {
    if tmp {
      SuffixOfAppend(DataName, TmpSuffix, 4);
    } else {
      assert FileTail(tmp)[10..] == "quet";
    }
  }

  lemma NoSlashInParts(d: Date)
    requires ValidDate(d)
    ensures '/' !in YearPart(d) && '/' !in MonthPart(d) && '/' !in DayPart(d)
  {
    DigitsExclude(NatToString(d.year), '/');
    DigitsExclude(PadNumber(d.month, 2), '/');
    DigitsExclude(PadNumber(d.day, 2), '/');
  }

  /** Two days share a file name exactly when they are the same day: the
      name determines the start date, whatever end date and output
      directory were passed. */
  lemma GetFilenameInjective(a: Date, b: Date, endA: Date, endB: Date, tmp: bool, dirA: string, dirB: string)
    requires ValidDate(a) && ValidDate(b)
    ensures GetFilename(a, endA, tmp, dirA) == GetFilename(b, endB, tmp, dirB) <==> a == b
  {
    if GetFilename(a, endA, tmp, dirA) == GetFilename(b, endB, tmp, dirB) {
      var tail := FileTail(tmp);
      NoSlashInParts(a);
      NoSlashInParts(b);
      SplitAtSeparator(YearPart(a), MonthPart(a) + "/" + (DayPart(a) + "/" + tail),
                       YearPart(b), MonthPart(b) + "/" + (DayPart(b) + "/" + tail), '/');
      SplitAtSeparator(MonthPart(a), DayPart(a) + "/" + tail, MonthPart(b), DayPart(b) + "/" + tail, '/');
      SplitAtSeparator(DayPart(a), tail, DayPart(b), tail, '/');
      PrefixCancel("year=", NatToString(a.year), NatToString(b.year));
      PrefixCancel("month=", PadNumber(a.month, 2), PadNumber(b.month, 2));
      PrefixCancel("day=", PadNumber(a.day, 2), PadNumber(b.day, 2));
      NatToStringInjective(a.year, b.year);
      PadNumberInjective(a.month, b.month, 2);
      PadNumberInjective(a.day, b.day, 2);
    }
  }

  // ---------------------------------------------------------------------------
  // get_date_ranges
  // ---------------------------------------------------------------------------

  /** One `(day, day)` pair for every calendar day from `start` to `end`
      inclusive, in increasing order, and none when `start` is later. */
  ghost predicate DailyRanges(start: Date, end: Date, ranges: seq<(Date, Date)>)
    requires ValidDate(start) && ValidDate(end)
  {
    && |ranges| == (if DayNumber(start) <= DayNumber(end) then DayNumber(end) - DayNumber(start) + 1 else 0)
    && forall k | 0 <= k < |ranges| ::
         ranges[k].0 == ranges[k].1 && ValidDate(ranges[k].0) && DayNumber(ranges[k].0) == DayNumber(start) + k
  }

  /** `get_date_ranges` (the dates already parsed): yields the current day
      and steps one day forward while it is not past the end. Stepping past
      9999-12-31 raises `OverflowError`, after the last day was yielded. */
  method GetDateRanges(startDate: Date, endDate: Date) returns (ranges: seq<(Date, Date)>, overflow: bool)
    requires ValidDate(startDate) && ValidDate(endDate)
    ensures DailyRanges(startDate, endDate, ranges)
    ensures overflow <==> DateLe(startDate, endDate) && endDate == LastDate
  {
    DateLeIffDayNumber(startDate, endDate);
    ranges := [];
    overflow := false;
    var current := startDate;
    while DateLe(current, endDate)
      invariant ValidDate(current)
      invariant DayNumber(current) == DayNumber(startDate) + |ranges|
      invariant DayNumber(startDate) <= DayNumber(endDate) ==> DayNumber(current) <= DayNumber(endDate) + 1
      invariant DayNumber(startDate) > DayNumber(endDate) ==> ranges == []
      invariant forall k | 0 <= k < |ranges| ::
        ranges[k].0 == ranges[k].1 && ValidDate(ranges[k].0) && DayNumber(ranges[k].0) == DayNumber(startDate) + k
      decreases DayNumber(endDate) - DayNumber(current)
    {
      DateLeIffDayNumber(current, endDate);
      ranges := ranges + [(current, current)];
      if current == LastDate {
        assert endDate == LastDate;
        overflow := true;
        return;
      }
      NextDayValid(current);
      current := NextDay(current);
    }
    DateLeIffDayNumber(current, endDate);
    assert DateLe(current, LastDate);
    DateLeIffDayNumber(current, LastDate);
  }

  /** The ranges are determined by the two dates. */
  lemma DailyRangesUnique(start: Date, end: Date, r1: seq<(Date, Date)>, r2: seq<(Date, Date)>)
    requires ValidDate(start) && ValidDate(end)
    requires DailyRanges(start, end, r1) && DailyRanges(start, end, r2)
    ensures r1 == r2
  {
    forall k | 0 <= k < |r1|
      ensures r1[k] == r2[k]
    {
      DateLeIffDayNumber(r1[k].0, r2[k].0);
    }
  }

  /** Every yielded day lies between the two dates, and every day between
      them is yielded. */
  lemma DailyRangesExact(start: Date, end: Date, ranges: seq<(Date, Date)>, d: Date)
    requires ValidDate(start) && ValidDate(end) && DailyRanges(start, end, ranges)
    ensures forall k | 0 <= k < |ranges| :: DateLe(start, ranges[k].0) && DateLe(ranges[k].0, end)
    ensures ValidDate(d) && DateLe(start, d) && DateLe(d, end) ==> exists k | 0 <= k < |ranges| :: ranges[k].0 == d
  {
    forall k | 0 <= k < |ranges|
      ensures DateLe(start, ranges[k].0) && DateLe(ranges[k].0, end)
    {
      DateLeIffDayNumber(start, ranges[k].0);
      DateLeIffDayNumber(ranges[k].0, end);
    }
    if ValidDate(d) && DateLe(start, d) && DateLe(d, end) {
      DateLeIffDayNumber(start, d);
      DateLeIffDayNumber(d, end);
      var k := DayNumber(d) - DayNumber(start);
      DateLeIffDayNumber(ranges[k].0, d);
    }
  }
}
