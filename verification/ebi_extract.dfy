/** The EBI BioSample extraction: one task per day fetches the samples
    updated that day and writes them under `year=Y/month=MM/day=DD/`,
    followed by a `.done` marker; days whose marker exists are not
    scheduled again. The tasks are run one after the other. */
module EbiExtract {
  import opened Common
  import opened Values
  import opened Dates
  import opened Store
  import opened EbiUtils
  import opened EbiFetcher

  const Cursor: string := "*"
  const PageSize: int := 200
  const FirstDay: Date := Date(2021, 1, 1)
  const MarkerSuffix: string := ".done"
  const NoSamplesText: string := "NO_SAMPLES\n"

  function ProcessedText(n: nat): string
  {
    "Processed " + NatToString(n) + " samples\n"
  }

  // ---------------------------------------------------------------------------
  // Paths
  // ---------------------------------------------------------------------------

  /** `output_path / f"year={y}" / f"month={m:02d}" / f"day={d:02d}"` */
  function DayDir(out: Path, d: Date): (p: Path)
    requires ValidDate(d)
    ensures IsUnder(p, out)
  {
    var y := JoinPath(out, YearPart(d));
    var m := JoinPath(y, MonthPart(d));
    JoinIsUnder(out, YearPart(d));
    JoinIsUnder(y, MonthPart(d));
    JoinIsUnder(m, DayPart(d));
    UnderTransitive(m, y, out);
    UnderTransitive(JoinPath(m, DayPart(d)), m, out);
    JoinPath(m, DayPart(d))
  }

  function DataFile(out: Path, d: Date): (p: Path)
    requires ValidDate(d)
    ensures IsUnder(p, out)
  {
    JoinIsUnder(DayDir(out, d), DataName);
    UnderTransitive(JoinPath(DayDir(out, d), DataName), DayDir(out, d), out);
    JoinPath(DayDir(out, d), DataName)
  }

  /** The semaphore file `data_0.parquet.done`. */
  function Marker(out: Path, d: Date): (p: Path)
    requires ValidDate(d)
    ensures IsUnder(p, out)
  {
    JoinIsUnder(DayDir(out, d), DataName + MarkerSuffix);
    UnderTransitive(JoinPath(DayDir(out, d), DataName + MarkerSuffix), DayDir(out, d), out);
    JoinPath(DayDir(out, d), DataName + MarkerSuffix)
  }

  lemma JoinFour(o: Path, y: string, m: string, d: string, n: string)
    ensures JoinPath(JoinPath(JoinPath(JoinPath(o, y), m), d), n) == JoinPath(o, y + "/" + (m + "/" + (d + "/" + n)))
  {
  }

  /** The data file is the output directory joined with `get_filename` of
      the day (not the temporary name), and the marker is the data file's
      path with ".done" appended. */
  lemma DataFileIsFilename(out: Path, d: Date)
    requires ValidDate(d)
    ensures DataFile(out, d) == JoinPath(out, GetFilename(d, d, false, out))
    ensures Marker(out, d) == DataFile(out, d) + MarkerSuffix
  {
    AppendEmpty(DataName);
    JoinFour(out, YearPart(d), MonthPart(d), DayPart(d), DataName);
    AppendAssoc(DayDir(out, d) + "/", DataName, MarkerSuffix);
  }

  /** Different days have different markers, so one day's marker never
      makes another day look done. */
  lemma MarkerInjective(out: Path, a: Date, b: Date)
    requires ValidDate(a) && ValidDate(b)
    ensures Marker(out, a) == Marker(out, b) <==> a == b
  {
    if Marker(out, a) == Marker(out, b) {
      DataFileIsFilename(out, a);
      DataFileIsFilename(out, b);
      SuffixCancel(DataFile(out, a), DataFile(out, b), MarkerSuffix);
      PrefixCancel(out + "/", GetFilename(a, a, false, out), GetFilename(b, b, false, out));
      GetFilenameInjective(a, b, a, b, false, out, out);
    }
  }

  // ---------------------------------------------------------------------------
  // process_by_dates
  // ---------------------------------------------------------------------------

  datatype DayResult = AlreadyDone | Extracted(count: nat) | NoSamples | DayFailed

  /** The pages `process` consumes: up to the one that ends the loop. */
  function Got(pages: seq<Page>): seq<Page>
    requires FirstStop(pages) < |pages|
  {
    pages[..FirstStop(pages) + 1]
  }

  /** The buffered samples as Parquet rows. */
  function SampleRows(ss: seq<Sample>): (rows: seq<Record>)
    ensures |rows| == |ss|
  {
    seq(|ss|, k requires 0 <= k < |ss| => SampleRecord(ss[k]))
  }

  /** What one day's task returns and leaves in the store, given the pages
      its fetcher received: the marker check comes after the fetch; with
      samples the temporary file is written, copied to the data file, and
      the marker written last; without, only the marker. Each failed write
      raises and ends the task. The temporary file is always gone
      afterwards. */
  function DayOutcome(files: map<Path, File>, refused: set<Path>, out: Path, d: Date, tmpFile: Path, got: seq<Page>)
    : (o: (DayResult, map<Path, File>))
    requires ValidDate(d)
    ensures PathExists(files, Marker(out, d)) ==> o == (AlreadyDone, files)
    ensures forall p | p in files :: p in o.1
    ensures forall p | p in o.1 && p != DataFile(out, d) && p != Marker(out, d) :: p in files && o.1[p] == files[p]
    ensures !Reached(got) ==> DataFile(out, d) !in o.1 || (DataFile(out, d) in files && o.1[DataFile(out, d)] == files[DataFile(out, d)])
  {
    var data, marker := DataFile(out, d), Marker(out, d);
    if PathExists(files, marker) then (AlreadyDone, files)
    else if Reached(got) then
      var n := |Yielded(got)|;
      var written := files[data := Rows(SampleRows(Yielded(got)))];
      if tmpFile in refused || data in refused then (DayFailed, files)
      else if marker in refused then (DayFailed, written)
      else (Extracted(n), written[marker := Text(ProcessedText(n))])
    else if marker in refused then (DayFailed, files)
    else (NoSamples, files[marker := Text(NoSamplesText)])
  }

  /** `process_by_dates`: fetches first, then skips a day whose marker
      exists, and otherwise writes the day's files through a temporary file
      outside the output tree. */
  method ProcessByDates(store: FileStore, startDate: Date, endDate: Date, out: Path, pages: seq<Page>, tmpFile: Path)
    returns (r: DayResult)
    requires ValidDate(startDate) && ValidDate(endDate) && FirstStop(pages) < |pages|
    requires tmpFile !in store.files && !AtOrUnder(tmpFile, out)
    modifies store
    ensures (r, store.files) == DayOutcome(old(store.files), store.refused, out, startDate, tmpFile, Got(pages))
  {
    var fetcher := new SampleFetcher(Cursor, PageSize, startDate, endDate, out);
    var _ := fetcher.Process(pages);
    AppendEmpty(Yielded(Got(pages)));
    var outputFile := DataFile(out, startDate);
    var outputSemaphore := Marker(out, startDate);
    var done := store.Exists(outputSemaphore);
    if done {
      return AlreadyDone;
    }
    var rows := Rows(SampleRows(fetcher.samplesBuffer));
    var text := if fetcher.anySamples then ProcessedText(fetcher.processedCount) else NoSamplesText;
    DropTemporary(store.files, tmpFile, rows, outputFile, rows, outputSemaphore, Text(text));
    if fetcher.anySamples {
      var ok := store.Write(tmpFile, rows);
      if ok {
        ok := store.Copy(tmpFile, outputFile);
        if ok {
          ok := store.Write(outputSemaphore, Text(text));
        }
      }
      r := if ok then Extracted(fetcher.processedCount) else DayFailed;
    } else {
      var ok := store.Write(outputSemaphore, Text(text));
      r := if ok then NoSamples else DayFailed;
    }
    var _ := store.Unlink(tmpFile);
  }

  /** Every task that returns without raising leaves the day's marker in
      place. */
  lemma MarkerAfterReturn(files: map<Path, File>, refused: set<Path>, out: Path, d: Date, tmpFile: Path, got: seq<Page>)
    requires ValidDate(d)
    ensures var o := DayOutcome(files, refused, out, d, tmpFile, got);
      o.0 != DayFailed ==> PathExists(o.1, Marker(out, d))
  {
  }

  lemma DataNotMarker(out: Path, d: Date)
    requires ValidDate(d)
    ensures DataFile(out, d) != Marker(out, d)
  {
    DataFileIsFilename(out, d);
    assert |Marker(out, d)| == |DataFile(out, d)| + |MarkerSuffix|;
  }

  /** A day with samples ends with both files: the data file holds the
      yielded samples and the marker gives their number. */
  lemma ExtractedWritesBoth(files: map<Path, File>, refused: set<Path>, out: Path, d: Date, tmpFile: Path, got: seq<Page>)
    requires ValidDate(d)
    ensures var o := DayOutcome(files, refused, out, d, tmpFile, got);
      o.0.Extracted? ==>
        && o.0.count == |Yielded(got)|
        && DataFile(out, d) in o.1 && o.1[DataFile(out, d)] == Rows(SampleRows(Yielded(got)))
        && Marker(out, d) in o.1 && o.1[Marker(out, d)] == Text(ProcessedText(o.0.count))
  {
    DataNotMarker(out, d);
  }

  /** A day without samples gets the `NO_SAMPLES` marker, and nothing was
      yielded for it. */
  lemma NoSamplesWritesMarker(files: map<Path, File>, refused: set<Path>, out: Path, d: Date, tmpFile: Path, got: seq<Page>)
    requires ValidDate(d)
    ensures var o := DayOutcome(files, refused, out, d, tmpFile, got);
      o.0 == NoSamples ==> Marker(out, d) in o.1 && o.1[Marker(out, d)] == Text(NoSamplesText) && Yielded(got) == []
  {
    YieldedReached(got);
  }

  /** The data file is copied before the marker is written: a counting
      marker this task wrote is never without the data file. */
  lemma DataBeforeMarker(files: map<Path, File>, refused: set<Path>, out: Path, d: Date, tmpFile: Path, got: seq<Page>)
    requires ValidDate(d) && !PathExists(files, Marker(out, d))
    ensures var o := DayOutcome(files, refused, out, d, tmpFile, got);
      Marker(out, d) in o.1 && o.1[Marker(out, d)] != Text(NoSamplesText) ==>
        DataFile(out, d) in o.1 && o.1[DataFile(out, d)] == Rows(SampleRows(Yielded(got)))
  {
    DataNotMarker(out, d);
  }

  // ---------------------------------------------------------------------------
  // main
  // ---------------------------------------------------------------------------

  /** The scheduling loop of `main`: every day from 2021-01-01 through
      yesterday whose marker does not exist, in date order. All the checks
      happen before any task starts. `yesterday` is the clock's reading. */
  method ScheduleDays(store: FileStore, out: Path, yesterday: Date) returns (scheduled: seq<Date>)
    requires ValidDate(yesterday) && yesterday != LastDate
    ensures forall k | 0 <= k < |scheduled| :: ValidDate(scheduled[k])
    ensures forall d :: d in scheduled <==>
      ValidDate(d) && DateLe(FirstDay, d) && DateLe(d, yesterday) && !PathExists(store.files, Marker(out, d))
    ensures forall a, b | 0 <= a < b < |scheduled| :: DayNumber(scheduled[a]) < DayNumber(scheduled[b])
  {
    var ranges, _ := GetDateRanges(FirstDay, yesterday);
    scheduled := [];
    for i := 0 to |ranges|
      invariant scheduled == Filter(DaysOf(ranges)[..i], Unmarked(store.files, out))
    {
      scheduled := ScheduleOne(store, out, ranges, i, scheduled);
    }
    TakeAll(DaysOf(ranges));
    UnmarkedMeans(store.files, out);
    ScheduledDays(ranges, DaysOf(ranges), Unmarked(store.files, out), store.files, out, yesterday, scheduled);
  }

  /** The start days of `ranges`, in order. */
  function DaysOf(ranges: seq<(Date, Date)>): (days: seq<Date>)
    ensures |days| == |ranges| && forall k | 0 <= k < |ranges| :: days[k] == ranges[k].0
  {
    seq(|ranges|, k requires 0 <= k < |ranges| => ranges[k].0)
  }

  /** A day still to be done: a calendar date whose marker does not exist. */
  ghost function Unmarked(files: map<Path, File>, out: Path): Date -> bool
  {
    d => ValidDate(d) && !PathExists(files, Marker(out, d))
  }

  lemma UnmarkedMeans(files: map<Path, File>, out: Path)
    ensures forall d :: Unmarked(files, out)(d) == (ValidDate(d) && !PathExists(files, Marker(out, d)))
  {
  }

  /** One turn of the scheduling loop: day `i` is scheduled exactly when its
      marker is missing. */
  method ScheduleOne(store: FileStore, out: Path, ranges: seq<(Date, Date)>, i: nat, scheduled: seq<Date>)
    returns (scheduled': seq<Date>)
    requires i < |ranges| && ValidDate(ranges[i].0)
    requires scheduled == Filter(DaysOf(ranges)[..i], Unmarked(store.files, out))
    ensures scheduled' == Filter(DaysOf(ranges)[..i + 1], Unmarked(store.files, out))
  {
    var (startDate, endDate) := ranges[i];
    var outputSemaphore := Marker(out, startDate);
    var done := store.Exists(outputSemaphore);
    FilterOneMore(DaysOf(ranges), Unmarked(store.files, out), i);
    if !done {
      scheduled' := scheduled + [startDate];
    } else {
      scheduled' := scheduled;
      AppendEmpty(scheduled);
    }
  }

  /** What the scheduling loop leaves: the unmarked days of `ranges`. */
  lemma {:induction false} ScheduledDays(ranges: seq<(Date, Date)>, days: seq<Date>, pending: Date -> bool, files: map<Path, File>,
                      out: Path, yesterday: Date, scheduled: seq<Date>)
    requires ValidDate(yesterday) && DailyRanges(FirstDay, yesterday, ranges)
    requires |days| == |ranges| && forall k | 0 <= k < |ranges| :: days[k] == ranges[k].0
    requires forall d :: pending(d) == (ValidDate(d) && !PathExists(files, Marker(out, d)))
    requires scheduled == Filter(days, pending)
    ensures forall k | 0 <= k < |scheduled| :: ValidDate(scheduled[k])
    ensures forall d :: d in scheduled <==>
      ValidDate(d) && DateLe(FirstDay, d) && DateLe(d, yesterday) && !PathExists(files, Marker(out, d))
    ensures forall a, b | 0 <= a < b < |scheduled| :: DayNumber(scheduled[a]) < DayNumber(scheduled[b])
  {
    FilterIncreasing(days, pending, d => if ValidDate(d) then DayNumber(d) else 0);
    forall k | 0 <= k < |scheduled|
      ensures ValidDate(scheduled[k])
    {
      FilterMember(days, pending, scheduled[k]);
    }
    forall d
      ensures d in scheduled <==>
        ValidDate(d) && DateLe(FirstDay, d) && DateLe(d, yesterday) && !PathExists(files, Marker(out, d))
    {
      DailyRangesExact(FirstDay, yesterday, ranges, d);
      FilterMember(days, pending, d);
      if d in days {
        var k :| 0 <= k < |days| && days[k] == d;
      }
      if exists k | 0 <= k < |ranges| :: ranges[k].0 == d {
        var k :| 0 <= k < |ranges| && ranges[k].0 == d;
        assert days[k] == d;
      }
    }
    forall a, b | 0 <= a < b < |scheduled|
      ensures DayNumber(scheduled[a]) < DayNumber(scheduled[b])
    {
      FilterMember(days, pending, scheduled[a]);
      FilterMember(days, pending, scheduled[b]);
    }
  }

  /** The markers of the first `i` days exist. */
  ghost predicate Marked(files: map<Path, File>, out: Path, days: seq<Date>, i: nat)
    requires i <= |days| && forall k | 0 <= k < |days| :: ValidDate(days[k])
  {
    forall k | 0 <= k < i :: PathExists(files, Marker(out, days[k]))
  }

  /** The number of tasks that returned: all but a failed last one. */
  function Returned(results: seq<DayResult>): (n: nat)
    ensures n <= |results|
    ensures forall k | 0 <= k < |results| - 1 :: results[k] != DayFailed ==> k < n
    ensures |results| > 0 && results[|results| - 1] != DayFailed ==> n == |results|
  {
    if |results| > 0 && results[|results| - 1] == DayFailed then |results| - 1 else |results|
  }

  /** Every day is a calendar date and its fetch reaches a stopping page. */
  predicate Fetchable(days: seq<Date>, pagesFor: Date -> seq<Page>)
  {
    forall k | 0 <= k < |days| :: ValidDate(days[k]) && FirstStop(pagesFor(days[k])) < |pagesFor(days[k])|
  }

  /** What running the tasks of `days` one after the other returns and
      leaves: each day's outcome on the store the earlier days left; a failed
      task ends the run, its result the last one. */
  function RunOutcome(files: map<Path, File>, refused: set<Path>, out: Path, days: seq<Date>,
                      pagesFor: Date -> seq<Page>, tmpFile: Path): (run: (seq<DayResult>, map<Path, File>))
    requires Fetchable(days, pagesFor)
    ensures |run.0| <= |days|
    decreases |days|
  {
    if |days| == 0 then ([], files)
    else
      var o := DayOutcome(files, refused, out, days[0], tmpFile, Got(pagesFor(days[0])));
      if o.0 == DayFailed then ([DayFailed], o.1)
      else
        var rest := RunOutcome(o.1, refused, out, days[1..], pagesFor, tmpFile);
        ([o.0] + rest.0, rest.1)
  }

  /** After `i` tasks that returned `results` and left `files`, running the
      remaining days completes the whole run. */
  ghost predicate RunsOn(files0: map<Path, File>, refused: set<Path>, out: Path, days: seq<Date>,
                         pagesFor: Date -> seq<Page>, tmpFile: Path, i: nat, results: seq<DayResult>, files: map<Path, File>)
    requires Fetchable(days, pagesFor) && i <= |days|
  {
    var rest := RunOutcome(files, refused, out, days[i..], pagesFor, tmpFile);
    RunOutcome(files0, refused, out, days, pagesFor, tmpFile) == (results + rest.0, rest.1)
  }

  /** The scheduled tasks, one after the other; an exception in one cancels
      the rest. */
  method RunDays(store: FileStore, out: Path, days: seq<Date>, pagesFor: Date -> seq<Page>, tmpFile: Path)
    returns (results: seq<DayResult>)
    requires Fetchable(days, pagesFor)
    requires tmpFile !in store.files && !AtOrUnder(tmpFile, out)
    modifies store
    ensures (results, store.files) == RunOutcome(old(store.files), store.refused, out, days, pagesFor, tmpFile)
    ensures |results| <= |days|
    ensures forall k | 0 <= k < |results| - 1 :: results[k] != DayFailed
    ensures |results| < |days| ==> |results| > 0 && results[|results| - 1] == DayFailed
    ensures Marked(store.files, out, days, Returned(results))
    ensures forall p | p in old(store.files) :: p in store.files
    ensures tmpFile !in store.files
  {
    ghost var files0 := store.files;
    RunStarts(files0, store.refused, out, days, pagesFor, tmpFile);
    results := [];
    var i, failed := 0, false;
    while i < |days| && !failed
      invariant Progress(files0, store.refused, out, days, pagesFor, tmpFile, i, results, store.files, failed)
      decreases |days| - i
    {
      results, failed := RunOne(store, out, days, pagesFor, tmpFile, i, results, files0);
      i := i + 1;
    }
    RunDone(files0, store.refused, out, days, pagesFor, tmpFile, i, results, store.files, failed);
    RunSummary(files0, store.refused, out, days, pagesFor, tmpFile, results, store.files);
  }

  /** The state of the run after `i` turns: the whole run when a task
      failed, and otherwise one that completes the run by going on from day
      `i`. The temporary file is never left behind. */
  ghost predicate Progress(files0: map<Path, File>, refused: set<Path>, out: Path, days: seq<Date>,
                           pagesFor: Date -> seq<Page>, tmpFile: Path, i: nat, results: seq<DayResult>,
                           files: map<Path, File>, failed: bool)
    requires Fetchable(days, pagesFor)
  {
    && tmpFile !in files
    && if failed then (results, files) == RunOutcome(files0, refused, out, days, pagesFor, tmpFile)
       else i <= |days| && i == |results| && RunsOn(files0, refused, out, days, pagesFor, tmpFile, i, results, files)
  }

  lemma RunDone(files0: map<Path, File>, refused: set<Path>, out: Path, days: seq<Date>,
                pagesFor: Date -> seq<Page>, tmpFile: Path, i: nat, results: seq<DayResult>,
                files: map<Path, File>, failed: bool)
    requires Fetchable(days, pagesFor)
    requires Progress(files0, refused, out, days, pagesFor, tmpFile, i, results, files, failed)
    requires failed || i >= |days|
    ensures (results, files) == RunOutcome(files0, refused, out, days, pagesFor, tmpFile)
  {
    if !failed {
      RunEnds(files0, refused, out, days, pagesFor, tmpFile, results, files);
    }
  }

  /** One task of the run: a failure completes the run; otherwise the run
      goes on from the next day. */
  method RunOne(store: FileStore, out: Path, days: seq<Date>, pagesFor: Date -> seq<Page>, tmpFile: Path,
                i: nat, results: seq<DayResult>, ghost files0: map<Path, File>)
    returns (results': seq<DayResult>, failed: bool)
    requires Fetchable(days, pagesFor) && i < |days| && i == |results|
    requires RunsOn(files0, store.refused, out, days, pagesFor, tmpFile, i, results, store.files)
    requires tmpFile !in store.files && !AtOrUnder(tmpFile, out)
    modifies store
    ensures Progress(files0, store.refused, out, days, pagesFor, tmpFile, i + 1, results', store.files, failed)
  {
    ghost var before := store.files;
    var r := ProcessByDates(store, days[i], days[i], out, pagesFor(days[i]), tmpFile);
    DayStep(before, store.refused, out, days[i], tmpFile, Got(pagesFor(days[i])));
    results' := results + [r];
    failed := r == DayFailed;
    if failed {
      RunFails(files0, store.refused, out, days, pagesFor, tmpFile, i, results, before);
    } else {
      RunGoesOn(files0, store.refused, out, days, pagesFor, tmpFile, i, results, before);
    }
  }

  /** What any complete run promises, as `RunDays` states it. */
  lemma RunSummary(files0: map<Path, File>, refused: set<Path>, out: Path, days: seq<Date>,
                   pagesFor: Date -> seq<Page>, tmpFile: Path, results: seq<DayResult>, files: map<Path, File>)
    requires Fetchable(days, pagesFor)
    requires tmpFile !in files0 && !AtOrUnder(tmpFile, out)
    requires (results, files) == RunOutcome(files0, refused, out, days, pagesFor, tmpFile)
    ensures |results| <= |days|
    ensures forall k | 0 <= k < |results| - 1 :: results[k] != DayFailed
    ensures |results| < |days| ==> |results| > 0 && results[|results| - 1] == DayFailed
    ensures Marked(files, out, days, Returned(results))
    ensures forall p | p in files0 :: p in files
    ensures tmpFile !in files
  {
    RunShape(files0, refused, out, days, pagesFor, tmpFile);
    RunKeeps(files0, refused, out, days, pagesFor, tmpFile);
  }

  lemma RunStarts(files0: map<Path, File>, refused: set<Path>, out: Path, days: seq<Date>,
                  pagesFor: Date -> seq<Page>, tmpFile: Path)
    requires Fetchable(days, pagesFor)
    ensures RunsOn(files0, refused, out, days, pagesFor, tmpFile, 0, [], files0)
  {
    assert days[0..] == days;
    AppendEmpty(RunOutcome(files0, refused, out, days, pagesFor, tmpFile).0);
  }

  /** A failing task ends the run with its result. */
  lemma RunFails(files0: map<Path, File>, refused: set<Path>, out: Path, days: seq<Date>, pagesFor: Date -> seq<Page>,
                 tmpFile: Path, i: nat, results: seq<DayResult>, files: map<Path, File>)
    requires Fetchable(days, pagesFor) && i < |days|
    requires RunsOn(files0, refused, out, days, pagesFor, tmpFile, i, results, files)
    requires DayOutcome(files, refused, out, days[i], tmpFile, Got(pagesFor(days[i]))).0 == DayFailed
    ensures RunOutcome(files0, refused, out, days, pagesFor, tmpFile) ==
      (results + [DayFailed], DayOutcome(files, refused, out, days[i], tmpFile, Got(pagesFor(days[i]))).1)
  {
    assert days[i..][0] == days[i];
  }

  /** A task that returns hands the next day the store it left. */
  lemma RunGoesOn(files0: map<Path, File>, refused: set<Path>, out: Path, days: seq<Date>, pagesFor: Date -> seq<Page>,
                  tmpFile: Path, i: nat, results: seq<DayResult>, files: map<Path, File>)
    requires Fetchable(days, pagesFor) && i < |days|
    requires RunsOn(files0, refused, out, days, pagesFor, tmpFile, i, results, files)
    requires DayOutcome(files, refused, out, days[i], tmpFile, Got(pagesFor(days[i]))).0 != DayFailed
    ensures var o := DayOutcome(files, refused, out, days[i], tmpFile, Got(pagesFor(days[i])));
      RunsOn(files0, refused, out, days, pagesFor, tmpFile, i + 1, results + [o.0], o.1)
  {
    var o := DayOutcome(files, refused, out, days[i], tmpFile, Got(pagesFor(days[i])));
    assert days[i..][0] == days[i];
    assert days[i..][1..] == days[i + 1..];
    var rest := RunOutcome(o.1, refused, out, days[i + 1..], pagesFor, tmpFile);
    AppendAssoc(results, [o.0], rest.0);
  }

  lemma RunEnds(files0: map<Path, File>, refused: set<Path>, out: Path, days: seq<Date>, pagesFor: Date -> seq<Page>,
                tmpFile: Path, results: seq<DayResult>, files: map<Path, File>)
    requires Fetchable(days, pagesFor)
    requires RunsOn(files0, refused, out, days, pagesFor, tmpFile, |days|, results, files)
    ensures RunOutcome(files0, refused, out, days, pagesFor, tmpFile) == (results, files)
  {
    assert days[|days|..] == [];
    AppendEmpty(results);
  }

  /** Unfolding the run at a first day whose task returns. */
  lemma RunCons(files: map<Path, File>, refused: set<Path>, out: Path, days: seq<Date>,
                pagesFor: Date -> seq<Page>, tmpFile: Path)
    requires Fetchable(days, pagesFor) && |days| > 0
    requires DayOutcome(files, refused, out, days[0], tmpFile, Got(pagesFor(days[0]))).0 != DayFailed
    ensures var o := DayOutcome(files, refused, out, days[0], tmpFile, Got(pagesFor(days[0])));
      var rest := RunOutcome(o.1, refused, out, days[1..], pagesFor, tmpFile);
      RunOutcome(files, refused, out, days, pagesFor, tmpFile) == ([o.0] + rest.0, rest.1)
  {
  }

  /** Unfolding the run at a first day whose task fails. */
  lemma RunStopsAt(files: map<Path, File>, refused: set<Path>, out: Path, days: seq<Date>,
                   pagesFor: Date -> seq<Page>, tmpFile: Path)
    requires Fetchable(days, pagesFor) && |days| > 0
    requires DayOutcome(files, refused, out, days[0], tmpFile, Got(pagesFor(days[0]))).0 == DayFailed
    ensures RunOutcome(files, refused, out, days, pagesFor, tmpFile) ==
      ([DayFailed], DayOutcome(files, refused, out, days[0], tmpFile, Got(pagesFor(days[0]))).1)
  {
  }

  /** At most `n` results, none failed but possibly the last, and fewer
      than `n` only when the last one failed. */
  predicate RunShaped(r: seq<DayResult>, n: nat)
  {
    && |r| <= n
    && (forall k | 0 <= k < |r| - 1 :: r[k] != DayFailed)
    && (|r| == n || (|r| > 0 && r[|r| - 1] == DayFailed))
  }

  lemma ShapedCons(x: DayResult, rs: seq<DayResult>, n: nat)
    requires x != DayFailed && RunShaped(rs, n)
    ensures RunShaped([x] + rs, n + 1)
  {
    forall k | 0 <= k < |rs|
      ensures ([x] + rs)[k + 1] == rs[k]
    {
    }
  }

  /** The run's results: at most one per day, none failed but possibly the
      last, and a run that stops early ends with a failure. */
  lemma {:induction false} RunShape(files: map<Path, File>, refused: set<Path>, out: Path, days: seq<Date>,
                                    pagesFor: Date -> seq<Page>, tmpFile: Path)
    requires Fetchable(days, pagesFor)
    ensures RunShaped(RunOutcome(files, refused, out, days, pagesFor, tmpFile).0, |days|)
    decreases |days|
  {
    if |days| > 0 {
      var o := DayOutcome(files, refused, out, days[0], tmpFile, Got(pagesFor(days[0])));
      if o.0 != DayFailed {
        RunShape(o.1, refused, out, days[1..], pagesFor, tmpFile);
        RunCons(files, refused, out, days, pagesFor, tmpFile);
        ShapedCons(o.0, RunOutcome(o.1, refused, out, days[1..], pagesFor, tmpFile).0, |days| - 1);
      } else {
        RunStopsAt(files, refused, out, days, pagesFor, tmpFile);
      }
    }
  }

  /** The run only adds and overwrites files: whatever existed still exists,
      the temporary file is gone, and every task that returned left its
      day's marker. */
  lemma {:induction false} RunKeeps(files: map<Path, File>, refused: set<Path>, out: Path, days: seq<Date>,
                                    pagesFor: Date -> seq<Page>, tmpFile: Path)
    requires Fetchable(days, pagesFor)
    requires tmpFile !in files && !AtOrUnder(tmpFile, out)
    ensures var o := RunOutcome(files, refused, out, days, pagesFor, tmpFile);
      && Marked(o.1, out, days, Returned(o.0))
      && (forall p | p in files :: p in o.1)
      && tmpFile !in o.1
    decreases |days|
  {
    if |days| > 0 {
      var d, got := days[0], Got(pagesFor(days[0]));
      var o := DayOutcome(files, refused, out, d, tmpFile, got);
      DayStep(files, refused, out, d, tmpFile, got);
      if o.0 != DayFailed {
        RunKeeps(o.1, refused, out, days[1..], pagesFor, tmpFile);
        RunShape(o.1, refused, out, days[1..], pagesFor, tmpFile);
        RunCons(files, refused, out, days, pagesFor, tmpFile);
        var rest := RunOutcome(o.1, refused, out, days[1..], pagesFor, tmpFile);
        ReturnedCons(o.0, rest.0);
        MarkedCons(o.1, rest.1, out, days, Returned(rest.0));
      } else {
        RunStopsAt(files, refused, out, days, pagesFor, tmpFile);
      }
    }
  }

  /** The first day's marker, kept, extends the markers of the later days. */
  lemma MarkedCons(mid: map<Path, File>, final: map<Path, File>, out: Path, days: seq<Date>, n: nat)
    requires (forall k | 0 <= k < |days| :: ValidDate(days[k])) && n < |days|
    requires PathExists(mid, Marker(out, days[0])) && (forall p | p in mid :: p in final)
    requires Marked(final, out, days[1..], n)
    ensures Marked(final, out, days, n + 1)
  {
    KeepsExisting(mid, final);
    forall k | 0 <= k < n + 1
      ensures PathExists(final, Marker(out, days[k]))
    {
      if k > 0 {
        assert days[k] == days[1..][k - 1];
      }
    }
  }

  lemma ReturnedCons(r: DayResult, rs: seq<DayResult>)
    requires r != DayFailed
    ensures Returned([r] + rs) == 1 + Returned(rs)
  {
    if |rs| > 0 {
      assert ([r] + rs)[|rs|] == rs[|rs| - 1];
    }
  }

  /** A task only adds and overwrites files under the output directory: what
      existed before still exists, the temporary file is gone, and a task
      that returns leaves its own day's marker. */
  lemma DayStep(files: map<Path, File>, refused: set<Path>, out: Path, d: Date, tmpFile: Path, got: seq<Page>)
    requires ValidDate(d) && tmpFile !in files && !AtOrUnder(tmpFile, out)
    ensures var o := DayOutcome(files, refused, out, d, tmpFile, got);
      && (forall p | p in files :: p in o.1)
      && tmpFile !in o.1
      && (o.0 != DayFailed ==> PathExists(o.1, Marker(out, d)))
  {
    var o := DayOutcome(files, refused, out, d, tmpFile, got);
    MarkerAfterReturn(files, refused, out, d, tmpFile, got);
  }

  /** Files are only added or overwritten, so whatever existed still
      exists. */
  lemma KeepsExisting(before: map<Path, File>, after: map<Path, File>)
    requires forall p | p in before :: p in after
    ensures forall p | PathExists(before, p) :: PathExists(after, p)
  {
  }

  /** `main`: schedules the unmarked days, then runs their tasks. */
  method Extract(store: FileStore, out: Path, yesterday: Date, pagesFor: Date -> seq<Page>, tmpFile: Path)
    returns (scheduled: seq<Date>, results: seq<DayResult>)
    requires ValidDate(yesterday) && yesterday != LastDate
    requires forall d :: FirstStop(pagesFor(d)) < |pagesFor(d)|
    requires tmpFile !in store.files && !AtOrUnder(tmpFile, out)
    modifies store
    ensures forall d :: d in scheduled <==>
      ValidDate(d) && DateLe(FirstDay, d) && DateLe(d, yesterday) && !PathExists(old(store.files), Marker(out, d))
    ensures |results| <= |scheduled|
    ensures |results| < |scheduled| ==> |results| > 0 && results[|results| - 1] == DayFailed
    ensures forall k | 0 <= k < |scheduled| :: ValidDate(scheduled[k])
    ensures Marked(store.files, out, scheduled, Returned(results))
    ensures (results, store.files) == RunOutcome(old(store.files), store.refused, out, scheduled, pagesFor, tmpFile)
  {
    scheduled := ScheduleDays(store, out, yesterday);
    results := RunDays(store, out, scheduled, pagesFor, tmpFile);
  }
}
