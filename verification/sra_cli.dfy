/** The `sra` command line: which mirror entries `extract` hands to the
    catalog (entity, date window, entry limit, current batch), which ones
    `cleanup` removes, and the fixed-width text listing of entries. The
    listing itself is an input (the NCBI directory glob is not modelled). */
module SraCli {
  import opened Common
  import opened Dates
  import opened Store
  import opened Mirror
  import opened ExtractConfig
  import opened SraCatalog
  import MirrorParquet
  import opened Chunking

  // ---------------------------------------------------------------------------
  // The filters of `extract`
  // ---------------------------------------------------------------------------

  /** `--entity`: one of the four entity names, or `all`. */
  datatype EntityChoice = AllEntities | OnlyEntity(entity: Entity)

  predicate Admits(choice: EntityChoice, e: MirrorEntry)
  {
    choice.AllEntities? || e.entity == choice.entity
  }

  /** The entity filter: `all` keeps the list as it is; a named entity keeps
      exactly the entries of that entity. */
  function ByEntity(es: seq<MirrorEntry>, choice: EntityChoice): (r: seq<MirrorEntry>)
    ensures |r| <= |es|
    ensures forall e :: e in r <==> e in es && Admits(choice, e)
  {
    if choice.AllEntities? || |es| == 0 then es
    else
      var last := es[|es| - 1];
      ByEntity(es[..|es| - 1], choice) + (if last.entity == choice.entity then [last] else [])
  }

  /** The date window, inclusive at both ends; an absent bound leaves that
      side open. */
  predicate InWindow(d: Date, since: Option<Date>, until: Option<Date>)
  {
    (since.None? || DateLe(since.value, d)) && (until.None? || DateLe(d, until.value))
  }

  function ByDate(es: seq<MirrorEntry>, since: Option<Date>, until: Option<Date>): (r: seq<MirrorEntry>)
    ensures |r| <= |es|
    ensures forall e :: e in r <==> e in es && InWindow(e.date, since, until)
  {
    if |es| == 0 then []
    else
      var last := es[|es| - 1];
      ByDate(es[..|es| - 1], since, until) + (if InWindow(last.date, since, until) then [last] else [])
  }

  /** `entries[:max_entries]` when `max_entries` is set and not zero: a
      prefix, as long as the limit allows; a negative limit drops that many
      entries from the end, as a Python slice does. */
  function Limit(es: seq<MirrorEntry>, max: Option<int>): (r: seq<MirrorEntry>)
    ensures r <= es
    ensures max.None? || max.value == 0 ==> r == es
    ensures max.Some? && max.value > 0 ==> |r| == Min(max.value, |es|)
    ensures max.Some? && max.value < 0 ==> |r| == if |es| + max.value < 0 then 0 else |es| + max.value
  {
    if max.None? || max.value == 0 then es
    else if max.value > 0 then es[..Min(max.value, |es|)]
    else if |es| + max.value < 0 then []
    else es[..|es| + max.value]
  }

  /** The options of `extract` that shape the selection. */
  datatype ExtractOptions = ExtractOptions(
    since: Option<Date>, until: Option<Date>, entity: EntityChoice, dryRun: bool, maxEntries: Option<int>)

  /** The entity filter, the date filter and then the limit. */
  function Filtered(es: seq<MirrorEntry>, opts: ExtractOptions): (r: seq<MirrorEntry>)
    ensures forall e | e in r :: e in es && Admits(opts.entity, e) && InWindow(e.date, opts.since, opts.until)
  {
    Limit(ByDate(ByEntity(es, opts.entity), opts.since, opts.until), opts.maxEntries)
  }

  /** The entries `extract` hands to the catalog: the tagged listing,
      filtered. */
  function Selected(listing: seq<string>, opts: ExtractOptions): (r: seq<MirrorEntry>)
    ensures ValidEntries(r)
    ensures forall e | e in r :: e in Tagged(Parsed(Reverse(listing))) && Admits(opts.entity, e)
                                 && InWindow(e.date, opts.since, opts.until)
  {
    ListedDatesValid(listing);
    Filtered(Tagged(Parsed(Reverse(listing))), opts)
  }

  /** The filtering steps of `extract`, each applied only when its option
      is set. */
  method FilterEntries(allEntries: seq<MirrorEntry>, opts: ExtractOptions) returns (filtered: seq<MirrorEntry>)
    ensures filtered == Filtered(allEntries, opts)
  {
    filtered := allEntries;
    if !opts.entity.AllEntities? {
      filtered := ByEntity(filtered, opts.entity);
    }
    if opts.since.Some? || opts.until.Some? {
      filtered := ByDate(filtered, opts.since, opts.until);
    } else {
      OpenWindowKeepsAll(filtered);
    }
    if opts.maxEntries.Some? && opts.maxEntries.value != 0 {
      filtered := Limit(filtered, opts.maxEntries);
    }
  }

  /** The entity filter keeps the order of the entries it keeps. */
  lemma {:induction false} ByEntityAppend(a: seq<MirrorEntry>, b: seq<MirrorEntry>, choice: EntityChoice)
    ensures ByEntity(a + b, choice) == ByEntity(a, choice) + ByEntity(b, choice)
    decreases |b|
  {
    if choice.AllEntities? {
    } else if |b| == 0 {
      AppendEmpty(a);
      AppendEmpty(ByEntity(a, choice));
    } else {
      var b' := b[..|b| - 1];
      assert (a + b)[..|a + b| - 1] == a + b';
      ByEntityAppend(a, b', choice);
    }
  }

  /** So does the date filter. */
  lemma {:induction false} ByDateAppend(a: seq<MirrorEntry>, b: seq<MirrorEntry>, since: Option<Date>, until: Option<Date>)
    ensures ByDate(a + b, since, until) == ByDate(a, since, until) + ByDate(b, since, until)
    decreases |b|
  {
    if |b| == 0 {
      AppendEmpty(a);
      AppendEmpty(ByDate(a, since, until));
    } else {
      var b', last := b[..|b| - 1], b[|b| - 1];
      assert (a + b)[..|a + b| - 1] == a + b';
      assert (a + b)[|a + b| - 1] == last;
      var keep := if InWindow(last.date, since, until) then [last] else [];
      assert ByDate(a + b, since, until) == ByDate(a + b', since, until) + keep;
      assert ByDate(b, since, until) == ByDate(b', since, until) + keep;
      ByDateAppend(a, b', since, until);
      AppendAssoc(ByDate(a, since, until), ByDate(b', since, until), keep);
    }
  }

  /** Without bounds the date filter keeps every entry. */
  lemma {:induction false} OpenWindowKeepsAll(es: seq<MirrorEntry>)
    ensures ByDate(es, None, None) == es
  {
    if |es| > 0 {
      OpenWindowKeepsAll(es[..|es| - 1]);
      TakeOneMore(es, |es| - 1);
      TakeAll(es);
    }
  }

  /** A subsequence of a list whose current entries come first has its
      current entries first as well. */
  predicate CurrentFirst(es: seq<MirrorEntry>)
  {
    forall i, j | 0 <= i < j < |es| && es[j].inCurrentBatch :: es[i].inCurrentBatch
  }

  lemma {:induction false} ByEntityKeepsCurrentFirst(es: seq<MirrorEntry>, choice: EntityChoice)
    requires CurrentFirst(es)
    ensures CurrentFirst(ByEntity(es, choice))
  {
    if !choice.AllEntities? && |es| > 0 {
      var init := es[..|es| - 1];
      ByEntityKeepsCurrentFirst(init, choice);
      var last := es[|es| - 1];
      if last.inCurrentBatch {
        forall e | e in ByEntity(init, choice)
          ensures e.inCurrentBatch
        {
          var k :| 0 <= k < |init| && init[k] == e;
        }
      }
    }
  }

  lemma {:induction false} ByDateKeepsCurrentFirst(es: seq<MirrorEntry>, since: Option<Date>, until: Option<Date>)
    requires CurrentFirst(es)
    ensures CurrentFirst(ByDate(es, since, until))
  {
    if |es| > 0 {
      var init := es[..|es| - 1];
      ByDateKeepsCurrentFirst(init, since, until);
      var last := es[|es| - 1];
      if last.inCurrentBatch {
        forall e | e in ByDate(init, since, until)
          ensures e.inCurrentBatch
        {
          var k :| 0 <= k < |init| && init[k] == e;
        }
      }
    }
  }

  /** The leading run of current entries of a prefix is cut at the prefix. */
  lemma {:induction false} PrefixLengthTake(es: seq<MirrorEntry>, m: nat)
    requires m <= |es|
    ensures PrefixLength(es[..m]) == Min(m, PrefixLength(es))
  {
    if m > 0 && es[0].inCurrentBatch {
      DropOfTake(es, m);
      PrefixLengthTake(es[1..], m - 1);
    }
  }

  /** Because the current entries of the listing come first, applying the
      limit before the current-batch filter keeps the same current entries
      as applying it after, when the limit is positive: `--max-entries n`
      processes the first `n` current entries (or all of them). */
  lemma LimitThenCurrent(es: seq<MirrorEntry>, n: int)
    requires CurrentFirst(es) && n > 0
    ensures Select(Limit(es, Some(n)), true) == Select(es, true)[..Min(n, |Select(es, true)|)]
  {
    var m := Min(n, |es|);
    var t := Limit(es, Some(n));
    assert t == es[..m];
    SelectMonotone(es);
    SelectMonotone(t);
    var p := PrefixLength(es);
    PrefixLengthTake(es, m);
    TakeOfTake(es, m, Min(m, p));
    TakeOfTake(es, p, Min(m, p));
  }

  /** What the selection `extract` makes from a listing: the entries the
      catalog writes are the current entries that pass the filters, in
      listing order. */
  lemma SelectionOrder(listing: seq<string>, opts: ExtractOptions)
    ensures CurrentFirst(Selected(listing, opts))
    ensures forall e | e in Select(Selected(listing, opts), true) ::
      e.inCurrentBatch && Admits(opts.entity, e) && InWindow(e.date, opts.since, opts.until)
  {
    var t := Tagged(Parsed(Reverse(listing)));
    forall i, j | 0 <= i < j < |t| && t[j].inCurrentBatch
      ensures t[i].inCurrentBatch
    {
      CurrentBatchIsPrefix(Parsed(Reverse(listing)), i, j);
    }
    var byEntity := ByEntity(t, opts.entity);
    ByEntityKeepsCurrentFirst(t, opts.entity);
    ByDateKeepsCurrentFirst(byEntity, opts.since, opts.until);
  }

  // ---------------------------------------------------------------------------
  // The commands
  // ---------------------------------------------------------------------------

  datatype ExtractResult =
    | UsageError
    | NothingToProcess
    | DryRun(listed: seq<MirrorEntry>)
    | Processed(catalog: Catalog, results: seq<MirrorParquet.PartsResult>)

  /** `sra extract`: without a destination, a usage error before anything
      else; with no current entry left after filtering, or on a dry run,
      nothing is written; otherwise the catalog rooted at the destination
      processes the selection (which writes its current entries). */
  method Extract(store: FileStore, listing: seq<string>, dest: Option<Path>, opts: ExtractOptions,
                 feed: string -> MirrorParquet.RecordStream, tmp: Path)
    returns (r: ExtractResult)
    requires tmp !in store.files
    requires dest.Some? ==> !AtOrUnder(tmp, dest.value)
    modifies store
    ensures r.UsageError? <==> dest.None?
    ensures r.NothingToProcess? <==> dest.Some? && Select(Selected(listing, opts), true) == []
    ensures r.DryRun? <==> dest.Some? && opts.dryRun && Select(Selected(listing, opts), true) != []
    ensures r.DryRun? ==> r.listed == Select(Selected(listing, opts), true)
    ensures !r.Processed? ==> store.files == old(store.files)
    ensures r.Processed? ==>
      && fresh(r.catalog) && r.catalog.provider.baseDir == dest.value
      && r.results == r.catalog.Outcomes(store.refused, Select(Selected(listing, opts), true), feed, tmp)
      && store.files == r.catalog.ProcessedFiles(old(store.files), store.refused, Select(Selected(listing, opts), true), feed, tmp)
      && Framed(old(store.files), store.files, r.catalog.Dirs(Select(Selected(listing, opts), true)))
  {
    if dest.None? {
      return UsageError;
    }
    var allEntries := GetMirrorEntries(listing);
    ListedDatesValid(listing);
    var filtered := FilterEntries(allEntries, opts);
    var currentBatch := Select(filtered, true);
    if |currentBatch| == 0 {
      return NothingToProcess;
    }
    if opts.dryRun {
      return DryRun(currentBatch);
    }
    var provider := new PathProvider(dest, None);
    var catalog := new Catalog(provider);
    var results := catalog.Process(store, filtered, feed, tmp);
    r := Processed(catalog, results);
  }

  datatype CleanupResult =
    | CleanupUsageError
    | NothingToClean
    | CleanupDryRun(listed: seq<MirrorEntry>)
    | Cleaned(catalog: Catalog, failed: seq<MirrorEntry>)

  /** `sra cleanup`: the entries outside the current batch are the ones
      removed; without a destination, a usage error; with none to remove or
      on a dry run, nothing is deleted. */
  method CleanupCommand(store: FileStore, listing: seq<string>, dest: Option<Path>, dryRun: bool)
    returns (r: CleanupResult)
    modifies store
    ensures r.CleanupUsageError? <==> dest.None?
    ensures r.NothingToClean? <==> dest.Some? && Select(Tagged(Parsed(Reverse(listing))), false) == []
    ensures r.CleanupDryRun? <==> dest.Some? && dryRun && Select(Tagged(Parsed(Reverse(listing))), false) != []
    ensures r.CleanupDryRun? ==> r.listed == Select(Tagged(Parsed(Reverse(listing))), false)
    ensures !r.Cleaned? ==> store.files == old(store.files)
    ensures r.Cleaned? ==>
      && fresh(r.catalog) && r.catalog.provider.baseDir == dest.value
      && ValidEntries(Tagged(Parsed(Reverse(listing))))
      && store.files == Swept(old(store.files), store.refused, r.catalog.Dirs(Select(Tagged(Parsed(Reverse(listing))), false)))
      && r.failed == r.catalog.Failures(old(store.files), store.refused, Select(Tagged(Parsed(Reverse(listing))), false))
  {
    if dest.None? {
      return CleanupUsageError;
    }
    var allEntries := GetMirrorEntries(listing);
    ListedDatesValid(listing);
    var toCleanup := Select(allEntries, false);
    if |toCleanup| == 0 {
      return NothingToClean;
    }
    if dryRun {
      return CleanupDryRun(toCleanup);
    }
    var provider := new PathProvider(dest, None);
    var catalog := new Catalog(provider);
    var failed := catalog.Cleanup(store, allEntries);
    r := Cleaned(catalog, failed);
  }

  // ---------------------------------------------------------------------------
  // The text listing
  // ---------------------------------------------------------------------------

  function BatchName(current: bool): (s: string)
    ensures s == "CURRENT" <==> current
  {
    if current then "CURRENT" else "old"
  }

  /** One line of `list_entries_text`: entity, date, stage and batch, each
      left-aligned in its column, separated by single spaces. */
  function Line(e: MirrorEntry): string
    requires ValidDate(e.date)
  {
    LeftAlign(EntityName(e.entity), 10) + " " + LeftAlign(FormatIso(e.date), 12) + " "
      + LeftAlign(StageName(e.isFull), 12) + " " + LeftAlign(BatchName(e.inCurrentBatch), 8)
  }

  function Lines(es: seq<MirrorEntry>): (lines: seq<string>)
    requires ValidEntries(es)
    ensures |lines| == |es|
  {
    if |es| == 0 then [] else Lines(es[..|es| - 1]) + [Line(es[|es| - 1])]
  }

  /** The whole listing: the lines joined with newlines. */
  function Listing(es: seq<MirrorEntry>): string
    requires ValidEntries(es)
  {
    Join(Lines(es), "\n")
  }

  /** `list_entries_text`. */
  method ListEntriesText(entries: seq<MirrorEntry>) returns (text: string)
    requires ValidEntries(entries)
    ensures text == Listing(entries)
  {
    var lines: seq<string> := [];
    for i := 0 to |entries|
      invariant lines == Lines(entries[..i])
    {
      var entry := entries[i];
      var batchRaw := BatchName(entry.inCurrentBatch);
      var stageRaw := StageName(entry.isFull);
      var entity := LeftAlign(EntityName(entry.entity), 10);
      var dateStr := LeftAlign(FormatIso(entry.date), 12);
      var stage := LeftAlign(stageRaw, 12);
      var batch := LeftAlign(batchRaw, 8);
      TakeOneMore(entries, i);
      lines := lines + [entity + " " + dateStr + " " + stage + " " + batch];
    }
    TakeAll(entries);
    text := Join(lines, "\n");
  }

  /** The `k`-th line of the listing describes the `k`-th entry. */
  lemma {:induction false} LineAt(es: seq<MirrorEntry>, k: nat)
    requires ValidEntries(es) && k < |es|
    ensures Lines(es)[k] == Line(es[k])
  {
    if k < |es| - 1 {
      LineAt(es[..|es| - 1], k);
    }
  }

  predicate NoNewlineIn(s: string)
  {
    forall i | 0 <= i < |s| :: s[i] != '\n'
  }

  lemma AppendNoNewline(a: string, b: string)
    requires NoNewlineIn(a) && NoNewlineIn(b)
    ensures NoNewlineIn(a + b)
  {
  }

  lemma AlignNoNewline(s: string, w: nat)
    requires NoNewlineIn(s)
    ensures NoNewlineIn(LeftAlign(s, w))
  {
  }

  /** Every line is 45 characters wide, with the entity at column 0, the
      date at column 11, the stage at column 24 and the batch at column 37. */
  lemma LineLayout(e: MirrorEntry)
    requires ValidDate(e.date)
    ensures |Line(e)| == 45
    ensures Line(e)[..|EntityName(e.entity)|] == EntityName(e.entity)
    ensures Line(e)[11..21] == FormatIso(e.date)
    ensures Line(e)[24..24 + |StageName(e.isFull)|] == StageName(e.isFull)
    ensures Line(e)[37..37 + |BatchName(e.inCurrentBatch)|] == BatchName(e.inCurrentBatch)
  {
    FieldWidths(e.entity, e.isFull, e.inCurrentBatch);
    AlignedFields(EntityName(e.entity), FormatIso(e.date), StageName(e.isFull), BatchName(e.inCurrentBatch));
  }

  /** Four fields that fit widths 10, 12, 12 and 8, left-aligned and joined
      by single spaces, start at columns 0, 11, 24 and 37 of a 45-character
      line. */
  lemma AlignedFields(name: string, date: string, stage: string, batch: string)
    requires |name| <= 10 && |date| == 10 && |stage| <= 12 && |batch| <= 8
    ensures var line := LeftAlign(name, 10) + " " + LeftAlign(date, 12) + " " + LeftAlign(stage, 12) + " " + LeftAlign(batch, 8);
      && |line| == 45
      && line[..|name|] == name
      && line[11..21] == date
      && line[24..24 + |stage|] == stage
      && line[37..37 + |batch|] == batch
  {
    var a, b, c, d := LeftAlign(name, 10), LeftAlign(date, 12), LeftAlign(stage, 12), LeftAlign(batch, 8);
    assert a + " " + b + " " + c + " " + d == a + [' '] + b + [' '] + c + [' '] + d;
    FourFields(a, b, c, d, ' ', name, date, stage, batch, 10, 12, 12, 8);
  }

  /** Every entity, stage and batch name fits its column. */
  lemma FieldWidths(e: Entity, full: bool, current: bool)
    ensures |EntityName(e)| <= 10 && |StageName(full)| <= 12 && |BatchName(current)| <= 8
  {
  }

  lemma NameNoNewline(e: Entity)
    ensures NoNewlineIn(EntityName(e))
  {
  }

  lemma StageNoNewline(full: bool)
    ensures NoNewlineIn(StageName(full))
  {
  }

  lemma BatchNoNewline(current: bool)
    ensures NoNewlineIn(BatchName(current))
  {
  }

  lemma DateNoNewline(d: Date)
    requires ValidDate(d)
    ensures NoNewlineIn(FormatIso(d))
  {
    IsoCharacters(d);
  }

  /** No line holds a newline. */
  lemma LineNoNewline(e: MirrorEntry)
    requires ValidDate(e.date)
    ensures NoNewlineIn(Line(e))
  {
    var name, date := EntityName(e.entity), FormatIso(e.date);
    var stage, batch := StageName(e.isFull), BatchName(e.inCurrentBatch);
    NameNoNewline(e.entity);
    DateNoNewline(e.date);
    StageNoNewline(e.isFull);
    BatchNoNewline(e.inCurrentBatch);
    AlignNoNewline(name, 10);
    AlignNoNewline(date, 12);
    AlignNoNewline(stage, 12);
    AlignNoNewline(batch, 8);
    var a, b, c, d := LeftAlign(name, 10), LeftAlign(date, 12), LeftAlign(stage, 12), LeftAlign(batch, 8);
    AppendNoNewline(a, " ");
    AppendNoNewline(a + " ", b);
    AppendNoNewline(a + " " + b, " ");
    AppendNoNewline(a + " " + b + " ", c);
    AppendNoNewline(a + " " + b + " " + c, " ");
    AppendNoNewline(a + " " + b + " " + c + " ", d);
  }

  lemma {:induction false} NoNewlineCount(s: string)
    requires NoNewlineIn(s)
    ensures CountChar(s, '\n') == 0
  {
    if |s| > 0 {
      NoNewlineCount(s[..|s| - 1]);
    }
  }

  /** The listing has one line per entry: as many newlines as entries, less
      one. */
  lemma ListingLines(es: seq<MirrorEntry>)
    requires ValidEntries(es) && |es| > 0
    ensures CountChar(Listing(es), '\n') == |es| - 1
  {
    var lines := Lines(es);
    forall i | 0 <= i < |lines|
      ensures CountChar(lines[i], '\n') == 0
    {
      LineAt(es, i);
      LineNoNewline(es[i]);
      NoNewlineCount(lines[i]);
    }
    JoinSeparatorCount(lines, '\n');
  }
}
