/** The SRA catalog: where each mirror entry's parquet parts live
    (`{base}/{entity}/date={YYYY-MM-DD}/stage={Full|Incremental}`), writing
    the entries of the current batch and deleting the partitions of the
    others, one entry at a time with failures logged and skipped. */
module SraCatalog {
  import opened Common
  import opened Dates
  import opened Store
  import opened Mirror
  import opened ExtractConfig
  import MirrorParquet
  import SraSchema

  function StageName(full: bool): (s: string)
    ensures s == "Full" <==> full
  {
    if full then "Full" else "Incremental"
  }

  /** The path components of an entry's partition below the base directory. */
  function PartitionParts(e: MirrorEntry): (parts: seq<string>)
    requires ValidDate(e.date)
    ensures |parts| == 3 && forall i | 0 <= i < 3 :: NoSlash(parts[i])
  {
    IsoCharacters(e.date);
    NoSlashEntityName(e.entity);
    NoSlashAppend("date=", FormatIso(e.date));
    NoSlashAppend("stage=", StageName(e.isFull));
    [EntityName(e.entity), "date=" + FormatIso(e.date), "stage=" + StageName(e.isFull)]
  }

  lemma NoSlashEntityName(e: Entity)
    ensures NoSlash(EntityName(e))
  {
  }

  lemma NoSlashAppend(a: string, b: string)
    requires NoSlash(a) && NoSlash(b)
    ensures NoSlash(a + b)
  {
  }

  /** The entity, the date and the stage of an entry determine its partition
      components, and are determined by them. */
  lemma PartitionPartsInjective(a: MirrorEntry, b: MirrorEntry)
    requires ValidDate(a.date) && ValidDate(b.date)
    ensures PartitionParts(a) == PartitionParts(b) <==>
      a.entity == b.entity && a.date == b.date && a.isFull == b.isFull
  {
    if PartitionParts(a) == PartitionParts(b) {
      var pa, pb := PartitionParts(a), PartitionParts(b);
      assert pa[0] == pb[0] && pa[1] == pb[1] && pa[2] == pb[2];
      EntityNameInjective(a.entity, b.entity);
      PrefixCancel("date=", FormatIso(a.date), FormatIso(b.date));
      FormatIsoInjective(a.date, b.date);
      PrefixCancel("stage=", StageName(a.isFull), StageName(b.isFull));
    }
  }

  lemma EntityNameInjective(a: Entity, b: Entity)
    ensures EntityName(a) == EntityName(b) ==> a == b
  {
  }

  /** Nothing at or under `p` is refused, so a recursive delete of `p`
      succeeds. */
  predicate Removable(files: map<Path, File>, refused: set<Path>, p: Path)
  {
    forall q | q in files && AtOrUnder(q, p) :: q !in refused
  }

  /** The entries of `es` whose current-batch flag is `current`, in order
      (the two list comprehensions of `process` and `cleanup`). */
  function Select(es: seq<MirrorEntry>, current: bool): (r: seq<MirrorEntry>)
    ensures |r| <= |es|
    ensures forall e :: e in r <==> e in es && e.inCurrentBatch == current
  {
    if |es| == 0 then []
    else
      var last := es[|es| - 1];
      Select(es[..|es| - 1], current) + (if last.inCurrentBatch == current then [last] else [])
  }

  /** Selecting keeps the relative order: selecting from a concatenation
      concatenates the selections. */
  lemma {:induction false} SelectAppend(a: seq<MirrorEntry>, b: seq<MirrorEntry>, current: bool)
    ensures Select(a + b, current) == Select(a, current) + Select(b, current)
    decreases |b|
  {
    if |b| == 0 {
      assert a + b == a;
    } else {
      var b', last := b[..|b| - 1], b[|b| - 1];
      var keep := if last.inCurrentBatch == current then [last] else [];
      assert (a + b)[..|a + b| - 1] == a + b';
      assert (a + b)[|a + b| - 1] == last;
      assert Select(a + b, current) == Select(a + b', current) + keep;
      assert Select(b, current) == Select(b', current) + keep;
      SelectAppend(a, b', current);
      AppendAssoc(Select(a, current), Select(b', current), keep);
    }
  }

  /** Every entry goes to exactly one of the two loops. */
  lemma {:induction false} SelectSplits(es: seq<MirrorEntry>)
    ensures |Select(es, true)| + |Select(es, false)| == |es|
  {
    if |es| > 0 {
      SelectSplits(es[..|es| - 1]);
    }
  }

  /** On a tagged listing the entries `process` acts on are a prefix of it,
      and `cleanup` acts on the rest. */
  lemma CurrentSelectionIsPrefix(es: seq<MirrorEntry>)
    ensures var t := Tagged(es); var n := |Select(t, true)|;
      n <= |t| && Select(t, true) == t[..n] && Select(t, false) == t[n..]
  {
    var t := Tagged(es);
    forall i, j | 0 <= i < j < |t| && t[j].inCurrentBatch
      ensures t[i].inCurrentBatch
    {
      CurrentBatchIsPrefix(es, i, j);
    }
    SelectMonotone(t);
  }

  /** When current entries come first, the two selections split the list at
      the end of the leading run. */
  lemma SelectMonotone(t: seq<MirrorEntry>)
    requires forall i, j | 0 <= i < j < |t| && t[j].inCurrentBatch :: t[i].inCurrentBatch
    ensures Select(t, true) == t[..PrefixLength(t)] && Select(t, false) == t[PrefixLength(t)..]
  {
    var n := PrefixLength(t);
    var a, b := t[..n], t[n..];
    forall i | 0 <= i < |b|
      ensures !b[i].inCurrentBatch
    {
      AfterRun(t, n, n + i);
    }
    SplitAt(t, n);
    SelectOfSplit(a, b);
  }

  /** Past the first past entry, no entry is current. */
  lemma AfterRun(t: seq<MirrorEntry>, n: nat, j: nat)
    requires forall i, j | 0 <= i < j < |t| && t[j].inCurrentBatch :: t[i].inCurrentBatch
    requires n <= j < |t| && !t[n].inCurrentBatch
    ensures !t[j].inCurrentBatch
  {
  }

  /** Current entries followed by past ones select back into the two halves. */
  lemma SelectOfSplit(a: seq<MirrorEntry>, b: seq<MirrorEntry>)
    requires forall i | 0 <= i < |a| :: a[i].inCurrentBatch
    requires forall i | 0 <= i < |b| :: !b[i].inCurrentBatch
    ensures Select(a + b, true) == a && Select(a + b, false) == b
  {
    SelectAppend(a, b, true);
    SelectAppend(a, b, false);
    SelectAll(a, true);
    SelectAll(b, false);
    SelectNone(a, false);
    SelectNone(b, true);
    AppendEmpty(a);
    AppendEmpty(b);
  }

  /** The length of the leading run of current entries. */
  function PrefixLength(es: seq<MirrorEntry>): (n: nat)
    ensures n <= |es|
    ensures forall i | 0 <= i < n :: es[i].inCurrentBatch
    ensures n < |es| ==> !es[n].inCurrentBatch
  {
    if |es| == 0 || !es[0].inCurrentBatch then 0 else 1 + PrefixLength(es[1..])
  }

  lemma {:induction false} SelectAll(es: seq<MirrorEntry>, current: bool)
    requires forall i | 0 <= i < |es| :: es[i].inCurrentBatch == current
    ensures Select(es, current) == es
  {
    if |es| > 0 {
      SelectAll(es[..|es| - 1], current);
      SelectKeepsLast(es, current);
    }
  }

  lemma SelectKeepsLast(es: seq<MirrorEntry>, current: bool)
    requires |es| > 0 && es[|es| - 1].inCurrentBatch == current
    requires Select(es[..|es| - 1], current) == es[..|es| - 1]
    ensures Select(es, current) == es
  {
    var n := |es| - 1;
    TakeOneMore(es, n);
    TakeAll(es);
    assert Select(es, current) == Select(es[..n], current) + [es[n]];
  }

  lemma {:induction false} SelectNone(es: seq<MirrorEntry>, current: bool)
    requires forall i | 0 <= i < |es| :: es[i].inCurrentBatch != current
    ensures Select(es, current) == []
  {
    if |es| > 0 {
      var n := |es| - 1;
      SelectNone(es[..n], current);
      assert Select(es, current) == Select(es[..n], current);
    }
  }

  /** Every listed entry carries a real calendar date. */
  lemma ListedDatesValid(listing: seq<string>)
    ensures forall e | e in Tagged(Parsed(Reverse(listing))) :: ValidDate(e.date)
  {
    var ps := Parsed(Reverse(listing));
    ParsedMembers(Reverse(listing));
    forall e | e in Tagged(ps)
      ensures ValidDate(e.date)
    {
      var i :| 0 <= i < |ps| && Tagged(ps)[i] == e;
      assert ps[i] in ps;
    }
  }

  predicate ValidEntries(es: seq<MirrorEntry>)
  {
    forall e | e in es :: ValidDate(e.date)
  }

  // ---------------------------------------------------------------------------
  // What cleanup leaves
  // ---------------------------------------------------------------------------

  /** `q` goes when one of the directories covers it and that directory can be
      deleted as a whole. */
  predicate Cleared(files: map<Path, File>, refused: set<Path>, dirs: seq<Path>, q: Path)
  {
    exists d | d in dirs :: AtOrUnder(q, d) && Removable(files, refused, d)
  }

  /** The store after deleting each directory of `dirs` in turn, skipping the
      ones that fail: the order does not matter, and a directory fails exactly
      when it held a refused path to begin with. */
  function Swept(files: map<Path, File>, refused: set<Path>, dirs: seq<Path>): (r: map<Path, File>)
    ensures forall q :: q in r <==> q in files && !Cleared(files, refused, dirs, q)
    ensures forall q | q in r :: r[q] == files[q]
  {
    map q | q in files && !Cleared(files, refused, dirs, q) :: files[q]
  }

  /** Whether a directory can be deleted is decided by the original store:
      earlier deletions never remove a refused path. */
  lemma SweptRemovable(files: map<Path, File>, refused: set<Path>, dirs: seq<Path>, d: Path)
    ensures Removable(Swept(files, refused, dirs), refused, d) <==> Removable(files, refused, d)
  {
    var s := Swept(files, refused, dirs);
    if !Removable(files, refused, d) {
      var q :| q in files && AtOrUnder(q, d) && q in refused;
      assert q in s;
    }
  }

  /** One more directory: deleted if it can be, skipped otherwise. */
  lemma SweptStep(files: map<Path, File>, refused: set<Path>, dirs: seq<Path>, d: Path)
    ensures Removable(files, refused, d) ==>
      Swept(files, refused, dirs + [d]) == RemovedTree(Swept(files, refused, dirs), d)
    ensures !Removable(files, refused, d) ==>
      Swept(files, refused, dirs + [d]) == Swept(files, refused, dirs)
  {
    forall q
      ensures Cleared(files, refused, dirs + [d], q) <==>
        Cleared(files, refused, dirs, q) || (AtOrUnder(q, d) && Removable(files, refused, d))
    {
      if Cleared(files, refused, dirs + [d], q) {
        var d' :| d' in dirs + [d] && AtOrUnder(q, d') && Removable(files, refused, d');
        if d' != d {
          assert d' in dirs;
        }
      }
    }
  }

  /** One turn of the cleanup loop keeps the sweep up to date. */
  lemma CleanupStep(files: map<Path, File>, refused: set<Path>, dirs: seq<Path>, d: Path,
                    before: map<Path, File>, after: map<Path, File>, ok: bool)
    requires before == Swept(files, refused, dirs)
    requires ok == Removable(before, refused, d)
    requires after == if ok then RemovedTree(before, d) else before
    ensures after == Swept(files, refused, dirs + [d])
    ensures ok == Removable(files, refused, d)
  {
    SweptRemovable(files, refused, dirs, d);
    SweptStep(files, refused, dirs, d);
  }

  /** Sweeping nothing changes nothing. */
  lemma SweptNothing(files: map<Path, File>, refused: set<Path>)
    ensures Swept(files, refused, []) == files
  {
  }

  /** A cleanup pass can be repeated: the second pass removes nothing more. */
  lemma SweptIdempotent(files: map<Path, File>, refused: set<Path>, dirs: seq<Path>)
    ensures Swept(Swept(files, refused, dirs), refused, dirs) == Swept(files, refused, dirs)
  {
    var s := Swept(files, refused, dirs);
    forall q | q in s
      ensures !Cleared(s, refused, dirs, q)
    {
      forall d | d in dirs && AtOrUnder(q, d)
        ensures !Removable(s, refused, d)
      {
        SweptRemovable(files, refused, dirs, d);
      }
    }
  }

  class Catalog {
    const provider: PathProvider

    constructor (provider: PathProvider)
      ensures this.provider == provider
    {
      this.provider := provider;
    }

    /** `parquet_dir_for_mirror_entry`: three levels below the base
        directory. */
    function PartitionDir(e: MirrorEntry): (p: Path)
      requires ValidDate(e.date)
      ensures IsUnder(p, provider.baseDir)
      ensures CountChar(p, '/') == CountChar(provider.baseDir, '/') + 3
    {
      var parts := PartitionParts(e);
      assert [parts[0]] + parts[1..] == parts;
      JoinAllUnder(provider.baseDir, parts);
      JoinAllDepth(provider.baseDir, parts);
      provider.PathOf(parts[0], parts[1..])
    }

    /** `path_for_mirror_entry`: the single NDJSON file of the old layout. */
    function LegacyPath(e: MirrorEntry): (p: Path)
      requires ValidDate(e.date)
      ensures p == JoinPath(PartitionDir(e), "data_0.ndjson.gz")
      ensures IsUnder(p, PartitionDir(e))
    {
      var parts := PartitionParts(e);
      JoinAllAppend(provider.baseDir, parts, ["data_0.ndjson.gz"]);
      assert [parts[0]] + parts[1..] == parts;
      assert [parts[0]] + (parts[1..] + ["data_0.ndjson.gz"]) == parts + ["data_0.ndjson.gz"];
      JoinIsUnder(PartitionDir(e), "data_0.ndjson.gz");
      provider.PathOf(parts[0], parts[1..] + ["data_0.ndjson.gz"])
    }

    /** The partition directory spelled out. */
    lemma PartitionDirFormat(e: MirrorEntry)
      requires ValidDate(e.date)
      ensures PartitionDir(e) == provider.baseDir + "/" + EntityName(e.entity) + "/" + ("date=" + FormatIso(e.date))
                                 + "/" + ("stage=" + StageName(e.isFull))
    {
      var parts := PartitionParts(e);
      assert [parts[0]] + parts[1..] == parts;
      JoinThree(provider.baseDir, parts[0], parts[1], parts[2]);
    }

    /** Two entries share a partition exactly when they agree on entity,
        date and stage. */
    lemma PartitionDirInjective(a: MirrorEntry, b: MirrorEntry)
      requires ValidDate(a.date) && ValidDate(b.date)
      ensures PartitionDir(a) == PartitionDir(b) <==>
        a.entity == b.entity && a.date == b.date && a.isFull == b.isFull
    {
      var pa, pb := PartitionParts(a), PartitionParts(b);
      assert [pa[0]] + pa[1..] == pa;
      assert [pb[0]] + pb[1..] == pb;
      if PartitionDir(a) == PartitionDir(b) {
        JoinAllInjective(provider.baseDir, pa, pb);
      }
      PartitionPartsInjective(a, b);
    }

    /** Partitions never nest: deleting one leaves every other partition's
        files alone. */
    lemma PartitionsDisjoint(a: MirrorEntry, b: MirrorEntry, q: Path)
      requires ValidDate(a.date) && ValidDate(b.date)
      requires PartitionDir(a) != PartitionDir(b)
      ensures !(AtOrUnder(q, PartitionDir(a)) && AtOrUnder(q, PartitionDir(b)))
    {
      var da, db := PartitionDir(a), PartitionDir(b);
      if IsUnder(da, db) {
        UnderIsDeeper(da, db);
      } else if IsUnder(db, da) {
        UnderIsDeeper(db, da);
      } else if AtOrUnder(q, da) && AtOrUnder(q, db) {
        if q != da && q != db {
          CommonDescendant(q, da, db);
        }
      }
    }

    /** `_rm_tree`: nothing for a path that does not exist, otherwise a
        recursive delete (which fails as a whole on a refused path). */
    method RmTree(store: FileStore, p: Path) returns (ok: bool)
      modifies store
      ensures ok == Removable(old(store.files), store.refused, p)
      ensures store.files == if ok then RemovedTree(old(store.files), p) else old(store.files)
    {
      if !store.Exists(p) {
        assert RemovedTree(store.files, p) == store.files;
        return true;
      }
      ok := store.RemoveTree(p);
    }

    /** `cleanup_one`: delete the partition; then the legacy file, whose
        deletion may fail silently (it lies inside the partition, so it is
        already gone). A failed delete of the partition raises. */
    method CleanupOne(store: FileStore, e: MirrorEntry) returns (ok: bool)
      requires ValidDate(e.date)
      modifies store
      ensures ok == Removable(old(store.files), store.refused, PartitionDir(e))
      ensures store.files == if ok then RemovedTree(old(store.files), PartitionDir(e)) else old(store.files)
      ensures ok ==> LegacyPath(e) !in store.files
    {
      var outDir := PartitionDir(e);
      ok := RmTree(store, outDir);
      if !ok {
        return;
      }
      var legacy := LegacyPath(e);
      var _ := store.Unlink(legacy);
    }

    /** The partitions of a list of entries. */
    function Dirs(es: seq<MirrorEntry>): (ds: seq<Path>)
      requires ValidEntries(es)
      ensures |ds| == |es| && forall i | 0 <= i < |es| :: ds[i] == PartitionDir(es[i])
    {
      seq(|es|, i requires 0 <= i < |es| => PartitionDir(es[i]))
    }

    /** The entries whose partition holds a refused path, in order: the ones
        whose cleanup fails. */
    function Failures(files: map<Path, File>, refused: set<Path>, es: seq<MirrorEntry>): (r: seq<MirrorEntry>)
      requires ValidEntries(es)
      ensures forall e :: e in r <==> e in es && !Removable(files, refused, PartitionDir(e))
    {
      if |es| == 0 then []
      else
        var last := es[|es| - 1];
        Failures(files, refused, es[..|es| - 1]) + (if Removable(files, refused, PartitionDir(last)) then [] else [last])
    }

    /** `cleanup`: every entry outside the current batch is cleaned up in
        turn; a failure is logged (returned in `failed`) and the loop goes
        on. */
    method Cleanup(store: FileStore, entries: seq<MirrorEntry>) returns (failed: seq<MirrorEntry>)
      requires ValidEntries(entries)
      modifies store
      ensures store.files == Swept(old(store.files), store.refused, Dirs(Select(entries, false)))
      ensures failed == Failures(old(store.files), store.refused, Select(entries, false))
    {
      var toCleanup := Select(entries, false);
      ghost var files0 := store.files;
      ghost var dirs := Dirs(toCleanup);
      failed := [];
      SweptNothing(files0, store.refused);
      for i := 0 to |toCleanup|
        invariant store.files == Swept(files0, store.refused, dirs[..i])
        invariant failed == Failures(files0, store.refused, toCleanup[..i])
      {
        var e := toCleanup[i];
        var ok := CleanupNext(store, e, files0, dirs[..i]);
        TakeOneMore(dirs, i);
        FailuresOneMore(files0, store.refused, toCleanup, i);
        if !ok {
          failed := failed + [e];
        }
      }
      TakeAll(dirs);
      TakeAll(toCleanup);
    }

    /** One turn of the cleanup loop: the sweep takes in the entry's
        partition. */
    method CleanupNext(store: FileStore, e: MirrorEntry, ghost files0: map<Path, File>, ghost done: seq<Path>)
      returns (ok: bool)
      requires ValidDate(e.date)
      requires store.files == Swept(files0, store.refused, done)
      modifies store
      ensures ok == Removable(files0, store.refused, PartitionDir(e))
      ensures store.files == Swept(files0, store.refused, done + [PartitionDir(e)])
    {
      ghost var before := store.files;
      ok := CleanupOne(store, e);
      CleanupStep(files0, store.refused, done, PartitionDir(e), before, store.files, ok);
    }

    lemma FailuresOneMore(files: map<Path, File>, refused: set<Path>, es: seq<MirrorEntry>, i: nat)
      requires ValidEntries(es) && i < |es|
      ensures ValidEntries(es[..i]) && ValidEntries(es[..i + 1])
      ensures Failures(files, refused, es[..i + 1]) ==
        Failures(files, refused, es[..i]) + (if Removable(files, refused, PartitionDir(es[i])) then [] else [es[i]])
    {
      assert es[..i + 1][..i] == es[..i];
    }

    // -------------------------------------------------------------------------
    // Processing
    // -------------------------------------------------------------------------

    /** Where entry `e`'s parts go, with the staging file `tmp`. */
    function TargetOf(e: MirrorEntry, tmp: Path): MirrorParquet.Target
      requires ValidDate(e.date)
    {
      MirrorParquet.Target(PartitionDir(e), "data", SraSchema.GetSchema(EntityName(e.entity)), tmp)
    }

    /** The result of writing entry `e` from its record stream. */
    function EntryOutcome(refused: set<Path>, e: MirrorEntry, feed: string -> MirrorParquet.RecordStream, tmp: Path)
      : MirrorParquet.PartsResult
      requires ValidDate(e.date)
    {
      var t := TargetOf(e, tmp);
      MirrorParquet.Outcome(refused, t, MirrorParquet.Normalized(feed(e.url).records, None, t.schema), feed(e.url).complete)
    }

    function EntryFiles(files: map<Path, File>, refused: set<Path>, e: MirrorEntry,
                        feed: string -> MirrorParquet.RecordStream, tmp: Path): map<Path, File>
      requires ValidDate(e.date)
    {
      var t := TargetOf(e, tmp);
      MirrorParquet.OutcomeFiles(files, refused, t, MirrorParquet.Normalized(feed(e.url).records, None, t.schema), feed(e.url).complete)
    }

    /** `process_one`: write the entry's records as `data_NNNNN.parquet`
        parts into its partition, whatever is there already (there is no
        skip check). `feed` gives the records parsed from a URL; `tmp` is the
        local staging file. */
    method ProcessOne(store: FileStore, e: MirrorEntry, feed: string -> MirrorParquet.RecordStream, tmp: Path)
      returns (r: MirrorParquet.PartsResult)
      requires ValidDate(e.date)
      requires tmp !in store.files && !AtOrUnder(tmp, provider.baseDir)
      modifies store
      ensures r == EntryOutcome(store.refused, e, feed, tmp)
      ensures store.files == EntryFiles(old(store.files), store.refused, e, feed, tmp)
      ensures tmp !in store.files
    {
      var outDir := PartitionDir(e);
      OutsideUnder(tmp, outDir, provider.baseDir);
      r := MirrorParquet.ProcessMirrorEntryToParquetParts(store, feed(e.url), outDir, EntityName(e.entity), None, "data", tmp);
      var t := TargetOf(e, tmp);
      MirrorParquet.OnlyOutputDirChanges(old(store.files), store.refused, t,
        MirrorParquet.Normalized(feed(e.url).records, None, t.schema), feed(e.url).complete);
    }

    /** `process`: every entry of the current batch is written in turn; a
        failure is logged (its result returned) and the loop goes on. Only
        the current entries' partitions change. */
    method Process(store: FileStore, entries: seq<MirrorEntry>, feed: string -> MirrorParquet.RecordStream, tmp: Path)
      returns (results: seq<MirrorParquet.PartsResult>)
      requires ValidEntries(entries)
      requires tmp !in store.files && !AtOrUnder(tmp, provider.baseDir)
      modifies store
      ensures results == Outcomes(store.refused, Select(entries, true), feed, tmp)
      ensures store.files == ProcessedFiles(old(store.files), store.refused, Select(entries, true), feed, tmp)
      ensures Framed(old(store.files), store.files, Dirs(Select(entries, true)))
    {
      var currentBatch := Select(entries, true);
      ghost var files0 := store.files;
      results := [];
      for i := 0 to |currentBatch|
        invariant results == Outcomes(store.refused, currentBatch[..i], feed, tmp)
        invariant store.files == ProcessedFiles(files0, store.refused, currentBatch[..i], feed, tmp)
        invariant tmp !in store.files
      {
        var r := ProcessOne(store, currentBatch[i], feed, tmp);
        ProcessedOneMore(files0, store.refused, currentBatch, feed, tmp, i);
        results := results + [r];
      }
      TakeAll(currentBatch);
      ProcessedFramed(files0, store.refused, currentBatch, feed, tmp);
    }

    /** The store after writing each entry of `es` in turn. */
    function ProcessedFiles(files: map<Path, File>, refused: set<Path>, es: seq<MirrorEntry>,
                            feed: string -> MirrorParquet.RecordStream, tmp: Path): map<Path, File>
      requires ValidEntries(es)
    {
      if |es| == 0 then files
      else EntryFiles(ProcessedFiles(files, refused, es[..|es| - 1], feed, tmp), refused, es[|es| - 1], feed, tmp)
    }

    /** One entry more: its parts are written over the store the earlier
        ones left, and its result is appended. */
    lemma ProcessedOneMore(files: map<Path, File>, refused: set<Path>, es: seq<MirrorEntry>,
                           feed: string -> MirrorParquet.RecordStream, tmp: Path, i: nat)
      requires ValidEntries(es) && i < |es|
      ensures ValidEntries(es[..i]) && ValidEntries(es[..i + 1])
      ensures ProcessedFiles(files, refused, es[..i + 1], feed, tmp) ==
        EntryFiles(ProcessedFiles(files, refused, es[..i], feed, tmp), refused, es[i], feed, tmp)
      ensures Outcomes(refused, es[..i + 1], feed, tmp) ==
        Outcomes(refused, es[..i], feed, tmp) + [EntryOutcome(refused, es[i], feed, tmp)]
    {
      TakeOneMore(es, i);
    }

    /** Processing changes and adds files only inside the partitions of the
        processed entries. */
    lemma {:induction false} ProcessedFramed(files: map<Path, File>, refused: set<Path>, es: seq<MirrorEntry>,
                                             feed: string -> MirrorParquet.RecordStream, tmp: Path)
      requires ValidEntries(es)
      ensures Framed(files, ProcessedFiles(files, refused, es, feed, tmp), Dirs(es))
    {
      if |es| == 0 {
        assert forall q :: !InSome(Dirs(es), q);
      } else {
        var n := |es| - 1;
        ProcessedOneMore(files, refused, es, feed, tmp, n);
        TakeAll(es);
        ProcessedFramed(files, refused, es[..n], feed, tmp);
        var before := ProcessedFiles(files, refused, es[..n], feed, tmp);
        var t := TargetOf(es[n], tmp);
        MirrorParquet.OnlyOutputDirChanges(before, refused, t,
          MirrorParquet.Normalized(feed(es[n].url).records, None, t.schema), feed(es[n].url).complete);
        DirsOneMore(es, n);
        FramedStep(files, before, ProcessedFiles(files, refused, es, feed, tmp), Dirs(es[..n]), PartitionDir(es[n]));
      }
    }

    lemma DirsOneMore(es: seq<MirrorEntry>, n: nat)
      requires ValidEntries(es) && n == |es| - 1
      ensures ValidEntries(es[..n]) && Dirs(es) == Dirs(es[..n]) + [PartitionDir(es[n])]
    {
      var ds, init := Dirs(es), Dirs(es[..n]);
      forall i | 0 <= i < |ds|
        ensures ds[i] == (init + [PartitionDir(es[n])])[i]
      {
        if i < n {
          assert es[..n][i] == es[i];
        }
      }
      SameElements(ds, init + [PartitionDir(es[n])]);
    }

    /** The results of writing each entry, in order. */
    function Outcomes(refused: set<Path>, es: seq<MirrorEntry>, feed: string -> MirrorParquet.RecordStream, tmp: Path)
      : (rs: seq<MirrorParquet.PartsResult>)
      requires ValidEntries(es)
      ensures |rs| == |es|
    {
      if |es| == 0 then []
      else Outcomes(refused, es[..|es| - 1], feed, tmp) + [EntryOutcome(refused, es[|es| - 1], feed, tmp)]
    }

    /** The `k`-th result is the outcome of the `k`-th entry alone. */
    lemma {:induction false} OutcomeAt(refused: set<Path>, es: seq<MirrorEntry>, feed: string -> MirrorParquet.RecordStream,
                                       tmp: Path, k: nat)
      requires ValidEntries(es) && k < |es|
      ensures Outcomes(refused, es, feed, tmp)[k] == EntryOutcome(refused, es[k], feed, tmp)
    {
      if k < |es| - 1 {
        OutcomeAt(refused, es[..|es| - 1], feed, tmp, k);
      }
    }
  }

  /** `q` lies strictly inside one of the directories. */
  predicate InSome(dirs: seq<Path>, q: Path)
  {
    exists d | d in dirs :: IsUnder(q, d)
  }

  /** Going from `files0` to `files` changed nothing outside the directories
      and added nothing outside them. */
  ghost predicate Framed(files0: map<Path, File>, files: map<Path, File>, dirs: seq<Path>)
  {
    && (forall q | q in files0 && !InSome(dirs, q) :: q in files && files[q] == files0[q])
    && (forall q | q in files :: q in files0 || InSome(dirs, q))
  }

  lemma FramedStep(files0: map<Path, File>, before: map<Path, File>, after: map<Path, File>, done: seq<Path>, d: Path)
    requires Framed(files0, before, done)
    requires forall p | p in before && !IsUnder(p, d) :: p in after && after[p] == before[p]
    requires forall p | p in after :: p in before || IsUnder(p, d)
    ensures Framed(files0, after, done + [d])
  {
    forall q | InSome(done, q)
      ensures InSome(done + [d], q)
    {
      var d' :| d' in done && IsUnder(q, d');
      assert d' in done + [d];
    }
    forall q | !InSome(done + [d], q)
      ensures !InSome(done, q) && !IsUnder(q, d)
    {
      assert d in done + [d];
    }
  }
}
