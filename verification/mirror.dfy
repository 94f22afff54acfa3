/** SRA mirror entries: what a mirror file URL says about itself (entity,
    full or incremental, dump date) and which files make up the current batch
    (the latest full dump plus every newer incremental file). */
module Mirror {
  import opened Common
  import opened Dates

  datatype Entity = Study | Sample | Experiment | Run

  function EntityName(e: Entity): (s: string)
    ensures |s| > 0
  {
    match e
    case Study => "study"
    case Sample => "sample"
    case Experiment => "experiment"
    case Run => "run"
  }

  /** The order in which the entity names are tried against a URL. */
  function Rank(e: Entity): nat
  {
    match e
    case Study => 0
    case Sample => 1
    case Experiment => 2
    case Run => 3
  }

  datatype MirrorEntry = MirrorEntry(url: string, entity: Entity, isFull: bool, date: Date, inCurrentBatch: bool)

  /** The entity of a mirror URL: the first of study, sample, experiment, run
      whose name occurs in it (`None` is the ValueError for no entity). */
  function EntityOf(url: string): (r: Option<Entity>)
    ensures r.Some? ==> Contains(url, EntityName(r.value))
    ensures r.Some? ==> forall e | Rank(e) < Rank(r.value) :: !Contains(url, EntityName(e))
    ensures r.None? <==> forall e :: !Contains(url, EntityName(e))
  {
    if Contains(url, "study") then Some(Study)
    else if Contains(url, "sample") then Some(Sample)
    else if Contains(url, "experiment") then Some(Experiment)
    else if Contains(url, "run") then Some(Run)
    else None
  }

  predicate IsFull(url: string)
  {
    Contains(url, "Full")
  }

  const DateToken: string := "NCBI_SRA_Mirroring_"

  /** The pattern `NCBI_SRA_Mirroring_(\d{8})` matches at position `i`. */
  predicate DateMatchAt(url: string, i: int)
  {
    OccursAt(url, DateToken, i) && i + |DateToken| + 8 <= |url| && AllDigits(url[i + |DateToken| .. i + |DateToken| + 8])
  }

  /** `re.search`: the leftmost match at or after `from`. */
  function FindDateMatch(url: string, from: nat): (r: Option<nat>)
    ensures r.Some? ==> from <= r.value && DateMatchAt(url, r.value)
    ensures r.Some? ==> forall j | from <= j < r.value :: !DateMatchAt(url, j)
    ensures r.None? ==> forall j | from <= j :: !DateMatchAt(url, j)
    decreases |url| - from
  {
    if from + |DateToken| + 8 > |url| then None
    else if DateMatchAt(url, from) then Some(from)
    else FindDateMatch(url, from + 1)
  }

  /** The dump date of a mirror URL: the eight digits after the leftmost
      `NCBI_SRA_Mirroring_`, read as `YYYYMMDD`; `None` when there is no such
      token or the digits are not a calendar date (both ValueErrors). */
  function DateOf(url: string): (r: Option<Date>)
    ensures r.Some? ==> ValidDate(r.value)
  {
    match FindDateMatch(url, 0)
    case None => None
    case Some(i) => ParseBasic(url[i + |DateToken| .. i + |DateToken| + 8])
  }

  /** Building an entry: entity, then full flag, then date; any failure is the
      ValueError that makes the caller skip the URL. A new entry is never in
      the current batch. */
  function ParseEntry(url: string): (r: Option<MirrorEntry>)
    ensures r.Some? <==> EntityOf(url).Some? && DateOf(url).Some?
    ensures r.Some? ==> r.value.url == url && r.value.entity == EntityOf(url).value
    ensures r.Some? ==> r.value.isFull == IsFull(url) && r.value.date == DateOf(url).value
    ensures r.Some? ==> !r.value.inCurrentBatch
  {
    match EntityOf(url)
    case None => None
    case Some(e) =>
      var full := IsFull(url);
      match DateOf(url)
      case None => None
      case Some(d) => Some(MirrorEntry(url, e, full, d, false))
  }

  // ---------------------------------------------------------------------------
  // The current batch
  // ---------------------------------------------------------------------------

  /** The URLs of a listing that parse, in the same order. */
  function Parsed(urls: seq<string>): (r: seq<MirrorEntry>)
    ensures |r| <= |urls|
    ensures forall i | 0 <= i < |r| :: !r[i].inCurrentBatch
  {
    if |urls| == 0 then []
    else
      Parsed(urls[..|urls| - 1]) +
      (match ParseEntry(urls[|urls| - 1]) case Some(e) => [e] case None => [])
  }

  function Reverse<T>(s: seq<T>): (r: seq<T>)
    ensures |r| == |s| && forall i | 0 <= i < |s| :: r[i] == s[|s| - 1 - i]
  {
    seq(|s|, i requires 0 <= i < |s| => s[|s| - 1 - i])
  }

  /** Some entry before position `j` (newest first) is a full file. */
  predicate FullBefore(es: seq<MirrorEntry>, j: int)
    requires j <= |es|
  {
    exists k | 0 <= k < j :: es[k].isFull
  }

  /** The batch has ended by position `i` when some incremental file at or
      before `i` follows a full one. */
  predicate LeftBatch(es: seq<MirrorEntry>, i: int)
    requires i < |es|
  {
    exists j | 0 < j <= i :: !es[j].isFull && FullBefore(es, j)
  }

  /** The tagging the listing should receive: entry `i` is current unless the
      batch has ended by then. */
  function Tagged(es: seq<MirrorEntry>): (r: seq<MirrorEntry>)
    ensures |r| == |es|
    ensures forall i | 0 <= i < |es| :: r[i] == es[i].(inCurrentBatch := !LeftBatch(es, i))
  {
    seq(|es|, i requires 0 <= i < |es| => es[i].(inCurrentBatch := !LeftBatch(es, i)))
  }

  /** `get_sra_mirror_entries` on a given listing (the glob result, oldest
      first): walks it newest first, skips URLs that do not parse, raises
      `foundFull` at the first full file and `outOfFull` at the first
      incremental file after it, and tags each entry with `not outOfFull`. */
  method GetMirrorEntries(listing: seq<string>) returns (entries: seq<MirrorEntry>)
    ensures entries == Tagged(Parsed(Reverse(listing)))
  {
    var allFiles := Reverse(listing);
    var foundFull := false;
    var outOfFull := false;
    entries := [];
    var n := 0;
    while n < |allFiles|
      invariant 0 <= n <= |allFiles|
      invariant Scanned(ParsedUpTo(allFiles, n), foundFull, outOfFull, entries)
    {
      foundFull, outOfFull, entries := ScanOne(allFiles, n, foundFull, outOfFull, entries);
      n := n + 1;
    }
    ParsedUpToPrefix(allFiles, n);
    assert allFiles[..n] == allFiles;
  }

  /** One turn of the walk over the listing: the URL at `n` is parsed; one
      that does not parse is skipped, and a parsed entry raises the flags as
      the source does and is appended with its tag. */
  method ScanOne(allFiles: seq<string>, n: nat, foundFull: bool, outOfFull: bool, entries: seq<MirrorEntry>)
    returns (found: bool, out: bool, entries': seq<MirrorEntry>)
    requires n < |allFiles|
    requires Scanned(ParsedUpTo(allFiles, n), foundFull, outOfFull, entries)
    ensures Scanned(ParsedUpTo(allFiles, n + 1), found, out, entries')
  {
    var entry := ParseEntry(allFiles[n]);
    found, out, entries' := foundFull, outOfFull, entries;
    if entry.Some? {
      var e := entry.value;
      if e.isFull && !found {
        found := true;
      }
      if found && !e.isFull {
        out := true;
      }
      entries' := entries' + [e.(inCurrentBatch := !out)];
    }
    ScanAdvance(allFiles, n, entry, foundFull, outOfFull, entries, found, out, entries');
  }

  /** The state of the walk after the entries `parsed`: `foundFull` says a
      full file was seen, `outOfFull` that the batch had ended by the last
      of them, and `entries` is their tagging. */
  predicate Scanned(parsed: seq<MirrorEntry>, foundFull: bool, outOfFull: bool, entries: seq<MirrorEntry>)
  {
    && foundFull == FullBefore(parsed, |parsed|)
    && outOfFull == (|parsed| > 0 && LeftBatch(parsed, |parsed| - 1))
    && entries == Tagged(parsed)
  }

  /** One turn of the walk: a URL that does not parse leaves the state as it
      was, and a parsed entry moves the flags and extends the tagging. */
  lemma ScanAdvance(urls: seq<string>, n: nat, entry: Option<MirrorEntry>,
                    foundFull: bool, outOfFull: bool, entries: seq<MirrorEntry>,
                    found: bool, out: bool, entries': seq<MirrorEntry>)
    requires n < |urls| && entry == ParseEntry(urls[n])
    requires Scanned(ParsedUpTo(urls, n), foundFull, outOfFull, entries)
    requires entry.None? ==> found == foundFull && out == outOfFull && entries' == entries
    requires entry.Some? ==> found == (foundFull || entry.value.isFull) && out == (outOfFull || (found && !entry.value.isFull))
    requires entry.Some? ==> entries' == entries + [entry.value.(inCurrentBatch := !out)]
    ensures Scanned(ParsedUpTo(urls, n + 1), found, out, entries')
  {
    ParsedUpToStep(urls, n, entry);
    if entry.Some? {
      ScanStep(ParsedUpTo(urls, n), entry.value, foundFull, outOfFull, entries, found, out, entries');
    }
  }

  /** The parses of the first `n` URLs of a listing. */
  function ParsedUpTo(urls: seq<string>, n: nat): seq<MirrorEntry>
    requires n <= |urls|
  {
    if n == 0 then []
    else ParsedUpTo(urls, n - 1) + (match ParseEntry(urls[n - 1]) case Some(e) => [e] case None => [])
  }

  lemma ParsedUpToStep(urls: seq<string>, n: nat, entry: Option<MirrorEntry>)
    requires n < |urls| && entry == ParseEntry(urls[n])
    ensures entry.Some? ==> ParsedUpTo(urls, n + 1) == ParsedUpTo(urls, n) + [entry.value]
    ensures entry.None? ==> ParsedUpTo(urls, n + 1) == ParsedUpTo(urls, n)
  {
  }

  /** Walking the first `n` URLs parses the prefix of length `n`. */
  lemma {:induction false} ParsedUpToPrefix(urls: seq<string>, n: nat)
    requires n <= |urls|
    ensures ParsedUpTo(urls, n) == Parsed(urls[..n])
  {
    if n > 0 {
      ParsedUpToPrefix(urls, n - 1);
      assert urls[..n][..n - 1] == urls[..n - 1];
    }
  }

  /** The two flags of the walk and the tagging so far, after one more
      parsed entry. */
  lemma ScanStep(parsed: seq<MirrorEntry>, e: MirrorEntry, foundFull: bool, outOfFull: bool, entries: seq<MirrorEntry>,
                  found: bool, out: bool, entries': seq<MirrorEntry>)
    requires foundFull == FullBefore(parsed, |parsed|)
    requires outOfFull == (|parsed| > 0 && LeftBatch(parsed, |parsed| - 1))
    requires entries == Tagged(parsed)
    requires found == (foundFull || e.isFull) && out == (outOfFull || (found && !e.isFull))
    requires entries' == entries + [e.(inCurrentBatch := !out)]
    ensures found == FullBefore(parsed + [e], |parsed + [e]|)
    ensures out == (|parsed + [e]| > 0 && LeftBatch(parsed + [e], |parsed + [e]| - 1))
    ensures entries' == Tagged(parsed + [e])
  {
    StepFacts(parsed, e);
  }

  /** How the flags and the tagging evolve when one more entry is appended. */
  lemma StepFacts(before: seq<MirrorEntry>, e: MirrorEntry)
    ensures FullBefore(before + [e], |before| + 1) == (FullBefore(before, |before|) || e.isFull)
    ensures LeftBatch(before + [e], |before|) ==
      ((|before| > 0 && LeftBatch(before, |before| - 1)) || (!e.isFull && FullBefore(before, |before|)))
    ensures Tagged(before + [e]) == Tagged(before) + [e.(inCurrentBatch := !LeftBatch(before + [e], |before|))]
  {
    var after := before + [e];
    FullBeforeAppend(before, e);
    LeftBatchAppend(before, e);
    FlagsAppend(before, e);
    TaggedAppend(before, e);
  }

  lemma FlagsAppend(before: seq<MirrorEntry>, e: MirrorEntry)
    requires forall j | 0 <= j <= |before| :: FullBefore(before + [e], j) == FullBefore(before, j)
    ensures FullBefore(before + [e], |before| + 1) == (FullBefore(before, |before|) || e.isFull)
    ensures LeftBatch(before + [e], |before|) ==
      ((|before| > 0 && LeftBatch(before, |before| - 1)) || (!e.isFull && FullBefore(before, |before|)))
  {
    var after := before + [e];
    assert after[|before|] == e;
    if FullBefore(after, |before| + 1) && !e.isFull {
      var k :| 0 <= k < |before| + 1 && after[k].isFull;
      assert before[k].isFull;
    }
    if FullBefore(before, |before|) {
      var k :| 0 <= k < |before| && before[k].isFull;
      assert after[k].isFull;
    }
    if |before| > 0 && LeftBatch(before, |before| - 1) {
      var j :| 0 < j <= |before| - 1 && !before[j].isFull && FullBefore(before, j);
      assert !after[j].isFull && FullBefore(after, j);
    }
    if LeftBatch(after, |before|) {
      var j :| 0 < j <= |before| && !after[j].isFull && FullBefore(after, j);
      if j < |before| {
        assert !before[j].isFull && FullBefore(before, j);
        assert LeftBatch(before, |before| - 1);
      }
    }
    if !e.isFull && FullBefore(before, |before|) {
      assert 0 < |before| && !after[|before|].isFull && FullBefore(after, |before|);
    }
  }

  lemma TaggedAppend(before: seq<MirrorEntry>, e: MirrorEntry)
    requires forall i | 0 <= i < |before| :: LeftBatch(before + [e], i) == LeftBatch(before, i)
    ensures Tagged(before + [e]) == Tagged(before) + [e.(inCurrentBatch := !LeftBatch(before + [e], |before|))]
  {
    var after := before + [e];
    var t, t' := Tagged(after), Tagged(before) + [e.(inCurrentBatch := !LeftBatch(after, |before|))];
    forall i | 0 <= i < |t|
      ensures t[i] == t'[i]
    {
      if i < |before| {
        assert after[i] == before[i];
        assert t[i] == before[i].(inCurrentBatch := !LeftBatch(before, i));
      }
    }
  }

  lemma FullBeforeAppend(before: seq<MirrorEntry>, e: MirrorEntry)
    ensures forall j | 0 <= j <= |before| :: FullBefore(before + [e], j) == FullBefore(before, j)
  {
    var after := before + [e];
    forall j | 0 <= j <= |before|
      ensures FullBefore(after, j) == FullBefore(before, j)
    {
      if FullBefore(after, j) {
        var k :| 0 <= k < j && after[k].isFull;
        assert before[k].isFull;
      }
      if FullBefore(before, j) {
        var k :| 0 <= k < j && before[k].isFull;
        assert after[k].isFull;
      }
    }
  }

  lemma LeftBatchAppend(before: seq<MirrorEntry>, e: MirrorEntry)
    ensures forall i | 0 <= i < |before| :: LeftBatch(before + [e], i) == LeftBatch(before, i)
  {
    var after := before + [e];
    FullBeforeAppend(before, e);
    forall i | 0 <= i < |before|
      ensures LeftBatch(after, i) == LeftBatch(before, i)
    {
      if LeftBatch(after, i) {
        var j :| 0 < j <= i && !after[j].isFull && FullBefore(after, j);
        assert !before[j].isFull && FullBefore(before, j);
      }
      if LeftBatch(before, i) {
        var j :| 0 < j <= i && !before[j].isFull && FullBefore(before, j);
        assert !after[j].isFull && FullBefore(after, j);
      }
    }
  }

  // ---------------------------------------------------------------------------
  // What the tagging means
  // ---------------------------------------------------------------------------

  /** Once an entry is out of the batch, every older one is too: the current
      batch is a prefix of the newest-first listing. */
  lemma CurrentBatchIsPrefix(es: seq<MirrorEntry>, i: int, j: int)
    requires 0 <= i < j < |es|
    ensures Tagged(es)[j].inCurrentBatch ==> Tagged(es)[i].inCurrentBatch
  {
    if LeftBatch(es, i) {
      var a, b :| 0 <= b < a <= i && es[b].isFull && !es[a].isFull;
      assert LeftBatch(es, j);
    }
  }

  /** Without any full file in the listing, every entry is current. */
  lemma NoFullAllCurrent(es: seq<MirrorEntry>)
    requires forall k | 0 <= k < |es| :: !es[k].isFull
    ensures forall i | 0 <= i < |es| :: Tagged(es)[i].inCurrentBatch
  {
  }

  /** With `f` the newest full file, the batch is everything newer than it,
      `f` itself and the run of full files right after it (the other entity
      files of the same dump); it ends at the first incremental file older
      than `f`. */
  lemma CurrentBatchBoundary(es: seq<MirrorEntry>, f: int)
    requires 0 <= f < |es| && es[f].isFull
    requires forall k | 0 <= k < f :: !es[k].isFull
    ensures forall i | 0 <= i < |es| ::
      Tagged(es)[i].inCurrentBatch <==> (i <= f || forall j | f < j <= i :: es[j].isFull)
  {
    forall i | 0 <= i < |es|
      ensures LeftBatch(es, i) <==> (f < i && exists j | f < j <= i :: !es[j].isFull)
    {
      if LeftBatch(es, i) {
        var j, k :| 0 <= k < j <= i && es[k].isFull && !es[j].isFull;
        assert f <= k;
      }
      if f < i && exists j | f < j <= i :: !es[j].isFull {
        var j :| f < j <= i && !es[j].isFull;
        assert 0 <= f < j <= i && es[f].isFull && !es[j].isFull;
      }
    }
  }

  /** An entry is listed exactly when its URL parses, and the tagging never
      alters what was parsed. */
  lemma {:induction false} ParsedMembers(urls: seq<string>)
    ensures forall u | u in urls && ParseEntry(u).Some? :: ParseEntry(u).value in Parsed(urls)
    ensures forall e | e in Parsed(urls) :: e.url in urls && ParseEntry(e.url) == Some(e)
  {
    if |urls| > 0 {
      var init := urls[..|urls| - 1];
      ParsedMembers(init);
      assert urls == init + [urls[|urls| - 1]];
    }
  }

  // ---------------------------------------------------------------------------
  // Mirror file names
  // ---------------------------------------------------------------------------

  lemma AbsentCharNotContained(s: string, sub: string, c: char)
    requires c in sub && c !in s
    ensures !Contains(s, sub)
  {
    var k :| 0 <= k < |sub| && sub[k] == c;
    forall i | 0 <= i <= |s| - |sub|
      ensures !OccursAt(s, sub, i)
    {
      assert s[i + k] in s;
    }
  }

  lemma TokenAt(url: string, d: Date, rest: string)
    requires ValidDate(d) && url == DateToken + FormatBasic(d) + rest
    ensures DateMatchAt(url, 0)
    ensures DateOf(url) == Some(d)
  {
    var digits := FormatBasic(d);
    DigitsAfterToken(digits, rest);
    FirstMatchAtStart(url);
    assert DateOf(url) == ParseBasic(digits);
    ParseFormatBasic(d);
  }

  lemma FirstMatchAtStart(url: string)
    requires DateMatchAt(url, 0)
    ensures FindDateMatch(url, 0) == Some(0)
  {
  }

  /** Eight digits right after the token at the start of a URL match there. */
  lemma DigitsAfterToken(digits: string, rest: string)
    requires |digits| == 8 && AllDigits(digits)
    ensures DateMatchAt(DateToken + digits + rest, 0)
    ensures (DateToken + digits + rest)[|DateToken| .. |DateToken| + 8] == digits
  {
    var url := DateToken + digits + rest;
    assert url[..|DateToken|] == DateToken;
    assert url[|DateToken| .. |DateToken| + 8] == digits;
  }

  lemma OccursBetween(a: string, sub: string, b: string)
    ensures OccursAt(a + sub + b, sub, |a|)
    ensures Contains(a + sub + b, sub)
  {
    assert (a + sub + b)[|a| .. |a| + |sub|] == sub;
    ContainsAt(a + sub + b, sub, |a|);
  }

  lemma NoLetterInDate(d: Date)
    requires ValidDate(d)
    ensures forall c | c in DateToken + FormatBasic(d) :: c != 'y' && c != 'p' && c != 'F'
  {
    var digits := FormatBasic(d);
    forall c | c in DateToken + digits
      ensures c != 'y' && c != 'p' && c != 'F'
    {
      if c in digits {
        var i :| 0 <= i < 8 && digits[i] == c;
        assert IsDigit(digits[i]);
      }
    }
  }

  lemma StudyNameOccurs(head: string)
    ensures Contains(head + "_Full/meta_study_set.xml.gz", "study")
  {
    assert head + "_Full/meta_study_set.xml.gz" == (head + "_Full/meta_") + "study" + "_set.xml.gz";
    OccursBetween(head + "_Full/meta_", "study", "_set.xml.gz");
  }

  lemma FullOccurs(head: string)
    ensures Contains(head + "_Full/meta_study_set.xml.gz", "Full")
  {
    assert head + "_Full/meta_study_set.xml.gz" == (head + "_") + "Full" + "/meta_study_set.xml.gz";
    OccursBetween(head + "_", "Full", "/meta_study_set.xml.gz");
  }

  /** A full-dump study file `NCBI_SRA_Mirroring_YYYYMMDD_Full/meta_study_set.xml.gz`
      parses to a full study entry of that date. */
  lemma FullStudyFile(d: Date)
    requires ValidDate(d)
    ensures ParseEntry(DateToken + FormatBasic(d) + "_Full/meta_study_set.xml.gz")
      == Some(MirrorEntry(DateToken + FormatBasic(d) + "_Full/meta_study_set.xml.gz", Study, true, d, false))
  {
    var head := DateToken + FormatBasic(d);
    TokenAt(head + "_Full/meta_study_set.xml.gz", d, "_Full/meta_study_set.xml.gz");
    StudyNameOccurs(head);
    FullOccurs(head);
  }

  lemma RunSuffixLetters()
    ensures 'y' !in "/meta_run_set.xml.gz" && 'p' !in "/meta_run_set.xml.gz" && 'F' !in "/meta_run_set.xml.gz"
  {
  }

  lemma RunFileNames(head: string)
    requires forall c | c in head :: c != 'y' && c != 'p' && c != 'F'
    ensures !Contains(head + "/meta_run_set.xml.gz", "study")
    ensures !Contains(head + "/meta_run_set.xml.gz", "sample")
    ensures !Contains(head + "/meta_run_set.xml.gz", "experiment")
    ensures !Contains(head + "/meta_run_set.xml.gz", "Full")
    ensures Contains(head + "/meta_run_set.xml.gz", "run")
  {
    var rest := "/meta_run_set.xml.gz";
    var url := head + rest;
    RunSuffixLetters();
    assert 'y' !in url && 'p' !in url && 'F' !in url;
    AbsentCharNotContained(url, "study", 'y');
    AbsentCharNotContained(url, "sample", 'p');
    AbsentCharNotContained(url, "experiment", 'p');
    AbsentCharNotContained(url, "Full", 'F');
    assert url == (head + "/meta_") + "run" + "_set.xml.gz";
    OccursBetween(head + "/meta_", "run", "_set.xml.gz");
  }

  /** An incremental run file `NCBI_SRA_Mirroring_YYYYMMDD/meta_run_set.xml.gz`
      parses to an incremental run entry: none of the earlier entity names and
      no `Full` occur in it. */
  lemma IncrementalRunFile(d: Date)
    requires ValidDate(d)
    ensures ParseEntry(DateToken + FormatBasic(d) + "/meta_run_set.xml.gz")
      == Some(MirrorEntry(DateToken + FormatBasic(d) + "/meta_run_set.xml.gz", Run, false, d, false))
  {
    var head := DateToken + FormatBasic(d);
    TokenAt(head + "/meta_run_set.xml.gz", d, "/meta_run_set.xml.gz");
    NoLetterInDate(d);
    RunFileNames(head);
  }
}
