/** The NCBI BioSample and BioProject extraction: the old `{entity}*.parquet`
    files of the entity's `raw` directory are deleted, then the parser's
    records are written in batches of `batch_size` as `data_1.parquet`,
    `data_2.parquet`, ... The download and the XML parser are not modelled:
    the parser's output is an input sequence. */
module BiosampleExtract {
  import opened Common
  import opened Values
  import opened Store
  import opened Chunking
  import opened ExtractConfig

  const OutputSuffix: string := ".parquet"
  const BiosampleBatchSize: int := 500000
  const BioprojectBatchSize: int := 500000

  /** `output_dir / entity / "raw"` */
  function RawDir(outputDir: Path, entity: string): (d: Path)
    ensures IsUnder(d, outputDir)
  {
    var e := JoinPath(outputDir, entity);
    JoinIsUnder(outputDir, entity);
    JoinIsUnder(e, "raw");
    UnderTransitive(JoinPath(e, "raw"), e, outputDir);
    JoinPath(e, "raw")
  }

  function BatchName(k: nat): string
  {
    "data_" + NatToString(k) + OutputSuffix
  }

  /** `output_dir / f"data_{file_counter}.parquet"`: the counter unpadded. */
  function BatchPath(dir: Path, k: nat): (p: Path)
    ensures IsUnder(p, dir)
  {
    JoinIsUnder(dir, BatchName(k));
    JoinPath(dir, BatchName(k))
  }

  lemma BatchPathInjective(dir: Path, j: nat, k: nat)
    ensures BatchPath(dir, j) == BatchPath(dir, k) <==> j == k
  {
    if BatchPath(dir, j) == BatchPath(dir, k) {
      PrefixCancel(dir + "/", BatchName(j), BatchName(k));
      MiddleEqual("data_", NatToString(j), NatToString(k), OutputSuffix);
      NatToStringInjective(j, k);
    }
  }

  // ---------------------------------------------------------------------------
  // cleanup_old_files
  // ---------------------------------------------------------------------------

  /** `output_dir.glob(f"{entity}*.parquet")` matches `p`: a file directly in
      `dir` whose name starts with the entity and ends with the suffix. */
  predicate MatchesGlob(dir: Path, entity: string, p: Path)
  {
    && IsUnder(p, dir)
    && var name := p[|dir| + 1..];
       && NoSlash(name)
       && |name| >= |entity| + |OutputSuffix|
       && name[..|entity|] == entity
       && name[|name| - |OutputSuffix|..] == OutputSuffix
  }

  function Matches(files: map<Path, File>, dir: Path, entity: string): (m: set<Path>)
    ensures forall p :: p in m <==> p in files && MatchesGlob(dir, entity, p)
  {
    set p | p in files && MatchesGlob(dir, entity, p)
  }

  /** A file directly in `dir` matches `{entity}*.parquet` exactly when its
      name starts with the entity and ends with the suffix, with room for
      both. */
  lemma MatchesGlobName(dir: Path, entity: string, name: string)
    ensures MatchesGlob(dir, entity, JoinPath(dir, name)) <==>
      NoSlash(name) && |name| >= |entity| + |OutputSuffix| &&
      name[..|entity|] == entity && name[|name| - |OutputSuffix|..] == OutputSuffix
  {
    JoinIsUnder(dir, name);
    assert JoinPath(dir, name)[|dir| + 1..] == name;
  }

  /** A file called "old.parquet" is not removed for the entity "biosample":
      the name does not start with the entity name. */
  lemma OldParquetKept(dir: Path)
    ensures !MatchesGlob(dir, "biosample", JoinPath(dir, "old.parquet"))
  {
    MatchesGlobName(dir, "biosample", "old.parquet");
  }

  /** Every matching file may be deleted. */
  predicate CleanupAllowed(files: map<Path, File>, refused: set<Path>, dir: Path, entity: string)
  {
    forall p | p in files && MatchesGlob(dir, entity, p) :: p !in refused
  }

  /** Some matching files are gone and nothing else changed: the state after
      a cleanup, whether or not it raised part-way. */
  predicate OnlyMatchesRemoved(files0: map<Path, File>, files: map<Path, File>, dir: Path, entity: string)
  {
    && (forall p | p in files :: p in files0 && files[p] == files0[p])
    && (forall p | p in files0 && !MatchesGlob(dir, entity, p) :: p in files)
  }

  /** `cleanup_old_files`: unlinks the matching files one by one (in an
      order the model leaves open); the first refused unlink raises. */
  method CleanupOldFiles(store: FileStore, dir: Path, entity: string) returns (ok: bool)
    modifies store
    ensures ok == CleanupAllowed(old(store.files), store.refused, dir, entity)
    ensures ok ==> store.files == old(store.files) - Matches(old(store.files), dir, entity)
    ensures OnlyMatchesRemoved(old(store.files), store.files, dir, entity)
  {
    ghost var files0 := store.files;
    var found := Matches(store.files, dir, entity);
    var remaining := found;
    while remaining != {}
      invariant remaining <= found
      invariant store.files == files0 - (found - remaining)
      invariant forall p | p in found - remaining :: p !in store.refused
      decreases remaining
    {
      var p :| p in remaining;
      var unlinked := store.Unlink(p);
      if !unlinked {
        return false;
      }
      RemoveOneMore(files0, found, remaining, p);
      remaining := remaining - {p};
    }
    ok := true;
  }

  // ---------------------------------------------------------------------------
  // _extract_entity
  // ---------------------------------------------------------------------------

  /** The batch size in effect: `len(batch) >= batch_size` holds after every
      append when the size is below one. */
  function Effective(batchSize: int): (b: nat)
    ensures b >= 1
    ensures batchSize >= 1 ==> b == batchSize
    ensures batchSize < 1 ==> b == 1
  {
    if batchSize < 1 then 1 else batchSize
  }

  /** The files of batches `1 .. n`. */
  function BatchMap(dir: Path, chunks: seq<seq<Record>>, n: nat): map<Path, File>
    requires n <= |chunks|
  {
    if n == 0 then map[] else BatchMap(dir, chunks, n - 1)[BatchPath(dir, n) := Rows(chunks[n - 1])]
  }

  function BatchPaths(dir: Path, n: nat): (ps: seq<Path>)
    ensures |ps| == n && forall k | 0 <= k < n :: ps[k] == BatchPath(dir, k + 1)
  {
    seq(n, k requires 0 <= k < n => BatchPath(dir, k + 1))
  }

  /** The index of the first batch whose file is refused, or `n`. */
  function FirstRefused(refused: set<Path>, dir: Path, from: nat, n: nat): (g: nat)
    requires from <= n
    ensures from <= g <= n
    ensures forall k | from < k <= g :: BatchPath(dir, k) !in refused
    ensures g < n ==> BatchPath(dir, g + 1) in refused
    decreases n - from
  {
    if from == n then n
    else if BatchPath(dir, from + 1) in refused then from
    else FirstRefused(refused, dir, from + 1, n)
  }

  datatype EntityError = CleanupFailed | WriteFailed(fileNumber: nat)

  datatype EntityResult = Extracted(files: seq<Path>) | Failed(error: EntityError)

  /** What the batching returns, the cleanup done: every batch written, or
      the exception of the first file that could not be. */
  function Outcome(refused: set<Path>, dir: Path, chunks: seq<seq<Record>>): EntityResult
  {
    var g := FirstRefused(refused, dir, 0, |chunks|);
    if g < |chunks| then Failed(WriteFailed(g + 1)) else Extracted(BatchPaths(dir, |chunks|))
  }

  /** The files after the batching: the cleaned store plus the batches
      written before the first failure. */
  function OutcomeFiles(files: map<Path, File>, refused: set<Path>, dir: Path, chunks: seq<seq<Record>>): map<Path, File>
  {
    files + BatchMap(dir, chunks, FirstRefused(refused, dir, 0, |chunks|))
  }

  /** `_extract_entity`: the directory is cleaned first, then the records are
      batched; an exception from either step ends the extraction. `objects`
      is `obj_counter`. */
  method ExtractEntity(store: FileStore, outputDir: Path, entity: string, batchSize: int, records: seq<Record>)
    returns (r: EntityResult, objects: nat)
    modifies store
    ensures var dir := RawDir(outputDir, entity);
      !CleanupAllowed(old(store.files), store.refused, dir, entity) ==>
        r == Failed(CleanupFailed) && OnlyMatchesRemoved(old(store.files), store.files, dir, entity)
    ensures var dir := RawDir(outputDir, entity);
      CleanupAllowed(old(store.files), store.refused, dir, entity) ==>
        && r == Outcome(store.refused, dir, Chunks(records, Effective(batchSize)))
        && store.files == OutcomeFiles(old(store.files) - Matches(old(store.files), dir, entity), store.refused, dir,
                                       Chunks(records, Effective(batchSize)))
    ensures r.Extracted? ==> objects == |records|
  {
    var dir := RawDir(outputDir, entity);
    var cleaned := CleanupOldFiles(store, dir, entity);
    if !cleaned {
      return Failed(CleanupFailed), 0;
    }
    r, objects := WriteBatches(store, dir, batchSize, records);
  }

  /** The parse loop with `_write_batch`: a batch is written as soon as it
      holds `batch_size` records, and what is left at the end is written as
      one last batch. */
  method WriteBatches(store: FileStore, dir: Path, batchSize: int, records: seq<Record>)
    returns (r: EntityResult, objects: nat)
    modifies store
    ensures r == Outcome(store.refused, dir, Chunks(records, Effective(batchSize)))
    ensures store.files == OutcomeFiles(old(store.files), store.refused, dir, Chunks(records, Effective(batchSize)))
    ensures r.Extracted? ==> objects == |records|
  {
    ghost var files0 := store.files;
    ghost var b := Effective(batchSize);
    ghost var chunks := Chunks(records, b);
    var objCounter := 0;
    var fileCounter := 1;
    var currentBatch: seq<Record> := [];
    var outputFiles: seq<Path> := [];
    for i := 0 to |records|
      invariant objCounter == i && fileCounter >= 1
      invariant Batched(records, b, fileCounter - 1, i, currentBatch)
      invariant Written(store, files0, dir, chunks, fileCounter - 1, outputFiles)
    {
      var ok;
      ok, currentBatch, fileCounter, outputFiles :=
        AddRecord(store, files0, dir, chunks, b, batchSize, records, i, currentBatch, fileCounter, outputFiles);
      objCounter := objCounter + 1;
      if !ok {
        return Failed(WriteFailed(fileCounter)), objCounter;
      }
    }
    LastChunk(records, b, fileCounter - 1, (fileCounter - 1) * b);
    if |currentBatch| > 0 {
      var ok;
      ok, currentBatch, fileCounter, outputFiles := WriteBatch(store, files0, dir, chunks, currentBatch, fileCounter, outputFiles);
      if !ok {
        FailedAt(store.refused, dir, chunks, fileCounter - 1);
        return Failed(WriteFailed(fileCounter)), objCounter;
      }
    }
    assert fileCounter - 1 == |chunks|;
    r := Extracted(outputFiles);
    objects := objCounter;
  }

  /** One iteration of the parse loop: the record joins the batch, and a
      batch that has reached `batch_size` is written. */
  method AddRecord(store: FileStore, ghost files0: map<Path, File>, dir: Path, ghost chunks: seq<seq<Record>>,
                   ghost b: nat, batchSize: int, records: seq<Record>, i: nat,
                   batch: seq<Record>, fileCounter: nat, outputFiles: seq<Path>)
    returns (ok: bool, batch': seq<Record>, fileCounter': nat, outputFiles': seq<Path>)
    requires b == Effective(batchSize) && chunks == Chunks(records, b) && i < |records| && fileCounter >= 1
    requires Batched(records, b, fileCounter - 1, i, batch)
    requires Written(store, files0, dir, chunks, fileCounter - 1, outputFiles)
    modifies store
    ensures ok ==> fileCounter' >= 1 && Batched(records, b, fileCounter' - 1, i + 1, batch')
                   && Written(store, files0, dir, chunks, fileCounter' - 1, outputFiles')
    ensures !ok ==> fileCounter' == fileCounter && fileCounter - 1 < |chunks| && store.files == old(store.files)
                    && FirstRefused(store.refused, dir, 0, |chunks|) == fileCounter - 1
  {
    var obj := records[i];
    batch' := batch + [obj];
    BatchGrows(records, b, fileCounter - 1, i, batch, batchSize);
    fileCounter' := fileCounter;
    outputFiles' := outputFiles;
    ok := true;
    if |batch'| >= batchSize {
      ok, batch', fileCounter', outputFiles' := WriteBatch(store, files0, dir, chunks, batch', fileCounter, outputFiles);
      if !ok {
        FailedAt(store.refused, dir, chunks, fileCounter - 1);
      }
    }
  }

  /** One more record joins the batch: it reaches `batch_size` exactly when
      it has `b` records, and then it is piece `part` of the chunking and the
      next batch starts empty; otherwise it stays open. */
  lemma BatchGrows(records: seq<Record>, b: nat, part: nat, i: nat, batch: seq<Record>, batchSize: int)
    requires b == Effective(batchSize) && Batched(records, b, part, i, batch) && i < |records|
    ensures var batch' := batch + [records[i]];
      && (|batch'| >= batchSize <==> i + 1 == part * b + b)
      && (|batch'| < batchSize ==> Batched(records, b, part, i + 1, batch'))
      && (|batch'| >= batchSize ==>
            part < |Chunks(records, b)| && batch' == Chunks(records, b)[part] && Batched(records, b, part + 1, i + 1, []))
  {
    var start := part * b;
    SliceOneMore(records, start, i);
    if i + 1 == start + b {
      FullChunk(records, b, part, start);
    }
  }

  /** The batch holds records `part * b .. i-1`, fewer than `b` of them. */
  ghost predicate Batched(records: seq<Record>, b: nat, part: nat, i: nat, batch: seq<Record>)
  {
    b >= 1 && part * b <= i < part * b + b && i <= |records| && batch == records[part * b .. i]
  }

  /** Batches `1 .. part` are written and none was refused. */
  ghost predicate Written(store: FileStore, files0: map<Path, File>, dir: Path, chunks: seq<seq<Record>>, part: nat,
                          outputFiles: seq<Path>)
    reads store
  {
    && part <= |chunks|
    && (forall k | 1 <= k <= part :: BatchPath(dir, k) !in store.refused)
    && outputFiles == BatchPaths(dir, part)
    && store.files == files0 + BatchMap(dir, chunks, part)
  }

  /** `_write_batch` on a non-empty batch: the file of batch `fileCounter`
      is written, the batch emptied and the counter advanced; a refused write
      raises with nothing changed. */
  method WriteBatch(store: FileStore, ghost files0: map<Path, File>, dir: Path, ghost chunks: seq<seq<Record>>,
                    batch: seq<Record>, fileCounter: nat, outputFiles: seq<Path>)
    returns (ok: bool, batch': seq<Record>, fileCounter': nat, outputFiles': seq<Path>)
    requires fileCounter >= 1 && Written(store, files0, dir, chunks, fileCounter - 1, outputFiles)
    requires fileCounter - 1 < |chunks| && batch == chunks[fileCounter - 1]
    modifies store
    ensures ok == (BatchPath(dir, fileCounter) !in store.refused)
    ensures !ok ==> fileCounter' == fileCounter && store.files == old(store.files)
    ensures ok ==> batch' == [] && fileCounter' == fileCounter + 1
    ensures ok ==> Written(store, files0, dir, chunks, fileCounter, outputFiles')
  {
    var outputPath := BatchPath(dir, fileCounter);
    ok := store.Write(outputPath, Rows(batch));
    if !ok {
      return ok, batch, fileCounter, outputFiles;
    }
    UnionUpdate(files0, BatchMap(dir, chunks, fileCounter - 1), outputPath, Rows(batch));
    outputFiles' := outputFiles + [outputPath];
    batch' := [];
    fileCounter' := fileCounter + 1;
  }

  /** The first refused batch file decides the outcome. */
  lemma FailedAt(refused: set<Path>, dir: Path, chunks: seq<seq<Record>>, g: nat)
    requires g < |chunks|
    requires forall k | 1 <= k <= g :: BatchPath(dir, k) !in refused
    requires BatchPath(dir, g + 1) in refused
    ensures FirstRefused(refused, dir, 0, |chunks|) == g
  {
  }

  // ---------------------------------------------------------------------------
  // What a run leaves behind
  // ---------------------------------------------------------------------------

  lemma {:induction false} BatchMapKeys(dir: Path, chunks: seq<seq<Record>>, n: nat)
    requires n <= |chunks|
    ensures forall p :: p in BatchMap(dir, chunks, n) <==> exists k | 1 <= k <= n :: p == BatchPath(dir, k)
  {
    if n > 0 {
      BatchMapKeys(dir, chunks, n - 1);
      forall p
        ensures p in BatchMap(dir, chunks, n) <==> exists k | 1 <= k <= n :: p == BatchPath(dir, k)
      {
        if exists k | 1 <= k <= n :: p == BatchPath(dir, k) {
          var k :| 1 <= k <= n && p == BatchPath(dir, k);
          if k < n {
            assert p in BatchMap(dir, chunks, n - 1);
          }
        }
      }
    }
  }

  lemma {:induction false} BatchMapValues(dir: Path, chunks: seq<seq<Record>>, n: nat)
    requires n <= |chunks|
    ensures forall k | 1 <= k <= n :: BatchPath(dir, k) in BatchMap(dir, chunks, n)
                                      && BatchMap(dir, chunks, n)[BatchPath(dir, k)] == Rows(chunks[k - 1])
  {
    if n > 0 {
      var m := BatchMap(dir, chunks, n - 1);
      BatchMapValues(dir, chunks, n - 1);
      forall k | 1 <= k < n
        ensures BatchPath(dir, k) in BatchMap(dir, chunks, n)
        ensures BatchMap(dir, chunks, n)[BatchPath(dir, k)] == Rows(chunks[k - 1])
      {
        BatchPathInjective(dir, k, n);
        UpdateOther(m, BatchPath(dir, n), BatchPath(dir, k), Rows(chunks[n - 1]));
      }
    }
  }

  /** A successful extraction stores every parsed record exactly once, in
      order: read back file by file the batches give the records; there are
      `ceil(n / batch_size)` files, each but the last holding exactly
      `batch_size` records. */
  lemma ExtractedStoresEverything(files: map<Path, File>, refused: set<Path>, dir: Path, batchSize: int, records: seq<Record>)
    requires Outcome(refused, dir, Chunks(records, Effective(batchSize))).Extracted?
    ensures var b := Effective(batchSize);
      var paths := Outcome(refused, dir, Chunks(records, b)).files;
      var stored := StoredRows(OutcomeFiles(files, refused, dir, Chunks(records, b)), paths);
      && paths == BatchPaths(dir, CeilDiv(|records|, b))
      && Flatten(stored) == records
      && (forall k | 0 <= k < |stored| :: 1 <= |stored[k]| <= b)
      && (forall k | 0 <= k < |stored| - 1 :: |stored[k]| == b)
  {
    var b := Effective(batchSize);
    var chunks := Chunks(records, b);
    CeilCount(records, b);
    ExtractedStoresChunks(files, refused, dir, chunks);
    ChunkSizes(records, b);
    FlattenChunks(records, b);
  }

  /** When no batch file was refused, the result lists one file per piece
      and reading them back in that order gives the pieces. */
  lemma ExtractedStoresChunks(files: map<Path, File>, refused: set<Path>, dir: Path, chunks: seq<seq<Record>>)
    requires Outcome(refused, dir, chunks).Extracted?
    ensures Outcome(refused, dir, chunks).files == BatchPaths(dir, |chunks|)
    ensures StoredRows(OutcomeFiles(files, refused, dir, chunks), BatchPaths(dir, |chunks|)) == chunks
  {
    var n := |chunks|;
    assert FirstRefused(refused, dir, 0, n) == n;
    assert OutcomeFiles(files, refused, dir, chunks) == files + BatchMap(dir, chunks, n);
    BatchMapValues(dir, chunks, n);
  }

  /** The batch files never match `{entity}*.parquet` for an entity whose
      name does not begin with a `d`, so the cleanup does not remove them: a
      run that writes fewer batches than the run before it leaves the older
      run's higher-numbered files in place, unchanged. */
  lemma StaleBatchesSurvive(files: map<Path, File>, refused: set<Path>, dir: Path, entity: string,
                            chunks: seq<seq<Record>>, k: nat)
    requires |entity| > 0 && entity[0] != 'd'
    requires BatchPath(dir, k) in files && k > |chunks|
    ensures !MatchesGlob(dir, entity, BatchPath(dir, k))
    ensures var after := OutcomeFiles(files - Matches(files, dir, entity), refused, dir, chunks);
      BatchPath(dir, k) in after && after[BatchPath(dir, k)] == files[BatchPath(dir, k)]
  {
    var p := BatchPath(dir, k);
    assert p[|dir| + 1..] == BatchName(k);
    assert BatchName(k)[0] == 'd';
    var g := FirstRefused(refused, dir, 0, |chunks|);
    BatchMapKeys(dir, chunks, g);
    forall j | 1 <= j <= g
      ensures p != BatchPath(dir, j)
    {
      BatchPathInjective(dir, j, k);
    }
  }

  /** The cleanup removes exactly the matching files: every other file is
      kept with its contents. */
  lemma CleanupKeepsOthers(files: map<Path, File>, dir: Path, entity: string)
    ensures forall p | p in files && !MatchesGlob(dir, entity, p) ::
      p in files - Matches(files, dir, entity) && (files - Matches(files, dir, entity))[p] == files[p]
    ensures forall p | p in files && MatchesGlob(dir, entity, p) :: p !in files - Matches(files, dir, entity)
  {
  }

  // ---------------------------------------------------------------------------
  // extract_all
  // ---------------------------------------------------------------------------

  datatype AllResult =
    | AllExtracted(results: map<string, seq<Path>>)
    | AllFailed(entity: string, error: EntityError)

  /** `extract_all`: bioproject first, then biosample, each into its own
      `raw` directory; an exception from the first stops the run before the
      second. */
  method ExtractAll(store: FileStore, outputDir: Path, bioprojects: seq<Record>, biosamples: seq<Record>)
    returns (r: AllResult)
    modifies store
    ensures var d1 := RawDir(outputDir, "bioproject");
      var d2 := RawDir(outputDir, "biosample");
      var c1 := Chunks(bioprojects, BioprojectBatchSize);
      var c2 := Chunks(biosamples, BiosampleBatchSize);
      var cleaned1 := old(store.files) - Matches(old(store.files), d1, "bioproject");
      var f1 := OutcomeFiles(cleaned1, store.refused, d1, c1);
      var r1 := Outcome(store.refused, d1, c1);
      var r2 := Outcome(store.refused, d2, c2);
      if !CleanupAllowed(old(store.files), store.refused, d1, "bioproject") then
        r == AllFailed("bioproject", CleanupFailed) && OnlyMatchesRemoved(old(store.files), store.files, d1, "bioproject")
      else if r1.Failed? then
        r == AllFailed("bioproject", r1.error) && store.files == f1
      else if !CleanupAllowed(f1, store.refused, d2, "biosample") then
        r == AllFailed("biosample", CleanupFailed) && OnlyMatchesRemoved(f1, store.files, d2, "biosample")
      else if r2.Failed? then
        r == AllFailed("biosample", r2.error)
        && store.files == OutcomeFiles(f1 - Matches(f1, d2, "biosample"), store.refused, d2, c2)
      else
        r == AllExtracted(map["bioproject" := r1.files, "biosample" := r2.files])
        && store.files == OutcomeFiles(f1 - Matches(f1, d2, "biosample"), store.refused, d2, c2)
  {
    var projects, _ := ExtractEntity(store, outputDir, "bioproject", BioprojectBatchSize, bioprojects);
    if projects.Failed? {
      return AllFailed("bioproject", projects.error);
    }
    var samples, _ := ExtractEntity(store, outputDir, "biosample", BiosampleBatchSize, biosamples);
    if samples.Failed? {
      return AllFailed("biosample", samples.error);
    }
    r := AllExtracted(map["bioproject" := projects.files, "biosample" := samples.files]);
  }
}
