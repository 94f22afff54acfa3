/** Writing one SRA mirror file as numbered parquet parts of at most
    2,500,000 records: records are normalised, buffered, and each full buffer
    (and the remainder at the end of the stream) is converted against the
    entity's schema, staged in a local temporary file, copied to
    `{out_dir}/{basename}_{part:05d}.parquet`, and the staging file removed. */
module MirrorParquet {
  import opened Common
  import opened Values
  import opened Store
  import opened Chunking
  import SraSchema

  const ChunkSize: nat := 2500000

  /** The records the parser yields for a mirror URL; `complete` is false when
      reading stops with an error (network, gzip or XML) after those records. */
  datatype RecordStream = RecordStream(records: seq<Record>, complete: bool)

  type Normalizer = (Record, Schema) -> Record

  datatype PartError =
    | SchemaMismatch(part: nat)   // `Table.from_pylist` rejected the buffer
    | WriteFailed(part: nat)      // staging or copying the part failed
    | StreamFailed                // the record stream raised

  datatype PartsResult = Written(paths: seq<Path>) | Failed(error: PartError)

  function PartName(basename: string, k: nat): string
  {
    basename + "_" + PadNumber(k, 5) + ".parquet"
  }

  function PartPath(outDir: Path, basename: string, k: nat): (p: Path)
    ensures IsUnder(p, outDir)
  {
    JoinIsUnder(outDir, PartName(basename, k));
    JoinPath(outDir, PartName(basename, k))
  }

  /** Distinct part numbers give distinct files. */
  lemma PartPathInjective(outDir: Path, basename: string, j: nat, k: nat)
    ensures PartPath(outDir, basename, j) == PartPath(outDir, basename, k) ==> j == k
  {
    var pj, pk := PadNumber(j, 5), PadNumber(k, 5);
    if PartPath(outDir, basename, j) == PartPath(outDir, basename, k) {
      var head := outDir + "/" + basename + "_";
      assert PartPath(outDir, basename, j) == head + pj + ".parquet";
      assert PartPath(outDir, basename, k) == head + pk + ".parquet";
      MiddleEqual(head, pj, pk, ".parquet");
      PadNumberInjective(j, k, 5);
    }
  }

  // ---------------------------------------------------------------------------
  // Tables
  // ---------------------------------------------------------------------------

  /** The row a record becomes in a table with this schema: one value per
      column, null where the record lacks the field, other fields dropped. */
  function Project(r: Record, schema: Schema): (row: Record)
    ensures forall name :: name in row <==> name in FieldNames(schema)
  {
    map name | name in FieldNames(schema) :: if name in r then r[name] else Null
  }

  function Table(rows: seq<Record>, schema: Schema): (t: seq<Record>)
    ensures |t| == |rows| && forall i | 0 <= i < |rows| :: t[i] == Project(rows[i], schema)
  {
    seq(|rows|, i requires 0 <= i < |rows| => Project(rows[i], schema))
  }

  lemma TableAppend(a: seq<Record>, b: seq<Record>, schema: Schema)
    ensures Table(a + b, schema) == Table(a, schema) + Table(b, schema)
  {
  }

  function Normalized(records: seq<Record>, normalize: Option<Normalizer>, schema: Schema): (r: seq<Record>)
    ensures |r| == |records|
    ensures forall i | 0 <= i < |records| :: r[i] == if normalize.Some? then normalize.value(records[i], schema) else records[i]
  {
    seq(|records|, i requires 0 <= i < |records| =>
      if normalize.Some? then normalize.value(records[i], schema) else records[i])
  }

  // ---------------------------------------------------------------------------
  // The expected outcome
  // ---------------------------------------------------------------------------

  /** Where one run writes: output directory, part basename, schema and the
      local staging file. */
  datatype Target = Target(outDir: Path, basename: string, schema: Schema, tmp: Path)

  /** Part `k` holding `chunk` can be written. */
  predicate Writable(refused: set<Path>, t: Target, chunk: seq<Record>, k: nat)
  {
    AllConform(chunk, t.schema) && t.tmp !in refused && PartPath(t.outDir, t.basename, k) !in refused
  }

  /** The first part from `from` on that cannot be written, or `limit`. */
  function FirstFailure(refused: set<Path>, t: Target, chunks: seq<seq<Record>>, from: nat, limit: nat): (g: nat)
    requires from <= limit <= |chunks|
    ensures from <= g <= limit
    ensures forall k | from <= k < g :: Writable(refused, t, chunks[k], k)
    ensures g < limit ==> !Writable(refused, t, chunks[g], g)
    decreases limit - from
  {
    if from == limit then limit
    else if !Writable(refused, t, chunks[from], from) then from
    else FirstFailure(refused, t, chunks, from + 1, limit)
  }

  /** How many chunks are flushed: all of them when the stream completes, only
      the full ones (flushed inside the loop) when it raises. */
  function Attempted(recs: seq<Record>, complete: bool): (n: nat)
    ensures n <= |Chunks(recs, ChunkSize)|
  {
    ChunkCount(recs, ChunkSize);
    if complete then |Chunks(recs, ChunkSize)| else |recs| / ChunkSize
  }

  function PartPaths(t: Target, n: nat): (ps: seq<Path>)
    ensures |ps| == n && forall k | 0 <= k < n :: ps[k] == PartPath(t.outDir, t.basename, k)
  {
    seq(n, k requires 0 <= k < n => PartPath(t.outDir, t.basename, k))
  }

  /** The parts `0 .. n-1`, each holding its chunk as a table. */
  function PartsMap(t: Target, chunks: seq<seq<Record>>, n: nat): map<Path, File>
    requires n <= |chunks|
  {
    if n == 0 then map[]
    else PartsMap(t, chunks, n - 1)[PartPath(t.outDir, t.basename, n - 1) := Rows(Table(chunks[n - 1], t.schema))]
  }

  function Outcome(refused: set<Path>, t: Target, recs: seq<Record>, complete: bool): PartsResult
  {
    var chunks := Chunks(recs, ChunkSize);
    var limit := Attempted(recs, complete);
    var g := FirstFailure(refused, t, chunks, 0, limit);
    if g < limit then
      Failed(if !AllConform(chunks[g], t.schema) then SchemaMismatch(g) else WriteFailed(g))
    else if !complete then Failed(StreamFailed)
    else Written(PartPaths(t, g))
  }

  function OutcomeFiles(files: map<Path, File>, refused: set<Path>, t: Target, recs: seq<Record>, complete: bool): map<Path, File>
  {
    var chunks := Chunks(recs, ChunkSize);
    files + PartsMap(t, chunks, FirstFailure(refused, t, chunks, 0, Attempted(recs, complete)))
  }

  // ---------------------------------------------------------------------------
  // The writer
  // ---------------------------------------------------------------------------

  /** The inner `flush()`: nothing for an empty buffer; otherwise convert,
      stage, copy, always drop the staging file, then advance the part number
      and clear the buffer. A failure leaves the part number and the buffer as
      they were (the exception escapes before they change). */
  method Flush(store: FileStore, t: Target, buf: seq<Record>, part: nat, written: seq<Path>)
    returns (err: Option<PartError>, part': nat, written': seq<Path>, buf': seq<Record>)
    requires t.tmp !in store.files && !AtOrUnder(t.tmp, t.outDir)
    modifies store
    ensures t.tmp !in store.files
    ensures |buf| == 0 ==> err.None? && store.files == old(store.files)
    ensures |buf| > 0 ==> err == if !AllConform(buf, t.schema) then Some(SchemaMismatch(part))
                                 else if !Writable(store.refused, t, buf, part) then Some(WriteFailed(part))
                                 else None
    ensures err.Some? ==> store.files == old(store.files) && part' == part
    ensures err.None? && |buf| > 0 ==>
      store.files == old(store.files)[PartPath(t.outDir, t.basename, part) := Rows(Table(buf, t.schema))]
    ensures err.None? ==> part' == (if |buf| > 0 then part + 1 else part)
    ensures err.None? ==> written' == written + (if |buf| > 0 then [PartPath(t.outDir, t.basename, part)] else [])
    ensures err.None? ==> buf' == []
  {
    part', written', buf' := part, written, buf;
    if |buf| == 0 {
      return None, part', written', buf';
    }
    if !AllConform(buf, t.schema) {
      return Some(SchemaMismatch(part)), part', written', buf';
    }
    var table := Table(buf, t.schema);
    var outPath := PartPath(t.outDir, t.basename, part);
    var staged := store.Write(t.tmp, Rows(table));
    if !staged {
      return Some(WriteFailed(part)), part', written', buf';
    }
    var copied := store.Copy(t.tmp, outPath);
    var removed := store.Unlink(t.tmp);
    if !copied {
      assert store.files == old(store.files);
      return Some(WriteFailed(part)), part', written', buf';
    }
    assert store.files == old(store.files)[outPath := Rows(table)];
    written' := written + [outPath];
    part' := part + 1;
    buf' := [];
    err := None;
  }

  /** `process_mirror_entry_to_parquet_parts`: the schema is looked up by
      entity name (empty for an unknown name); `tmp` is the local staging
      file the temporary-file factory hands out. */
  method ProcessMirrorEntryToParquetParts(
    store: FileStore, stream: RecordStream, outDir: Path, entity: string,
    normalize: Option<Normalizer>, basename: string, tmp: Path)
    returns (r: PartsResult)
    requires tmp !in store.files && !AtOrUnder(tmp, outDir)
    modifies store
    ensures r == Outcome(store.refused, Target(outDir, basename, SraSchema.GetSchema(entity), tmp),
                         Normalized(stream.records, normalize, SraSchema.GetSchema(entity)), stream.complete)
    ensures store.files == OutcomeFiles(old(store.files), store.refused, Target(outDir, basename, SraSchema.GetSchema(entity), tmp),
                                        Normalized(stream.records, normalize, SraSchema.GetSchema(entity)), stream.complete)
  {
    var schema := SraSchema.GetSchema(entity);
    r := WriteParts(store, stream, Target(outDir, basename, schema, tmp), normalize);
  }

  /** The buffering loop and the final flush, once the schema is known. */
  method WriteParts(store: FileStore, stream: RecordStream, t: Target, normalize: Option<Normalizer>)
    returns (r: PartsResult)
    requires t.tmp !in store.files && !AtOrUnder(t.tmp, t.outDir)
    modifies store
    ensures r == Outcome(store.refused, t, Normalized(stream.records, normalize, t.schema), stream.complete)
    ensures store.files == OutcomeFiles(old(store.files), store.refused, t, Normalized(stream.records, normalize, t.schema), stream.complete)
  {
    ghost var recs := Normalized(stream.records, normalize, t.schema);
    ghost var files0 := store.files;
    var stop, buf, part, written := BufferRecords(store, stream, t, normalize);
    if stop.Some? {
      return Failed(stop.value);
    }
    if !stream.complete {
      OutcomeStreamFailed(files0, store.refused, t, recs, part);
      return Failed(StreamFailed);
    }
    LastChunk(recs, ChunkSize, part, part * ChunkSize);
    assert buf == recs[part * ChunkSize ..];
    if |buf| > 0 {
      var err;
      err, part, written, buf := FlushChunk(store, files0, t, Chunks(recs, ChunkSize), buf, part, written);
      if err.Some? {
        OutcomeFailedAt(files0, store.refused, t, recs, true, part);
        return Failed(err.value);
      }
    }
    OutcomeWritten(files0, store.refused, t, recs, part);
    r := Written(written);
  }

  /** The loop over the stream: every full buffer is flushed as it fills. It
      stops at the first failed flush, whose outcome is then final; otherwise
      it leaves the parts of all full chunks written and the remainder in the
      buffer. */
  method BufferRecords(store: FileStore, stream: RecordStream, t: Target, normalize: Option<Normalizer>)
    returns (stop: Option<PartError>, buf: seq<Record>, part: nat, written: seq<Path>)
    requires t.tmp !in store.files && !AtOrUnder(t.tmp, t.outDir)
    modifies store
    ensures stop.Some? ==>
      && Outcome(store.refused, t, Normalized(stream.records, normalize, t.schema), stream.complete) == Failed(stop.value)
      && store.files == OutcomeFiles(old(store.files), store.refused, t, Normalized(stream.records, normalize, t.schema), stream.complete)
    ensures stop.None? ==>
      var recs := Normalized(stream.records, normalize, t.schema);
      && Progress(store, old(store.files), t, Chunks(recs, ChunkSize), part, written)
      && Buffered(recs, part, |recs|, buf)
  {
    var schema := t.schema;
    ghost var recs := Normalized(stream.records, normalize, schema);
    ghost var files0 := store.files;

    buf, part, written := [], 0, [];
    var i := 0;
    while i < |stream.records|
      invariant 0 <= i <= |stream.records|
      invariant Buffered(recs, part, i, buf)
      invariant Progress(store, files0, t, Chunks(recs, ChunkSize), part, written)
    {
      var rec := stream.records[i];
      if normalize.Some? {
        rec := normalize.value(rec, schema);
      }
      stop, buf, part, written := Accept(store, files0, t, recs, stream.complete, rec, i, buf, part, written);
      if stop.Some? {
        return;
      }
      i := i + 1;
    }
    stop := None;
  }

  /** The buffer holds records `part * ChunkSize .. i-1`, fewer than a chunk. */
  ghost predicate Buffered(recs: seq<Record>, part: nat, i: nat, buf: seq<Record>)
  {
    part * ChunkSize <= i < part * ChunkSize + ChunkSize && i <= |recs| && buf == recs[part * ChunkSize .. i]
  }

  /** One turn of the loop: append record `i` and flush when the buffer is
      full. */
  method Accept(store: FileStore, ghost files0: map<Path, File>, t: Target, ghost recs: seq<Record>, ghost complete: bool,
                rec: Record, ghost i: nat, buf: seq<Record>, part: nat, written: seq<Path>)
    returns (stop: Option<PartError>, buf': seq<Record>, part': nat, written': seq<Path>)
    requires i < |recs| && rec == recs[i]
    requires Buffered(recs, part, i, buf)
    requires Progress(store, files0, t, Chunks(recs, ChunkSize), part, written)
    modifies store
    ensures stop.Some? ==>
      && Outcome(store.refused, t, recs, complete) == Failed(stop.value)
      && store.files == OutcomeFiles(files0, store.refused, t, recs, complete)
    ensures stop.None? ==>
      Buffered(recs, part', i + 1, buf') && Progress(store, files0, t, Chunks(recs, ChunkSize), part', written')
  {
    var start := part * ChunkSize;
    SliceOneMore(recs, start, i);
    stop, buf', part', written' := None, buf + [rec], part, written;
    if |buf'| >= ChunkSize {
      FullChunk(recs, ChunkSize, part, start);
      stop, part', written', buf' := FlushChunk(store, files0, t, Chunks(recs, ChunkSize), buf', part, written);
      if stop.Some? {
        OutcomeFailedAt(files0, store.refused, t, recs, complete, part);
      }
    }
  }

  /** Parts `0 .. part-1` are written and none failed. */
  ghost predicate Progress(store: FileStore, files0: map<Path, File>, t: Target, chunks: seq<seq<Record>>, part: nat, written: seq<Path>)
    reads store
  {
    && part <= |chunks|
    && FirstFailure(store.refused, t, chunks, 0, part) == part
    && written == PartPaths(t, part)
    && store.files == files0 + PartsMap(t, chunks, part)
    && t.tmp !in store.files
    && !AtOrUnder(t.tmp, t.outDir)
  }

  /** Flushing chunk `part`: either it fails and nothing changes, or the
      progress moves on by one part. */
  method FlushChunk(store: FileStore, ghost files0: map<Path, File>, t: Target, ghost chunks: seq<seq<Record>>,
                    buf: seq<Record>, part: nat, written: seq<Path>)
    returns (err: Option<PartError>, part': nat, written': seq<Path>, buf': seq<Record>)
    requires Progress(store, files0, t, chunks, part, written)
    requires part < |chunks| && buf == chunks[part] && |buf| > 0
    modifies store
    ensures err.Some? ==> part' == part && Progress(store, files0, t, chunks, part, written)
    ensures err.Some? ==> !Writable(store.refused, t, chunks[part], part)
    ensures err.Some? ==> err.value == if !AllConform(chunks[part], t.schema) then SchemaMismatch(part) else WriteFailed(part)
    ensures err.None? ==> part' == part + 1 && buf' == [] && Progress(store, files0, t, chunks, part + 1, written')
  {
    err, part', written', buf' := Flush(store, t, buf, part, written);
    if err.None? {
      Advance(files0, store.refused, t, chunks, part);
    }
  }

  /** One more part written: the bookkeeping moves on by one. */
  lemma Advance(files: map<Path, File>, refused: set<Path>, t: Target, chunks: seq<seq<Record>>, n: nat)
    requires n < |chunks|
    requires FirstFailure(refused, t, chunks, 0, n) == n
    requires Writable(refused, t, chunks[n], n)
    ensures FirstFailure(refused, t, chunks, 0, n + 1) == n + 1
    ensures PartPaths(t, n + 1) == PartPaths(t, n) + [PartPath(t.outDir, t.basename, n)]
    ensures files + PartsMap(t, chunks, n + 1)
      == (files + PartsMap(t, chunks, n))[PartPath(t.outDir, t.basename, n) := Rows(Table(chunks[n], t.schema))]
  {
    FirstFailureGrow(refused, t, chunks, n);
  }

  lemma OutcomeFailedAt(files: map<Path, File>, refused: set<Path>, t: Target, recs: seq<Record>, complete: bool, g: nat)
    requires g < Attempted(recs, complete)
    requires FirstFailure(refused, t, Chunks(recs, ChunkSize), 0, g) == g
    requires !Writable(refused, t, Chunks(recs, ChunkSize)[g], g)
    ensures Outcome(refused, t, recs, complete) ==
      Failed(if !AllConform(Chunks(recs, ChunkSize)[g], t.schema) then SchemaMismatch(g) else WriteFailed(g))
    ensures OutcomeFiles(files, refused, t, recs, complete) == files + PartsMap(t, Chunks(recs, ChunkSize), g)
  {
    FirstFailureAt(refused, t, Chunks(recs, ChunkSize), g, Attempted(recs, complete));
  }

  lemma OutcomeStreamFailed(files: map<Path, File>, refused: set<Path>, t: Target, recs: seq<Record>, n: nat)
    requires n * ChunkSize <= |recs| < n * ChunkSize + ChunkSize
    requires n <= |Chunks(recs, ChunkSize)|
    requires FirstFailure(refused, t, Chunks(recs, ChunkSize), 0, n) == n
    ensures Outcome(refused, t, recs, false) == Failed(StreamFailed)
    ensures OutcomeFiles(files, refused, t, recs, false) == files + PartsMap(t, Chunks(recs, ChunkSize), n)
  {
    assert |recs| / ChunkSize == n;
  }

  lemma OutcomeWritten(files: map<Path, File>, refused: set<Path>, t: Target, recs: seq<Record>, n: nat)
    requires n == |Chunks(recs, ChunkSize)|
    requires FirstFailure(refused, t, Chunks(recs, ChunkSize), 0, n) == n
    ensures Outcome(refused, t, recs, true) == Written(PartPaths(t, n))
    ensures OutcomeFiles(files, refused, t, recs, true) == files + PartsMap(t, Chunks(recs, ChunkSize), n)
  {
  }

  lemma FirstFailureAt(refused: set<Path>, t: Target, chunks: seq<seq<Record>>, g: nat, limit: nat)
    requires g <= limit <= |chunks|
    requires FirstFailure(refused, t, chunks, 0, g) == g
    requires g < limit ==> !Writable(refused, t, chunks[g], g)
    ensures FirstFailure(refused, t, chunks, 0, limit) == g
  {
  }

  lemma FirstFailureGrow(refused: set<Path>, t: Target, chunks: seq<seq<Record>>, k: nat)
    requires k < |chunks|
    requires FirstFailure(refused, t, chunks, 0, k) == k
    requires Writable(refused, t, chunks[k], k)
    ensures FirstFailure(refused, t, chunks, 0, k + 1) == k + 1
  {
  }

  // ---------------------------------------------------------------------------
  // What a run leaves behind
  // ---------------------------------------------------------------------------

  /** The parts written are exactly the files `0 .. n-1`, part `k` holding
      chunk `k`, all inside the output directory. */
  lemma PartsMapContents(t: Target, chunks: seq<seq<Record>>, n: nat)
    requires n <= |chunks|
    ensures forall p :: p in PartsMap(t, chunks, n) <==> exists k | 0 <= k < n :: p == PartPath(t.outDir, t.basename, k)
    ensures forall k | 0 <= k < n :: PartsMap(t, chunks, n)[PartPath(t.outDir, t.basename, k)] == Rows(Table(chunks[k], t.schema))
    ensures forall p | p in PartsMap(t, chunks, n) :: IsUnder(p, t.outDir)
  {
    PartsMapKeys(t, chunks, n);
    PartsMapValues(t, chunks, n);
  }

  lemma {:induction false} PartsMapKeys(t: Target, chunks: seq<seq<Record>>, n: nat)
    requires n <= |chunks|
    ensures forall p :: p in PartsMap(t, chunks, n) <==> exists k | 0 <= k < n :: p == PartPath(t.outDir, t.basename, k)
  {
    if n > 0 {
      PartsMapKeys(t, chunks, n - 1);
      forall p
        ensures p in PartsMap(t, chunks, n) <==> exists k | 0 <= k < n :: p == PartPath(t.outDir, t.basename, k)
      {
        if exists k | 0 <= k < n :: p == PartPath(t.outDir, t.basename, k) {
          var k :| 0 <= k < n && p == PartPath(t.outDir, t.basename, k);
          if k < n - 1 {
            assert p in PartsMap(t, chunks, n - 1);
          }
        }
      }
    }
  }

  lemma {:induction false} PartsMapValues(t: Target, chunks: seq<seq<Record>>, n: nat)
    requires n <= |chunks|
    ensures forall k | 0 <= k < n ::
      && PartPath(t.outDir, t.basename, k) in PartsMap(t, chunks, n)
      && PartsMap(t, chunks, n)[PartPath(t.outDir, t.basename, k)] == Rows(Table(chunks[k], t.schema))
  {
    if n > 0 {
      var m := PartsMap(t, chunks, n - 1);
      var last := PartPath(t.outDir, t.basename, n - 1);
      assert PartsMap(t, chunks, n) == m[last := Rows(Table(chunks[n - 1], t.schema))];
      PartsMapValues(t, chunks, n - 1);
      forall k | 0 <= k < n - 1
        ensures PartPath(t.outDir, t.basename, k) in PartsMap(t, chunks, n)
        ensures PartsMap(t, chunks, n)[PartPath(t.outDir, t.basename, k)] == Rows(Table(chunks[k], t.schema))
      {
        PartPathInjective(t.outDir, t.basename, k, n - 1);
        UpdateOther(m, last, PartPath(t.outDir, t.basename, k), Rows(Table(chunks[n - 1], t.schema)));
      }
    }
  }

  /** A run only ever adds or replaces part files inside the output
      directory. */
  lemma OnlyOutputDirChanges(files: map<Path, File>, refused: set<Path>, t: Target, recs: seq<Record>, complete: bool)
    ensures forall p | p in files && !IsUnder(p, t.outDir) ::
      p in OutcomeFiles(files, refused, t, recs, complete) && OutcomeFiles(files, refused, t, recs, complete)[p] == files[p]
    ensures forall p | p in OutcomeFiles(files, refused, t, recs, complete) :: p in files || IsUnder(p, t.outDir)
  {
    var chunks := Chunks(recs, ChunkSize);
    PartsMapContents(t, chunks, FirstFailure(refused, t, chunks, 0, Attempted(recs, complete)));
  }

  /** A successful run stores every normalised record exactly once, in order:
      read back part by part, the parts give the table of all records; there
      is one part per 2,500,000 records (rounded up), each but the last full. */
  lemma SuccessStoresEverything(files: map<Path, File>, refused: set<Path>, t: Target, recs: seq<Record>)
    requires Outcome(refused, t, recs, true).Written?
    ensures var paths := Outcome(refused, t, recs, true).paths;
      var stored := StoredRows(OutcomeFiles(files, refused, t, recs, true), paths);
      && |paths| == |Chunks(recs, ChunkSize)|
      && Flatten(stored) == Table(recs, t.schema)
      && (forall k | 0 <= k < |stored| :: 1 <= |stored[k]| <= ChunkSize)
      && (forall k | 0 <= k < |stored| - 1 :: |stored[k]| == ChunkSize)
  {
    var chunks := Chunks(recs, ChunkSize);
    var n := |chunks|;
    assert FirstFailure(refused, t, chunks, 0, n) == n;
    StoredParts(files, t, chunks, n);
    ChunkSizes(recs, ChunkSize);
    FlattenTables(chunks, t.schema, StoredRows(files + PartsMap(t, chunks, n), PartPaths(t, n)));
    FlattenChunks(recs, ChunkSize);
  }

  /** Reading back parts `0 .. n-1` gives the tables of chunks `0 .. n-1`. */
  lemma StoredParts(files: map<Path, File>, t: Target, chunks: seq<seq<Record>>, n: nat)
    requires n <= |chunks|
    ensures forall k | 0 <= k < n :: StoredRows(files + PartsMap(t, chunks, n), PartPaths(t, n))[k] == Table(chunks[k], t.schema)
  {
    PartsMapContents(t, chunks, n);
  }

  lemma {:induction false} FlattenTables(chunks: seq<seq<Record>>, schema: Schema, tables: seq<seq<Record>>)
    requires |tables| == |chunks|
    requires forall k | 0 <= k < |chunks| :: tables[k] == Table(chunks[k], schema)
    ensures Flatten(tables) == Table(Flatten(chunks), schema)
  {
    if |chunks| > 0 {
      FlattenTables(chunks[1..], schema, tables[1..]);
      TableAppend(chunks[0], Flatten(chunks[1..]), schema);
    }
  }

  /** A record the schema rejects stops the run at its part: no part from
      that one on is written. */
  lemma MismatchStopsAtItsPart(refused: set<Path>, t: Target, recs: seq<Record>, complete: bool, k: nat)
    requires Outcome(refused, t, recs, complete) == Failed(SchemaMismatch(k))
    ensures k < |Chunks(recs, ChunkSize)| && !AllConform(Chunks(recs, ChunkSize)[k], t.schema)
    ensures forall j | 0 <= j < k :: AllConform(Chunks(recs, ChunkSize)[j], t.schema)
  {
  }
}
