# omicidx-etl extraction pipelines in Dafny

This project models the extraction side of omicidx-etl. That repository fetches public
omics metadata (NCBI SRA mirror dumps, NCBI BioSample/BioProject, EBI BioSamples,
Scimago journal ranks) and writes it as partitioned Parquet files under an output root.
It also builds a JSON catalog of the SQLMesh models that sit on top of those files.

What is modelled:

- **SRA mirror pipeline.**
  - Parsing a mirror URL into entity, full/incremental flag and dump date.
  - Tagging the reversed listing with the "current batch" flag.
  - Writing one mirror file as numbered Parquet parts of at most 2 500 000 records.
  - The catalog that places each entry under `entity/date=YYYY-MM-DD/stage=Full|Incremental`, processes the current batch and deletes the rest.
  - The `sra extract` / `sra cleanup` selection chains and the fixed-width text listing.
  - The schema lookup by entity name.
- **Path provider.** A class with a base directory and a registry of files per asset.
- **NCBI BioSample/BioProject extraction.** The glob cleanup of old files, then numbered batches of 500 000 records.
- **EBI BioSample extraction.**
  - Daily date ranges and Hive-style day paths.
  - The paginating fetcher class, including the flattening of sample characteristics.
  - The per-day protocol: data file first, `.done` marker last, `NO_SAMPLES` for empty days.
  - The scheduler that picks the days from 2021-01-01 to yesterday that have no marker.
- **Catalog generation for SQLMesh models.**
  - Model-file metadata.
  - Sorted, duplicate-free dependencies.
  - The inverted dependency graph and layer grouping.
  - The column-statistics merge and the catalog assembly.
- **Scimago.** The column-name cleaning expression.

How the model is built:

- **Storage.** Every file system and object store (local paths, S3 through `UPath`) is one `Store.FileStore` object. It maps paths to file contents (a table of rows, or text). A set of `refused` paths stands for destinations where a write or delete raises.
- **External inputs.** Network responses, the listing glob, XML parsers, SQL parsing and DuckDB are given as input sequences and functions.
- **Clock.** The clock (`date.today()`, `datetime.now()`) is a parameter.
- **Records.** Records are `map<string, Value>`. In the SRA mirror conversion, a Parquet write stores the record sequence projected onto the schema's fields (`MirrorParquet.Project`). It fails when a value does not convert to its column type (`Values.Conforms`). The EBI day files and the NCBI biosample batch files store their rows as they are.

Shared modules:

- `Common`: option type, decimal formatting, lexicographic order and generic sequence lemmas.
- `Dates`: the proleptic Gregorian calendar as Python's `date`, with day numbers. It also holds the ISO 8601 basic `YYYYMMDD` and extended `YYYY-MM-DD` complete calendar-date representations (section 4.1.2.2 of ISO 8601:2004).
- `Values`: record values and Arrow-like schemas.
- `Store`: paths and the file store.
- `Chunking`: cutting a stream into consecutive pieces of bounded size.

Where the code and its comments or docs disagree, the model follows the code, with one exception: the `sra extract` and `sra cleanup` commands pass the `--dest` string where `SRACatalog` expects a PathProvider, and the model builds a provider at that destination instead (see `SraCli.Extract` and `SraCli.CleanupCommand` under "## Left out"). Otherwise:

- The mirror listing is never sorted by date. The order is the reversed glob result.
- The current batch ends at the first *non-Full* entry after the first Full entry. It does not end at "another Full".
- Parquet part names are padded to five digits (`data_00000.parquet`), not six.
- The SRA pipeline has no done-marker and no skip check.
- `get_path_provider` returns a fresh provider on every call, because the singleton code after its `return` is unreachable.
- `get_filename` ignores its end date and output directory.
- The cleanup glob `{entity}*.parquet` does not match `old.parquet` for the entity `biosample`. The repository's own test expects that file to be removed; `BiosampleExtract.OldParquetKept` states the code's behaviour. The glob never matches the `data_N.parquet` batch files either, so batches from an earlier, longer run survive (`BiosampleExtract.StaleBatchesSurvive`).
- `any_samples` is set when a sample is reached, before its characteristics are read. A first sample without `characteristics` therefore ends the loop with `any_samples` set and no sample yielded, and the marker reads `Processed 0 samples`. The model keeps this behaviour.

## Model

| member | source | states |
|---|---|---|
| Mirror.EntityName | omicidx_etl/sra/mirror.py:57-64 | each entity's URL token is a non-empty name (study, sample, experiment, run) |
| Mirror.EntityOf | omicidx_etl/sra/mirror.py:55-66 | the entity is the first of study, sample, experiment, run occurring in the URL; none of the earlier-ranked names occurs; None (the ValueError) exactly when no name occurs |
| Mirror.FindDateMatch | omicidx_etl/sra/mirror.py:81 | `re.search`: the leftmost position where `NCBI_SRA_Mirroring_` is followed by eight digits, or None when there is no such position |
| Mirror.DateOf | omicidx_etl/sra/mirror.py:72-86 | a parsed dump date is always a valid calendar date (an impossible date or a missing token is the ValueError) |
| Mirror.ParseEntry | omicidx_etl/sra/mirror.py:28-90 | an entry exists iff both the entity and the date parse; it keeps the URL, takes that entity and date, is_full iff the URL contains "Full", and starts outside the current batch |
| Mirror.Parsed | omicidx_etl/sra/mirror.py:116-121 | unparseable URLs are skipped, so there are never more entries than URLs; no entry starts in the current batch |
| Mirror.ParsedMembers | omicidx_etl/sra/mirror.py:116-137 | an entry is listed exactly when its URL is in the listing and parses |
| Mirror.Reverse | omicidx_etl/sra/mirror.py:108 | element i of the result is element n-1-i of the input |
| Mirror.Tagged | omicidx_etl/sra/mirror.py:124-136 | entry i is current unless an incremental entry at or before i comes after some full entry |
| Mirror.GetMirrorEntries | omicidx_etl/sra/mirror.py:93-145 | the loop with `found_full`/`out_of_full` returns exactly the tagged parse of the reversed listing |
| Mirror.ScanOne | omicidx_etl/sra/mirror.py:115-136 | one turn of the walk keeps the flags and the output equal to those of the tagged parse of the URLs seen so far, one URL further on |
| Mirror.StepFacts | omicidx_etl/sra/mirror.py:124-136 | how the two flags and the tagging extend when one more entry is scanned |
| Mirror.CurrentBatchIsPrefix | omicidx_etl/sra/mirror.py:128-134 | the flag is monotone: if a later entry is current, every earlier one is current too |
| Mirror.NoFullAllCurrent | omicidx_etl/sra/mirror.py:124-136 | without any full entry, every entry is current |
| Mirror.CurrentBatchBoundary | omicidx_etl/sra/mirror.py:124-136 | with f the first full entry, entry i is out of the batch iff some entry after f, up to i, is incremental |
| Mirror.FullStudyFile | omicidx_etl/sra/mirror.py:55-90 | `NCBI_SRA_Mirroring_YYYYMMDD_Full/meta_study_set.xml.gz` parses to study, full, that date, not current |
| Mirror.IncrementalRunFile | omicidx_etl/sra/mirror.py:55-90 | `NCBI_SRA_Mirroring_YYYYMMDD/meta_run_set.xml.gz` parses to run, incremental, that date |
| Dates.ParseFormatBasic | omicidx_etl/sra/mirror.py:85-86 | `strptime('%Y%m%d')` reads back the basic representation of any valid date |
| Dates.FormatIso | omicidx_etl/sra/catalog.py:49 | the extended representation has ten characters with hyphens at positions 4 and 7 |
| Dates.FormatIsoInjective | omicidx_etl/sra/catalog.py:66 | distinct dates have distinct extended representations |
| Dates.IsoCharacters | omicidx_etl/sra/catalog.py:66 | the extended representation holds only digits and hyphens, so no path separator |
| Dates.NextDayValid | omicidx_etl/ebi_biosample/utils.py:43 | `+ timedelta(days=1)` gives a valid date with day number one greater |
| Dates.DateLeIffDayNumber | omicidx_etl/ebi_biosample/utils.py:39 | Python's date comparison agrees with the order of day numbers, and equality with equal day numbers |
| Chunking.FlattenChunks | omicidx_etl/sra/mirror_parquet.py:108-116 | concatenating the chunks in order gives back the input stream |
| Chunking.ChunkCount | omicidx_etl/sra/mirror_parquet.py:108-116 | the chunks hold the stream with less than one chunk to spare; none for an empty stream |
| Chunking.CeilCount | omicidx_etl/sra/mirror_parquet.py:108-116 | the number of chunks is ceil(R / C) |
| Chunking.ChunkSizes | omicidx_etl/sra/mirror_parquet.py:113-114 | every chunk holds 1 to C records, and every chunk but the last exactly C |
| Chunking.ChunkAt | omicidx_etl/sra/mirror_parquet.py:111-114 | chunk k is the slice of the stream starting at k * C |
| MirrorParquet.PartPath | omicidx_etl/sra/mirror_parquet.py:85 | part files lie inside the output directory |
| MirrorParquet.PartPathInjective | omicidx_etl/sra/mirror_parquet.py:85 | distinct part numbers name distinct files (five-digit padding) |
| MirrorParquet.Project | omicidx_etl/sra/mirror_parquet.py:84 | a row written with a schema has exactly the schema's field names |
| MirrorParquet.Table | omicidx_etl/sra/mirror_parquet.py:84 | the table has one row per record, each the record's projection |
| MirrorParquet.Normalized | omicidx_etl/sra/mirror_parquet.py:109-110 | `normalize_fn`, when given, is applied exactly once to each record; otherwise records pass unchanged |
| MirrorParquet.FirstFailure | omicidx_etl/sra/mirror_parquet.py:84-101 | the first part that cannot be written: all before it can be written |
| MirrorParquet.Flush | omicidx_etl/sra/mirror_parquet.py:79-104 | an empty buffer writes nothing and keeps the counter; otherwise a non-conforming buffer or a refused destination fails with nothing stored, and success stores part `part`, appends its path, advances the counter and clears the buffer; the staging file is gone in every case |
| MirrorParquet.ProcessMirrorEntryToParquetParts | omicidx_etl/sra/mirror_parquet.py:41-117 | the result and the new store are those of the entity's schema applied to the normalised stream (Outcome, OutcomeFiles) |
| MirrorParquet.WriteParts | omicidx_etl/sra/mirror_parquet.py:108-117 | the loop plus the final flush give exactly Outcome and OutcomeFiles |
| MirrorParquet.BufferRecords | omicidx_etl/sra/mirror_parquet.py:108-114 | after the loop, the parts of all full chunks are written and the buffer holds the rest, or the first failing part stopped it |
| MirrorParquet.FlushChunk | omicidx_etl/sra/mirror_parquet.py:113-114 | a full buffer is written as part `part` or fails with SchemaMismatch/WriteFailed and changes nothing |
| MirrorParquet.OutcomeWritten | omicidx_etl/sra/mirror_parquet.py:116-117 | when every part can be written, the run returns the paths of parts 0 .. n-1 and stores each chunk |
| MirrorParquet.OutcomeFailedAt | omicidx_etl/sra/mirror_parquet.py:91-101 | the first failing part decides the error; the parts before it stay written |
| MirrorParquet.OutcomeStreamFailed | omicidx_etl/sra/mirror_parquet.py:108 | a stream that breaks off leaves the full chunks flushed so far and reports the failure |
| MirrorParquet.PartsMapContents | omicidx_etl/sra/mirror_parquet.py:85-103 | the written files are exactly parts 0 .. n-1, with no gaps; part k holds chunk k as a table; all lie in the output directory |
| MirrorParquet.OnlyOutputDirChanges | omicidx_etl/sra/mirror_parquet.py:73-101 | a run changes and adds files only inside the output directory |
| MirrorParquet.SuccessStoresEverything | omicidx_etl/sra/mirror_parquet.py:108-117 | on success ceil(R/C) parts are returned in write order, and reading them back gives the table of the whole normalised stream |
| MirrorParquet.StoredParts | omicidx_etl/sra/mirror_parquet.py:95-98 | reading back parts 0 .. n-1 gives the tables of chunks 0 .. n-1 |
| MirrorParquet.MismatchStopsAtItsPart | omicidx_etl/sra/mirror_parquet.py:84 | a schema mismatch is reported for the chunk holding the first non-conforming record |
| SraSchema.GetSchema | omicidx_etl/sra/schema.py:176-183 | the schema is non-empty exactly for run, study, sample and experiment, and then starts with `accession: string` |
| SraSchema.RunSchemaFacts | omicidx_etl/sra/schema.py:94-110 | run has 15 distinct fields, including identifiers and attributes but no xrefs |
| SraSchema.StudySchemaFacts | omicidx_etl/sra/schema.py:113-129 | study has 15 distinct fields, including identifiers, attributes and xrefs |
| SraSchema.SampleSchemaFacts | omicidx_etl/sra/schema.py:132-144 | sample has 11 distinct fields, including identifiers, attributes and xrefs |
| SraSchema.ExperimentSchemaFacts | omicidx_etl/sra/schema.py:147-174 | experiment has 26 distinct fields, including identifiers, attributes and xrefs |
| SraSchema.EntitySchemas | omicidx_etl/sra/schema.py:19-183 | every mirror entity has a schema with distinct names, the shared identifier and attribute types, and xrefs iff it is not run |
| Values.EmptySchemaAcceptsAll | omicidx_etl/sra/schema.py:183 | the empty default schema accepts every record |
| SraCatalog.StageName | omicidx_etl/sra/catalog.py:67 | the stage is "Full" exactly for full entries |
| SraCatalog.PartitionParts | omicidx_etl/sra/catalog.py:64-68 | three path components, none containing '/' |
| SraCatalog.PartitionPartsInjective | omicidx_etl/sra/catalog.py:64-68 | two entries share components iff they agree on entity, date and stage |
| SraCatalog.Catalog.constructor | omicidx_etl/sra/catalog.py:25-33 | the catalog keeps the provider it is given |
| SraCatalog.Catalog.PartitionDir | omicidx_etl/sra/catalog.py:54-68 | the partition is exactly three levels below the base directory |
| SraCatalog.Catalog.PartitionDirFormat | omicidx_etl/sra/catalog.py:54-68 | the partition is `{base}/{entity}/date={YYYY-MM-DD}/stage={Full|Incremental}` |
| SraCatalog.Catalog.LegacyPath | omicidx_etl/sra/catalog.py:35-52 | the legacy file is `data_0.ndjson.gz` inside the partition |
| SraCatalog.Catalog.PartitionDirInjective | omicidx_etl/sra/catalog.py:54-68 | two entries share a partition iff they agree on entity, date and stage |
| SraCatalog.Catalog.PartitionsDisjoint | omicidx_etl/sra/catalog.py:54-68 | no path lies in two different partitions, so deleting one never touches another |
| SraCatalog.Select | omicidx_etl/sra/catalog.py:122-185 | the selection holds exactly the entries with the given flag |
| SraCatalog.SelectAppend | omicidx_etl/sra/catalog.py:122-185 | selection keeps input order (it distributes over concatenation) |
| SraCatalog.SelectSplits | omicidx_etl/sra/catalog.py:122-185 | every entry goes to exactly one of process and cleanup |
| SraCatalog.CurrentSelectionIsPrefix | omicidx_etl/sra/catalog.py:185 | on a tagged listing, the entries `process` acts on are a prefix of it |
| SraCatalog.SelectMonotone | omicidx_etl/sra/catalog.py:122-185 | when current entries come first, the two selections split the list at the end of the current run |
| SraCatalog.ListedDatesValid | omicidx_etl/sra/mirror.py:86 | every listed entry carries a valid date |
| SraCatalog.Swept | omicidx_etl/sra/catalog.py:137-148 | a file survives the sweep iff no removable directory of the list covers it; survivors are unchanged |
| SraCatalog.SweptIdempotent | omicidx_etl/sra/catalog.py:113-150 | a second cleanup pass removes nothing more |
| SraCatalog.SweptRemovable | omicidx_etl/sra/catalog.py:137-148 | whether a directory can be deleted does not change as the sweep proceeds |
| SraCatalog.SweptStep | omicidx_etl/sra/catalog.py:137-148 | one more directory is deleted if it can be, and skipped otherwise |
| SraCatalog.CleanupStep | omicidx_etl/sra/catalog.py:137-148 | one turn of the cleanup loop keeps the store equal to the sweep so far |
| SraCatalog.SweptNothing | omicidx_etl/sra/catalog.py:205-207 | sweeping no directory leaves the store unchanged |
| SraCatalog.Catalog.RmTree | omicidx_etl/sra/catalog.py:70-86 | a missing path does nothing; otherwise everything at or under it is removed, or nothing when a delete is refused |
| SraCatalog.Catalog.CleanupOne | omicidx_etl/sra/catalog.py:88-111 | the partition is removed as a tree; after success the legacy file is gone too; a failed legacy unlink is swallowed |
| SraCatalog.Catalog.Dirs | omicidx_etl/sra/catalog.py:101 | the partition of each entry, in order |
| SraCatalog.Catalog.Failures | omicidx_etl/sra/catalog.py:141-148 | the failed entries are exactly those whose partition holds a refused path |
| SraCatalog.Catalog.CleanupNext | omicidx_etl/sra/catalog.py:141-148 | one turn of the cleanup loop: the entry's partition joins the sweep, and it fails exactly when that partition held a refused path in the original store |
| SraCatalog.Catalog.Cleanup | omicidx_etl/sra/catalog.py:113-150 | every non-current entry is cleaned in order; a failure is reported and the loop continues; the store becomes the sweep of their partitions |
| SraCatalog.Catalog.ProcessOne | omicidx_etl/sra/catalog.py:152-174 | the entry's stream is written as `data` parts into its partition, with no skip check; the staging file does not stay behind |
| SraCatalog.Catalog.Process | omicidx_etl/sra/catalog.py:176-213 | each current entry is processed in input order and a failure does not stop the loop; the store becomes each entry's parts written in turn over what the earlier entries left, so files change only inside the current entries' partitions |
| SraCatalog.Catalog.ProcessedOneMore | omicidx_etl/sra/catalog.py:200-203 | one entry more writes its parts over the store the earlier entries left and appends its result |
| SraCatalog.Catalog.ProcessedFramed | omicidx_etl/sra/catalog.py:200-203 | processing changes and adds files only inside the processed entries' partitions |
| SraCatalog.Catalog.Outcomes | omicidx_etl/sra/catalog.py:200-211 | one result per processed entry |
| SraCatalog.Catalog.OutcomeAt | omicidx_etl/sra/catalog.py:200-211 | the k-th result is the outcome of the k-th entry alone (error isolation) |
| SraCatalog.FramedStep | omicidx_etl/sra/catalog.py:200-203 | frames compose across loop turns |
| SraCli.ByEntity | omicidx_etl/sra/cli.py:104-108 | "all" keeps every entry; a named entity keeps exactly the entries of that entity |
| SraCli.ByEntityAppend | omicidx_etl/sra/cli.py:105 | the entity filter keeps order |
| SraCli.ByDate | omicidx_etl/sra/cli.py:111-124 | keeps exactly the entries in the window, inclusive at both ends; an absent bound is open |
| SraCli.ByDateAppend | omicidx_etl/sra/cli.py:117-124 | the date filter keeps order |
| SraCli.OpenWindowKeepsAll | omicidx_etl/sra/cli.py:111 | without bounds every entry is kept |
| SraCli.Limit | omicidx_etl/sra/cli.py:132-133 | `[:max_entries]`: a prefix; None or 0 means no limit; a positive bound keeps min(n, len) entries, a negative one drops from the end |
| SraCli.Filtered | omicidx_etl/sra/cli.py:103-134 | every kept entry comes from the input and passes the entity and date filters |
| SraCli.FilterEntries | omicidx_etl/sra/cli.py:103-134 | the step-by-step reassignment computes exactly the entity filter, then the date filter, then the limit |
| SraCli.Selected | omicidx_etl/sra/cli.py:101-134 | every selected entry comes from the tagged listing, is admitted by the entity option and has a valid date |
| SraCli.ByEntityKeepsCurrentFirst | omicidx_etl/sra/cli.py:105 | filtering by entity keeps current entries ahead of the rest |
| SraCli.ByDateKeepsCurrentFirst | omicidx_etl/sra/cli.py:117-124 | filtering by date keeps current entries ahead of the rest |
| SraCli.LimitThenCurrent | omicidx_etl/sra/cli.py:132-137 | limiting before the current-batch filter keeps the first n current entries |
| SraCli.SelectionOrder | omicidx_etl/sra/cli.py:101-137 | the selection keeps current entries first, and its current entries come from the tagged listing |
| SraCli.Extract | omicidx_etl/sra/cli.py:63-163 | a missing destination is a usage error before any listing; an empty current batch or a dry run writes nothing; otherwise the catalog at dest processes exactly the selection's current entries, and the store becomes what processing them in turn leaves |
| SraCli.CleanupCommand | omicidx_etl/sra/cli.py:180-227 | a missing destination is a usage error; the entries cleaned are exactly the non-current ones; nothing to clean or a dry run deletes nothing |
| SraCli.BatchName | omicidx_etl/sra/cli.py:234 | "CURRENT" exactly for current entries |
| SraCli.Lines | omicidx_etl/sra/cli.py:232-241 | one line per entry |
| SraCli.LineAt | omicidx_etl/sra/cli.py:233-241 | line k describes entry k |
| SraCli.LineLayout | omicidx_etl/sra/cli.py:234-240 | every line is 45 characters: entity at column 0, date at 11, stage at 24 and batch at 37 |
| SraCli.LineNoNewline | omicidx_etl/sra/cli.py:236-240 | no line contains a newline |
| SraCli.ListingLines | omicidx_etl/sra/cli.py:242 | the text holds exactly one newline fewer than there are entries |
| SraCli.ListEntriesText | omicidx_etl/sra/cli.py:230-242 | the loop builds exactly the joined listing |
| ExtractConfig.JoinAll | omicidx_etl/extract_config.py:123-125 | the joined path starts with the base path |
| ExtractConfig.JoinAllAppend | omicidx_etl/extract_config.py:124-125 | joining in two steps is joining all at once |
| ExtractConfig.JoinAllUnder | omicidx_etl/extract_config.py:123 | joining at least one component lands strictly inside the base |
| ExtractConfig.JoinAllInjective | omicidx_etl/extract_config.py:102-126 | '/'-free components are recovered from the joined path |
| ExtractConfig.JoinAllDepth | omicidx_etl/extract_config.py:102-126 | each component adds exactly one separator |
| ExtractConfig.Remove | omicidx_etl/extract_config.py:206 | removes exactly the given key from the key order |
| ExtractConfig.RegisterSpec | omicidx_etl/extract_config.py:161-170 | registering appends exactly one entry to that asset's list, creates the key at the end of the order if new, and leaves other assets unchanged |
| ExtractConfig.ClearSpec | omicidx_etl/extract_config.py:194-207 | clearing one asset forgets only it (a no-op when absent); clearing all forgets everything |
| ExtractConfig.PathProvider.constructor | omicidx_etl/extract_config.py:85-100 | the base is the argument, else the configured value, else the default; the registry starts empty |
| ExtractConfig.PathProvider.GetPath | omicidx_etl/extract_config.py:102-126 | the path is `base/asset/s1/.../sn` in argument order and lies under the base |
| ExtractConfig.PathProvider.RegisterFile | omicidx_etl/extract_config.py:144-171 | the entry holds the path, the clock reading and the metadata (None stored as {}) and is registered as RegisterSpec states |
| ExtractConfig.PathProvider.GetRegisteredFiles | omicidx_etl/extract_config.py:173-183 | the asset's list, or [] for an unknown asset, without adding it |
| ExtractConfig.PathProvider.ListAssets | omicidx_etl/extract_config.py:185-192 | the registered assets in insertion order |
| ExtractConfig.PathProvider.ClearRegistry | omicidx_etl/extract_config.py:194-207 | the registry becomes the cleared one, and stays well formed |
| ExtractConfig.PathProvider.ExportRegistry | omicidx_etl/extract_config.py:209-222 | the snapshot holds the base directory, the clock reading and the registry |
| ExtractConfig.GetPathProvider | omicidx_etl/extract_config.py:232-249 | every call returns a fresh provider with an empty registry |
| BiosampleExtract.RawDir | omicidx_etl/biosample/extract.py:89 | the entity's raw directory lies under the output directory |
| BiosampleExtract.BatchPath | omicidx_etl/biosample/extract.py:107 | batch files lie inside the raw directory |
| BiosampleExtract.BatchPathInjective | omicidx_etl/biosample/extract.py:107 | batch files are `data_{n}.parquet`, unpadded, and distinct numbers give distinct files |
| BiosampleExtract.Matches | omicidx_etl/biosample/extract.py:51 | the matched set is exactly the stored files matching the glob |
| BiosampleExtract.MatchesGlobName | omicidx_etl/biosample/extract.py:20-51 | a file directly in the directory matches iff its name starts with the entity and ends with ".parquet" |
| BiosampleExtract.OldParquetKept | omicidx_etl/biosample/extract.py:51 | `old.parquet` does not match the glob for entity "biosample" |
| BiosampleExtract.CleanupOldFiles | omicidx_etl/biosample/extract.py:49-53 | when every match can be deleted, exactly the matching files are removed; otherwise only matching files have gone |
| BiosampleExtract.CleanupKeepsOthers | omicidx_etl/biosample/extract.py:49-53 | non-matching files are kept unchanged and matching ones are gone |
| BiosampleExtract.Effective | omicidx_etl/biosample/extract.py:128 | the batch size in effect is at least 1, and equals batch_size when that is positive |
| BiosampleExtract.BatchPaths | omicidx_etl/biosample/extract.py:101-116 | the returned files are batches 1 .. n in order |
| BiosampleExtract.FirstRefused | omicidx_etl/biosample/extract.py:104-116 | the first batch whose file cannot be written |
| BiosampleExtract.WriteBatch | omicidx_etl/biosample/extract.py:104-116 | a non-empty batch is written under the counter, appended, cleared and the counter advanced, or the write fails and nothing changes |
| BiosampleExtract.AddRecord | omicidx_etl/biosample/extract.py:123-129 | the record joins the batch, and a batch that reaches the size is written at once |
| BiosampleExtract.BatchGrows | omicidx_etl/biosample/extract.py:123-129 | the size test fires exactly when the batch holds `b` records, and the batch is then exactly the matching piece of the chunking |
| BiosampleExtract.WriteBatches | omicidx_etl/biosample/extract.py:95-133 | the parse loop with its final write gives Outcome and OutcomeFiles of the chunks; obj_counter is the number of records |
| BiosampleExtract.ExtractEntity | omicidx_etl/biosample/extract.py:80-138 | cleanup runs before any write: a failed cleanup stops the run, otherwise the batches land in the cleaned store |
| BiosampleExtract.FailedAt | omicidx_etl/biosample/extract.py:107-108 | the first refused batch file decides the failure |
| BiosampleExtract.BatchMapKeys | omicidx_etl/biosample/extract.py:107 | the written files are exactly batches 1 .. n |
| BiosampleExtract.BatchMapValues | omicidx_etl/biosample/extract.py:108-112 | batch k holds chunk k |
| BiosampleExtract.ExtractedStoresEverything | omicidx_etl/biosample/extract.py:123-133 | on success ceil(n/b) files are returned; reading them back gives exactly the records, each file holding 1 .. b of them |
| BiosampleExtract.StaleBatchesSurvive | omicidx_etl/biosample/extract.py:51-107 | a batch file from an earlier run beyond the new count survives unchanged |
| BiosampleExtract.ExtractAll | omicidx_etl/biosample/extract.py:141-151 | bioproject is extracted before biosample, each into its own raw directory; a failure of the first stops the second |
| EbiUtils.GetFilenameTmp | omicidx_etl/ebi_biosample/utils.py:18-21 | the name ends in ".tmp" exactly when tmp is set |
| EbiUtils.GetFilenameInjective | omicidx_etl/ebi_biosample/utils.py:7-21 | two names are equal iff the start dates are, whatever the end dates and directories |
| EbiUtils.GetDateRanges | omicidx_etl/ebi_biosample/utils.py:24-43 | one (d, d) pair per day from start to end inclusive, in increasing order, none when start is later; overflow exactly when the range ends at 9999-12-31 |
| EbiUtils.DailyRangesUnique | omicidx_etl/ebi_biosample/utils.py:37-43 | the ranges are determined by the two dates |
| EbiUtils.DailyRangesExact | omicidx_etl/ebi_biosample/utils.py:39-41 | every yielded day lies in the range, and every day of the range is yielded |
| EbiFetcher.DateFilterLayout | omicidx_etl/ebi_biosample/fetcher.py:47-54 | the filter is `dt:update:from=` + start + `until=` + end, with no separator |
| EbiFetcher.DateFilterInjective | omicidx_etl/ebi_biosample/fetcher.py:47-54 | equal filters name equal date ranges |
| EbiFetcher.Tagged | omicidx_etl/ebi_biosample/fetcher.py:95-97 | one tagged value per value object |
| EbiFetcher.FlattenedLength | omicidx_etl/ebi_biosample/fetcher.py:93-98 | the flattened list is as long as all value lists together |
| EbiFetcher.FlattenedAt | omicidx_etl/ebi_biosample/fetcher.py:93-98 | value j of key i sits after the values of the earlier keys, tagged `characteristic = key` |
| EbiFetcher.FlattenCharacteristics | omicidx_etl/ebi_biosample/fetcher.py:93-98 | the two nested loops build exactly the flattened list |
| EbiFetcher.FirstMissing | omicidx_etl/ebi_biosample/fetcher.py:94-106 | the first sample whose missing characteristics raise KeyError |
| EbiFetcher.PageYield | omicidx_etl/ebi_biosample/fetcher.py:91-106 | a page yields its samples up to the first one without characteristics, and nothing without `_embedded.samples` |
| EbiFetcher.PageNext | omicidx_etl/ebi_biosample/fetcher.py:101-108 | the loop continues only after a complete page with a next link, and follows that link |
| EbiFetcher.FirstStop | omicidx_etl/ebi_biosample/fetcher.py:88-108 | the page that ends the loop; every earlier one continues it |
| EbiFetcher.SampleRecord | omicidx_etl/ebi_biosample/extract.py:47 | the row of a sample carries its flattened characteristics list |
| EbiFetcher.SampleFetcher.constructor | omicidx_etl/ebi_biosample/fetcher.py:19-45 | the fields take the arguments; full_url None, any_samples false, count 0, empty buffer |
| EbiFetcher.SampleFetcher.NextRequest | omicidx_etl/ebi_biosample/fetcher.py:65-77 | the first request goes to the base URL with cursor, size and filter; after a next link the link is followed; the cursor never changes |
| EbiFetcher.SampleFetcher.FetchPage | omicidx_etl/ebi_biosample/fetcher.py:90-105 | the buffer gains exactly the page's yielded samples, the count grows by their number, any_samples is set when a sample is reached |
| EbiFetcher.SampleFetcher.FetchStep | omicidx_etl/ebi_biosample/fetcher.py:88-108 | one turn requests the next page and continues exactly while no stopping page has been met |
| EbiFetcher.SampleFetcher.Process | omicidx_etl/ebi_biosample/fetcher.py:110-121 | the count is reset, pages are consumed up to the stopping one, the buffer (not cleared) gains the yielded samples in order, and full_url is the last followed link |
| EbiFetcher.SampleFetcher.ConsumeSamples | omicidx_etl/ebi_biosample/fetcher.py:119-121 | the loop over `fetch_next_set`, the count starting at zero, consumes the pages up to the stopping one and buffers and counts exactly their yielded samples |
| EbiFetcher.SampleFetcher.TurnGoesOn | omicidx_etl/ebi_biosample/fetcher.py:101-102 | a page with a `next` link is not the stopping page, and the walk moves on with that link as `full_url` |
| EbiFetcher.SampleFetcher.TurnStops | omicidx_etl/ebi_biosample/fetcher.py:103-105 | a page without one is the stopping page, and the walk ends with every page up to it consumed |
| EbiFetcher.FullPagesYieldAll | omicidx_etl/ebi_biosample/fetcher.py:91-99 | pages whose samples all have characteristics yield all of them |
| EbiFetcher.YieldedReached | omicidx_etl/ebi_biosample/fetcher.py:92 | if a sample was yielded, any_samples is set |
| EbiExtract.DayDir | omicidx_etl/ebi_biosample/extract.py:32-33 | the day directory lies under the output directory |
| EbiExtract.DataFileIsFilename | omicidx_etl/ebi_biosample/extract.py:33-35 | the data file is the output directory joined with `get_filename(day)`, and the marker is that path plus ".done" |
| EbiExtract.MarkerInjective | omicidx_etl/ebi_biosample/extract.py:32-35 | two days share a marker iff they are the same day |
| EbiExtract.SampleRows | omicidx_etl/ebi_biosample/extract.py:47 | one row per buffered sample |
| EbiExtract.DayOutcome | omicidx_etl/ebi_biosample/extract.py:37-72 | an existing marker means nothing is written; otherwise only the data file and the marker may change, and no data file is written without samples |
| EbiExtract.ProcessByDates | omicidx_etl/ebi_biosample/extract.py:16-72 | fetches first, then writes the day's outcome; the staging file is removed |
| EbiExtract.MarkerAfterReturn | omicidx_etl/ebi_biosample/extract.py:37-71 | every call that returns without raising leaves the day's marker present |
| EbiExtract.ExtractedWritesBoth | omicidx_etl/ebi_biosample/extract.py:44-64 | with samples, the data file holds them and the marker reads `Processed {N} samples` with N the count |
| EbiExtract.NoSamplesWritesMarker | omicidx_etl/ebi_biosample/extract.py:65-71 | without samples the marker reads `NO_SAMPLES` and nothing was yielded |
| EbiExtract.DataBeforeMarker | omicidx_etl/ebi_biosample/extract.py:57-63 | a counting marker this call wrote is never without its data file |
| EbiExtract.ScheduleDays | omicidx_etl/ebi_biosample/extract.py:83-100 | exactly the valid days from 2021-01-01 through yesterday without a marker are scheduled, in increasing order |
| EbiExtract.ScheduleOne | omicidx_etl/ebi_biosample/extract.py:95-99 | one turn of the loop extends the schedule by the day exactly when that day's marker is missing |
| EbiExtract.ScheduledDays | omicidx_etl/ebi_biosample/extract.py:94-100 | the filter over the daily ranges selects exactly those days, in increasing order |
| EbiExtract.Returned | omicidx_etl/ebi_biosample/extract.py:93-100 | the tasks that returned: all but a failed last one |
| EbiExtract.RunOutcome | omicidx_etl/ebi_biosample/extract.py:93-100 | at most one result per scheduled day |
| EbiExtract.RunDays | omicidx_etl/ebi_biosample/extract.py:76-100 | results and store equal running each day's task on the store the earlier ones left, stopping after the first failure; every task that returned leaves its marker; no file disappears |
| EbiExtract.RunOne | omicidx_etl/ebi_biosample/extract.py:94-100 | one task: a failure completes the run, otherwise the run goes on from the next day |
| EbiExtract.RunFails | omicidx_etl/ebi_biosample/extract.py:93-100 | a failing task ends the run with its result and the store it left |
| EbiExtract.RunGoesOn | omicidx_etl/ebi_biosample/extract.py:93-100 | a task that returns hands the next day the store it left |
| EbiExtract.RunShape | omicidx_etl/ebi_biosample/extract.py:93-100 | at most one result per day, none failed but the last, and a run cut short ends in a failure |
| EbiExtract.RunKeeps | omicidx_etl/ebi_biosample/extract.py:37-100 | whatever existed still exists, the temporary file is gone, and every task that returned left its marker |
| EbiExtract.RunSummary | omicidx_etl/ebi_biosample/extract.py:76-100 | every complete run has the shape and keeps the markers and files stated for `RunDays` |
| EbiExtract.DayStep | omicidx_etl/ebi_biosample/extract.py:37-72 | a task only adds or overwrites files, removes the temporary file, and a returning task leaves its marker |
| EbiExtract.KeepsExisting | omicidx_etl/ebi_biosample/extract.py:98 | what existed still exists |
| EbiExtract.Extract | omicidx_etl/ebi_biosample/extract.py:82-100 | schedules exactly the unmarked days and runs them: results and store equal the run over the scheduled days; every task that returned leaves its marker |
| GenerateCatalog.FirstIndex | sqlmesh/scripts/generate_catalog.py:74 | the position of the first occurrence of the character, or the length |
| GenerateCatalog.SplitName | sqlmesh/scripts/generate_catalog.py:71-78 | with a schema, name == schema + "." + table and neither part has a dot; otherwise the table is the whole name |
| GenerateCatalog.SplitNameOneDot | sqlmesh/scripts/generate_catalog.py:74-76 | the name splits iff it holds exactly one dot |
| GenerateCatalog.SplitNameJoin | sqlmesh/scripts/generate_catalog.py:71-78 | splitting `schema.table` (no dots inside) gives the two parts back |
| GenerateCatalog.ParseModelFile | sqlmesh/scripts/generate_catalog.py:24-91 | no MODEL block gives nothing; the name comes from the block; kind defaults to "VIEW"; the table is set iff the name is non-empty; a schema rebuilds the name with the table |
| GenerateCatalog.LastPart | sqlmesh/scripts/generate_catalog.py:112 | `split(".")[-1]`: a dot-free suffix, preceded by a dot unless it is the whole name |
| GenerateCatalog.ModelReferenceHasDot | sqlmesh/scripts/generate_catalog.py:116-137 | the reference test holds exactly for references containing a dot |
| GenerateCatalog.Insert | sqlmesh/scripts/generate_catalog.py:96-117 | adding to the set keeps the list strictly sorted and adds exactly that element |
| GenerateCatalog.SortUnique | sqlmesh/scripts/generate_catalog.py:140 | `sorted(set)`: strictly sorted, holding exactly the input's elements |
| GenerateCatalog.ExtractDependencies | sqlmesh/scripts/generate_catalog.py:94-140 | the result is strictly sorted (sorted and duplicate-free) |
| GenerateCatalog.DependenciesMembers | sqlmesh/scripts/generate_catalog.py:102-138 | a dependency is a dotted reference; from the parse, a main-query table that is neither the model's name nor any reference ending in "." plus the model's last name part (so `bronze.x` is dropped inside model `raw.x`), or any CTE table; from the fallback, any FROM/JOIN match; none when nothing parses |
| GenerateCatalog.DependentsOfOneMore | sqlmesh/scripts/generate_catalog.py:306-312 | one more model extends the dependents list by that model's name when it lists n |
| GenerateCatalog.BuildDependencyGraph | sqlmesh/scripts/generate_catalog.py:292-314 | the nested loops compute exactly the graph of the model list |
| GenerateCatalog.GraphEntries | sqlmesh/scripts/generate_catalog.py:296-312 | a name is a key iff a model bears it; its list is the dependents list repeated once per model of that name |
| GenerateCatalog.GraphKeys | sqlmesh/scripts/generate_catalog.py:296-303 | keys are exactly the non-empty model names |
| GenerateCatalog.NameCountPositive | sqlmesh/scripts/generate_catalog.py:297-303 | a name is counted iff some model bears it |
| GenerateCatalog.NameCountAtMostOne | sqlmesh/scripts/generate_catalog.py:297 | with distinct names each name is counted at most once |
| GenerateCatalog.GraphOfDistinctNames | sqlmesh/scripts/generate_catalog.py:305-312 | with distinct names the entry is exactly the dependents list |
| GenerateCatalog.DependentsOfMembers | sqlmesh/scripts/generate_catalog.py:305-312 | x is a dependent of n iff x is not n and some model named x lists n among its dependencies (a missing list counting as none) |
| GenerateCatalog.GroupLayers | sqlmesh/scripts/generate_catalog.py:387-396 | the keys are raw, bronze and geometadb, each holding its members in model order |
| GenerateCatalog.LayerMembersExact | sqlmesh/scripts/generate_catalog.py:393-396 | a name is in a layer iff some model with that schema bears it |
| GenerateCatalog.LastIndexOf | sqlmesh/scripts/generate_catalog.py:367 | the last column with the name; no later one has it |
| GenerateCatalog.LastWithName | sqlmesh/scripts/generate_catalog.py:367 | the dict comprehension keeps the last column of each name |
| GenerateCatalog.DistinctNamesExact | sqlmesh/scripts/generate_catalog.py:367-375 | the merged column order holds each name once, exactly the names present |
| GenerateCatalog.ApplyStatsValue | sqlmesh/scripts/generate_catalog.py:368-374 | the name is kept; a key gets the last non-null stat value for it, and otherwise keeps its schema value |
| GenerateCatalog.KeyByName | sqlmesh/scripts/generate_catalog.py:367 | the dict maps each name, in first-seen order, to the last column with that name |
| GenerateCatalog.MergeColumns | sqlmesh/scripts/generate_catalog.py:365-375 | the loop computes exactly the merged column list |
| GenerateCatalog.ToModel | sqlmesh/scripts/generate_catalog.py:334-340 | a collected model is named, has sorted dependencies and no columns or dependents yet |
| GenerateCatalog.CollectModels | sqlmesh/scripts/generate_catalog.py:332-340 | the loop collects exactly the named models, in file order |
| GenerateCatalog.CollectedExact | sqlmesh/scripts/generate_catalog.py:333-340 | a model is collected iff some file parses to it with a name |
| GenerateCatalog.Enriched | sqlmesh/scripts/generate_catalog.py:348-378 | enrichment changes only the columns |
| GenerateCatalog.EnrichModels | sqlmesh/scripts/generate_catalog.py:343-378 | each model is enriched on its own |
| GenerateCatalog.AttachDependents | sqlmesh/scripts/generate_catalog.py:381-384 | each model gets its graph entry, or [] when absent |
| GenerateCatalog.Models | sqlmesh/scripts/generate_catalog.py:332-378 | the enriched models are the collected ones, apart from their columns |
| GenerateCatalog.GenerateCatalogOf | sqlmesh/scripts/generate_catalog.py:317-405 | the steps build exactly the catalog of tables and layers |
| GenerateCatalog.CatalogTables | sqlmesh/scripts/generate_catalog.py:332-405 | one table per named model file, each named with sorted dependencies |
| GenerateCatalog.CatalogDependents | sqlmesh/scripts/generate_catalog.py:381-384 | a table's dependents are exactly the other tables listing it |
| GenerateCatalog.CatalogDependentsOfDistinct | sqlmesh/scripts/generate_catalog.py:381-384 | with distinct names the dependents are the inverted graph entry itself |
| GenerateCatalog.CatalogLayers | sqlmesh/scripts/generate_catalog.py:387-404 | the catalog's layers are exactly the layer grouping of its tables |
| Scimago.Lower | omicidx_etl/etl/scimago.py:25 | lower-casing keeps the length |
| Scimago.RunLength | omicidx_etl/etl/scimago.py:25 | the maximal leading run of non-word characters |
| Scimago.CleanColumnNameShape | omicidx_etl/etl/scimago.py:25 | a cleaned name is lower-case word characters with no leading or trailing "_" |
| Scimago.CollapseChars | omicidx_etl/etl/scimago.py:25 | collapsing text without upper-case letters gives lower-case word characters |
| Scimago.CollapseWords | omicidx_etl/etl/scimago.py:25 | letters, digits and "_" are kept: text made only of them is unchanged |
| Scimago.CollapseRun | omicidx_etl/etl/scimago.py:25 | each maximal run of non-word characters becomes one "_" |
| Scimago.CleanIdempotent | omicidx_etl/etl/scimago.py:25 | cleaning a cleaned name returns it unchanged |
| Scimago.StripFixed | omicidx_etl/etl/scimago.py:25 | `strip("_")` leaves a name without edge underscores unchanged |
| Scimago.RenamedColumns | omicidx_etl/etl/scimago.py:24-26 | one cleaned name per column |
| Store.FileStore.Write | omicidx_etl/ebi_biosample/extract.py:63-70 | a write replaces the file's contents unless the destination refuses |
| Store.FileStore.Copy | omicidx_etl/sra/mirror_parquet.py:95-96 | the destination gets the source's contents |
| Store.FileStore.Unlink | omicidx_etl/sra/mirror_parquet.py:101 | with `missing_ok`, a missing file is no error; otherwise the file is removed unless refused |
| Store.FileStore.RemoveTree | omicidx_etl/sra/catalog.py:83 | removes everything at or under the prefix, or nothing when any delete is refused |
| Store.RemovedTree | omicidx_etl/sra/catalog.py:83 | the survivors are exactly the files not at or under the prefix, unchanged |
| Store.CommonDescendant | omicidx_etl/sra/catalog.py:83 | two prefixes containing the same path are equal or nested |

## Left out

- Network I/O: HTTP downloads, the NCBI listing glob, EBI requests and their retries are not modelled. Their results are inputs: listings, record streams and pages. Only the SRA mirror conversion takes a stream that may end in an error (`MirrorParquet`).
- BiosampleExtract.ExtractEntity: the record stream is a plain sequence that cannot fail. In the source, a download or parser exception after the cleanup (omicidx_etl/biosample/extract.py:91, 96, 122) leaves the cleaned directory plus the batches already written, and stops `extract_all` before biosample; the model does not capture that failure.
- XML, gzip, Arrow, Parquet, Polars and DuckDB are not modelled. An SRA Parquet part stores the projected rows at a path, compression is ignored, and column type conversion is `Values.Conforms`.
- Logging, progress counters and timing are not modelled.
- Concurrency is not modelled. The EBI task group and its 20-slot semaphore run the scheduled days one after another. The first failing task ends the run, as a task group cancels its other tasks.
- Clock and environment are parameters: yesterday, `datetime.now()`, the configured base directory and the staging file names.
- Path normalisation and directory creation (`mkdir`) are not modelled. Directories exist implicitly through the files under them.
- ExtractConfig: `ensure_path` is `get_path` plus `mkdir`, so only `get_path` is modelled. `set_path_provider` does not affect `get_path_provider`, which ignores the global.
- ExtractConfig.PathProvider.GetRegisteredFiles: the source returns the registry's own list (omicidx_etl/extract_config.py:183), so a caller that appends to it changes the registry. The model returns a value copy, so that aliasing is not captured.
- ExtractConfig.PathProvider.ExportRegistry: the snapshot's `assets` is the registry dict itself (omicidx_etl/extract_config.py:221), so mutating the snapshot changes the registry. The model's snapshot is a value, so that aliasing is not captured.
- ExtractConfig.PathProvider.RegisterFile: the path argument is already a string; `str(filepath)` of a `Path`/`UPath` is not modelled.
- SraCli.Extract: the source passes the `--dest` string to `SRACatalog`, which expects a PathProvider (omicidx_etl/sra/cli.py:154, omicidx_etl/sra/catalog.py:32). As written, `process_one` reaches `get_path` on that string (omicidx_etl/sra/catalog.py:165, 64), so every current entry fails with `AttributeError` inside the per-entry `try` of `process` (omicidx_etl/sra/catalog.py:200-211): nothing is written, and the command still logs success. The model builds a provider at the destination and states what processing with it writes.
- SraCli.CleanupCommand: the same substitution (omicidx_etl/sra/cli.py:218). As written, `cleanup_one` reaches `get_path` on the `--dest` string (omicidx_etl/sra/catalog.py:101, 64), so every non-current entry fails with `AttributeError` inside the per-entry `try` of `cleanup` (omicidx_etl/sra/catalog.py:137-148): the store is unchanged, every entry is reported as failed, and the command still logs success. The model builds a provider at the destination, so its store becomes `Swept(...)` over the non-current partitions.
- SraCli: `list_entries_json` and the click option parsing are not modelled.
- SraCatalog.Catalog.RmTree: the fallback call `rm(path, True)` after a `TypeError` is not modelled; one recursive delete stands for both.
- SraCatalog.Catalog.RmTree: a recursive delete that fails is modelled as deleting nothing. `fs.rm(recursive=True)` deletes path by path (a local `shutil.rmtree` stops at the first error, an object store deletes in batches), so a failed cleanup can leave a partly deleted partition. `Swept`, `SweptIdempotent` and `Catalog.Cleanup` rest on this all-or-nothing failure.
- Store.FileStore.RemoveTree: a refused path under the prefix makes the whole tree survive; the partial deletion a real recursive delete may leave before it raises is not captured.
- EbiExtract.DayOutcome: the data file holds every field of each buffered sample. `pa.Table.from_pylist(..., schema=get_biosample_schema())` keeps only the schema's fields and raises when a value does not convert (failing the day's task); `omicidx_etl/ebi_biosample/schema.py` is not part of this model, so neither the projection nor that error is modelled.
- Mirror.DateOf: `strptime` is modelled for eight ASCII digits only.
- MirrorParquet: the record iterator is an input stream; `normalize_fn` is an input function.
- EbiUtils.GetDateRanges: the date strings are given already parsed.
- EbiExtract.Extract: yesterday must not be 9999-12-31, where the date range would overflow.
- EbiFetcher.SampleFetcher.Process: the pages must include one that ends the loop. A server that always links to a next page would never stop.
- EbiFetcher.SampleFetcher.ConsumeSamples: needs the same stopping page, and the count already reset to zero, which Process does just before calling it.
- EbiExtract.ProcessByDates: an exception from a write is modelled as a `DayFailed` result, not as a raised error.
- GenerateCatalog: the regex extraction of the MODEL block fields, the comment, sqlglot parsing and the FROM/JOIN regexes are inputs. Quote stripping of table references is not modelled.
- GenerateCatalog.DependenciesMembers: an exception part-way through the sqlglot walk, which would keep a partial set, is not modelled. A parse either fails as a whole or succeeds.
- GenerateCatalog.Enriched: `row_count`, `size_bytes` and the float statistics of `get_table_stats` are left out. Columns are required to carry a name, as `get_table_schema` and `get_table_stats` always give one.
- GenerateCatalog.GenerateCatalogOf: the version, the timestamp, the database path, JSON key order and the output file are left out. The model files are given already sorted.
- Scimago.CleanColumnName: `\w` and `lower()` are modelled for ASCII only. Python keeps non-ASCII letters, and the model turns them into "_".
- Scimago.RenamedColumns: the CSV download, Polars renaming conflicts and the Parquet write are left out.
