/** The Arrow schemas the SRA parquet parts are written with, one per SRA
    entity, and the lookup by entity name (an empty schema for any other
    name). */
module SraSchema {
  import opened Values
  import Mirror

  const IdentifierType: FieldType := StructT([Field("namespace", StringT), Field("id", StringT), Field("uuid", StringT)])
  const AttributeType: FieldType := StructT([Field("tag", StringT), Field("value", StringT)])
  const XrefType: FieldType := StructT([Field("db", StringT), Field("id", StringT)])

  const FileAlternativeType: FieldType :=
    StructT([Field("url", StringT), Field("free_egress", StringT), Field("access_type", StringT), Field("org", StringT)])

  const FileType: FieldType :=
    StructT([
      Field("cluster", StringT), Field("filename", StringT), Field("url", StringT), Field("size", Int64T),
      Field("date", StringT), Field("md5", StringT), Field("sratoolkit", StringT),
      Field("alternatives", ListT(FileAlternativeType))])

  const RunReadType: FieldType :=
    StructT([Field("index", Int64T), Field("count", Int64T), Field("mean_length", Float64T), Field("sd_length", Float64T)])

  const BaseCountType: FieldType := StructT([Field("base", StringT), Field("count", Int64T)])
  const QualityType: FieldType := StructT([Field("quality", Int32T), Field("count", Int64T)])

  const TaxCountEntryType: FieldType :=
    StructT([
      Field("rank", StringT), Field("name", StringT), Field("parent", Int32T),
      Field("total_count", Int64T), Field("self_count", Int64T), Field("tax_id", Int32T)])

  const TaxAnalysisType: FieldType :=
    StructT([
      Field("nspot_analyze", Int64T), Field("total_spots", Int64T), Field("mapped_spots", Int64T),
      Field("tax_counts", ListT(TaxCountEntryType))])

  const ExperimentReadType: FieldType :=
    StructT([Field("base_coord", Int64T), Field("read_class", StringT), Field("read_index", Int64T), Field("read_type", StringT)])

  const RunSchema: Schema := [
    Field("accession", StringT), Field("alias", StringT), Field("experiment_accession", StringT),
    Field("title", StringT), Field("total_spots", Int64T), Field("total_bases", Int64T),
    Field("size", Int64T), Field("avg_length", Float64T),
    Field("identifiers", ListT(IdentifierType)), Field("attributes", ListT(AttributeType)),
    Field("files", ListT(FileType)), Field("reads", ListT(RunReadType)),
    Field("base_counts", ListT(BaseCountType)), Field("qualities", ListT(QualityType)),
    Field("tax_analysis", TaxAnalysisType)]

  const StudySchema: Schema := [
    Field("accession", StringT), Field("study_accession", StringT), Field("alias", StringT),
    Field("title", StringT), Field("description", StringT), Field("abstract", StringT),
    Field("study_type", StringT), Field("center_name", StringT), Field("broker_name", StringT),
    Field("BioProject", StringT), Field("GEO", StringT),
    Field("identifiers", ListT(IdentifierType)), Field("attributes", ListT(AttributeType)),
    Field("xrefs", ListT(XrefType)), Field("pubmed_ids", ListT(StringT))]

  const SampleSchema: Schema := [
    Field("accession", StringT), Field("alias", StringT), Field("title", StringT),
    Field("organism", StringT), Field("description", StringT), Field("taxon_id", Int32T),
    Field("geo", StringT), Field("BioSample", StringT),
    Field("identifiers", ListT(IdentifierType)), Field("attributes", ListT(AttributeType)),
    Field("xrefs", ListT(XrefType))]

  const ExperimentSchema: Schema := [
    Field("accession", StringT), Field("experiment_accession", StringT), Field("alias", StringT),
    Field("title", StringT), Field("description", StringT), Field("design", StringT),
    Field("center_name", StringT), Field("study_accession", StringT), Field("sample_accession", StringT),
    Field("platform", StringT), Field("instrument_model", StringT), Field("library_name", StringT),
    Field("library_construction_protocol", StringT), Field("library_layout", StringT),
    Field("library_layout_orientation", StringT), Field("library_layout_length", StringT),
    Field("library_layout_sdev", StringT), Field("library_strategy", StringT),
    Field("library_source", StringT), Field("library_selection", StringT),
    Field("spot_length", Int64T), Field("nreads", Int64T),
    Field("identifiers", ListT(IdentifierType)), Field("attributes", ListT(AttributeType)),
    Field("xrefs", ListT(XrefType)), Field("reads", ListT(ExperimentReadType))]

  predicate KnownEntityName(name: string)
  {
    name == "run" || name == "study" || name == "sample" || name == "experiment"
  }

  /** `get_pyarrow_schema(name)`: the entity's schema, or an empty schema for
      a name that is not an SRA entity. */
  function GetSchema(name: string): (s: Schema)
    ensures |s| > 0 <==> KnownEntityName(name)
    ensures KnownEntityName(name) ==> s[0] == Field("accession", StringT)
  {
    if name == "run" then RunSchema
    else if name == "study" then StudySchema
    else if name == "sample" then SampleSchema
    else if name == "experiment" then ExperimentSchema
    else []
  }

  predicate DistinctNames(s: Schema)
  {
    forall i, j | 0 <= i < j < |s| :: s[i].name != s[j].name
  }

  /** No column name of rows `lo` up to `hi` of `s` is repeated by a later
      row; the schema facts below prove distinctness a few rows at a time. */
  predicate RowsDistinct(s: Schema, lo: nat, hi: nat)
  {
    forall i, j | lo <= i < hi && i < j < |s| :: s[i].name != s[j].name
  }

  /** Schema `s` has a column `name` of type `t`. */
  predicate HasColumn(s: Schema, name: string, t: FieldType)
  {
    exists i | 0 <= i < |s| :: s[i] == Field(name, t)
  }

  lemma RunRowsA()
    ensures RowsDistinct(RunSchema, 0, 4)
  {
  }

  lemma RunRowsB()
    ensures RowsDistinct(RunSchema, 4, 14)
  {
  }

  lemma RunSchemaFacts()
    ensures |RunSchema| == 15 && DistinctNames(RunSchema)
    ensures HasColumn(RunSchema, "identifiers", ListT(IdentifierType))
    ensures HasColumn(RunSchema, "attributes", ListT(AttributeType))
    ensures forall i | 0 <= i < |RunSchema| :: RunSchema[i].name != "xrefs"
  {
    RunRowsA();
    RunRowsB();
    assert RunSchema[8] == Field("identifiers", ListT(IdentifierType));
    assert RunSchema[9] == Field("attributes", ListT(AttributeType));
  }

  lemma StudyRowsA()
    ensures RowsDistinct(StudySchema, 0, 4)
  {
  }

  lemma StudyRowsB()
    ensures RowsDistinct(StudySchema, 4, 14)
  {
  }

  lemma StudySchemaFacts()
    ensures |StudySchema| == 15 && DistinctNames(StudySchema)
    ensures HasColumn(StudySchema, "identifiers", ListT(IdentifierType))
    ensures HasColumn(StudySchema, "attributes", ListT(AttributeType))
    ensures HasColumn(StudySchema, "xrefs", ListT(XrefType))
  {
    StudyRowsA();
    StudyRowsB();
    assert StudySchema[11] == Field("identifiers", ListT(IdentifierType));
    assert StudySchema[12] == Field("attributes", ListT(AttributeType));
    assert StudySchema[13] == Field("xrefs", ListT(XrefType));
  }

  lemma SampleSchemaFacts()
    ensures |SampleSchema| == 11 && DistinctNames(SampleSchema)
    ensures HasColumn(SampleSchema, "identifiers", ListT(IdentifierType))
    ensures HasColumn(SampleSchema, "attributes", ListT(AttributeType))
    ensures HasColumn(SampleSchema, "xrefs", ListT(XrefType))
  {
    assert SampleSchema[8] == Field("identifiers", ListT(IdentifierType));
    assert SampleSchema[9] == Field("attributes", ListT(AttributeType));
    assert SampleSchema[10] == Field("xrefs", ListT(XrefType));
  }

  lemma ExperimentRowsA()
    ensures RowsDistinct(ExperimentSchema, 0, 3)
  {
  }

  lemma ExperimentRowsB()
    ensures RowsDistinct(ExperimentSchema, 3, 6)
  {
  }

  lemma ExperimentRowsC()
    ensures RowsDistinct(ExperimentSchema, 6, 12)
  {
  }

  lemma ExperimentRowsD()
    ensures RowsDistinct(ExperimentSchema, 12, 18)
  {
  }

  lemma ExperimentRowsE()
    ensures RowsDistinct(ExperimentSchema, 18, 25)
  {
  }

  lemma ExperimentSchemaFacts()
    ensures |ExperimentSchema| == 26 && DistinctNames(ExperimentSchema)
    ensures HasColumn(ExperimentSchema, "identifiers", ListT(IdentifierType))
    ensures HasColumn(ExperimentSchema, "attributes", ListT(AttributeType))
    ensures HasColumn(ExperimentSchema, "xrefs", ListT(XrefType))
  {
    ExperimentRowsA();
    ExperimentRowsB();
    ExperimentRowsC();
    ExperimentRowsD();
    ExperimentRowsE();
    assert ExperimentSchema[22] == Field("identifiers", ListT(IdentifierType));
    assert ExperimentSchema[23] == Field("attributes", ListT(AttributeType));
    assert ExperimentSchema[24] == Field("xrefs", ListT(XrefType));
  }

  /** Every entity the mirror recognises has a schema with no repeated column
      name; all four carry `identifiers` and `attributes` with one shared type,
      and all but run carry `xrefs`. */
  lemma EntitySchemas(e: Mirror.Entity)
    ensures KnownEntityName(Mirror.EntityName(e))
    ensures DistinctNames(GetSchema(Mirror.EntityName(e)))
    ensures HasColumn(GetSchema(Mirror.EntityName(e)), "identifiers", ListT(IdentifierType))
    ensures HasColumn(GetSchema(Mirror.EntityName(e)), "attributes", ListT(AttributeType))
    ensures HasColumn(GetSchema(Mirror.EntityName(e)), "xrefs", ListT(XrefType)) <==> !e.Run?
  {
    match e
    case Run =>
      RunSchemaFacts();
      assert GetSchema("run") == RunSchema;
    case Study =>
      StudySchemaFacts();
      assert GetSchema("study") == StudySchema;
    case Sample =>
      SampleSchemaFacts();
      assert GetSchema("sample") == SampleSchema;
    case Experiment =>
      ExperimentSchemaFacts();
      assert GetSchema("experiment") == ExperimentSchema;
  }
}
