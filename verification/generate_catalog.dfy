/** The catalog generator for the SQL models: each model file's `MODEL (...)`
    header gives a name, kind and schedule, the query's table references give
    its dependencies, and the catalog inverts those into dependents and groups
    the models by layer. The regular expressions, the SQL parser and the
    DuckDB queries are inputs here: a file arrives with the fields its header
    regexes matched and the table references the parser found. */
module GenerateCatalog {
  import opened Common
  import opened Values

  // ---------------------------------------------------------------------------
  // parse_model_file
  // ---------------------------------------------------------------------------

  /** The captures of the header regexes inside a `MODEL (...);` block. */
  datatype ModelBlock = ModelBlock(
    name: Option<string>,
    kind: Option<string>,
    grain: Option<string>,
    cron: Option<string>,
    timeColumn: Option<string>)

  /** A column as DESCRIBE or the statistics queries report it: a dict whose
      "name" entry names the column. */
  type Column = map<string, Value>

  /** The dict `parse_model_file` returns, with the keys the catalog adds
      later (`dependencies`, `columns`, `dependents`) as optional fields:
      `None` is a key that is not set. */
  datatype ModelInfo = ModelInfo(
    name: Option<string>,
    schema: Option<string>,
    tableName: Option<string>,
    kind: string,
    grain: Option<string>,
    cron: Option<string>,
    timeColumn: Option<string>,
    description: Option<string>,
    filePath: string,
    sqlContent: string,
    dependencies: Option<seq<string>>,
    columns: Option<seq<Column>>,
    dependents: Option<seq<Option<string>>>)

  /** Python truthiness of an optional string: present and non-empty. */
  predicate Truthy(s: Option<string>)
  {
    s.Some? && s.value != ""
  }

  const DefaultKind: string := "VIEW"

  /** The index of the first `c` in `s`, or `|s|` when there is none. */
  function FirstIndex(s: string, c: char): (i: nat)
    ensures i <= |s|
    ensures forall k | 0 <= k < i :: s[k] != c
    ensures i < |s| ==> s[i] == c
  {
    if |s| == 0 then 0 else if s[0] == c then 0 else 1 + FirstIndex(s[1..], c)
  }

  /** `name.split('.')`, kept only when it gives two parts: a qualified name
      yields its schema and table, any other name is all table. */
  function SplitName(name: string): (r: (Option<string>, string))
    ensures r.0.Some? ==> name == r.0.value + "." + r.1 && '.' !in r.0.value && '.' !in r.1
    ensures r.0.None? ==> r.1 == name
  {
    var i := FirstIndex(name, '.');
    if i < |name| && '.' !in name[i + 1..] then
      assert name == name[..i] + "." + name[i + 1..];
      (Some(name[..i]), name[i + 1..])
    else (None, name)
  }

  /** The split finds a schema exactly when the name holds exactly one dot. */
  lemma SplitNameOneDot(name: string)
    ensures SplitName(name).0.Some? <==> CountChar(name, '.') == 1
  {
    var i := FirstIndex(name, '.');
    if i < |name| {
      var pre, post := name[..i], name[i + 1..];
      assert name == pre + "." + post;
      CountCharAppend(pre + ".", post, '.');
      CountCharAppend(pre, ".", '.');
      CountCharZero(pre, '.');
      CountCharZero(post, '.');
      assert CountChar(".", '.') == 1 by {
        assert "."[..0] == [];
      }
    } else {
      assert name[..i] == name;
      CountCharZero(name, '.');
    }
  }

  /** Joining a schema and a table that hold no dot and splitting again gives
      them back. */
  lemma SplitNameJoin(schema: string, table: string)
    requires '.' !in schema && '.' !in table
    ensures SplitName(schema + "." + table) == (Some(schema), table)
  {
    var name := schema + "." + table;
    var i := FirstIndex(name, '.');
    assert name[|schema|] == '.';
    assert forall k | 0 <= k < |schema| :: name[k] == schema[k];
    assert i == |schema|;
    assert name[..i] == schema && name[i + 1..] == table;
  }

  /** `parse_model_file` on a file whose text is `content`: `block` is the
      `MODEL (...);` block's captures, `None` when the block regex does not
      match, and `comment` the stripped text of the first `--` line. */
  function ParseModelFile(filePath: string, content: string, block: Option<ModelBlock>, comment: Option<string>)
    : (r: Option<ModelInfo>)
    ensures r.None? <==> block.None?
    ensures r.Some? ==> block.Some? && r.value.name == block.value.name
    ensures r.Some? && block.value.kind.None? ==> r.value.kind == DefaultKind
    ensures r.Some? && block.value.kind.Some? ==> r.value.kind == block.value.kind.value
    ensures r.Some? ==> (r.value.tableName.Some? <==> Truthy(r.value.name))
    ensures r.Some? && r.value.schema.Some? ==>
      r.value.tableName.Some? && r.value.name == Some(r.value.schema.value + "." + r.value.tableName.value)
    ensures r.Some? && r.value.schema.None? && Truthy(r.value.name) ==> r.value.tableName == r.value.name
    ensures r.Some? ==> r.value.dependencies.None? && r.value.columns.None? && r.value.dependents.None?
  {
    match block
    case None => None
    case Some(b) =>
      var parts := if Truthy(b.name) then SplitName(b.name.value) else (None, "");
      Some(ModelInfo(
        name := b.name,
        schema := parts.0,
        tableName := if Truthy(b.name) then Some(parts.1) else None,
        kind := if b.kind.Some? then b.kind.value else DefaultKind,
        grain := b.grain,
        cron := b.cron,
        timeColumn := b.timeColumn,
        description := comment,
        filePath := filePath,
        sqlContent := content,
        dependencies := None,
        columns := None,
        dependents := None))
  }

  // ---------------------------------------------------------------------------
  // extract_dependencies
  // ---------------------------------------------------------------------------

  /** What parsing the query gave: the references of its tables and of the
      tables inside its CTEs, or nothing (`parse_one` returned nothing), or a
      failure, after which the FROM and JOIN regexes supply the references. */
  datatype TableRefs =
    | Parsed(tables: seq<string>, cteTables: seq<string>)
    | NotParsed
    | ParseFailed(fromMatches: seq<string>, joinMatches: seq<string>)

  predicate StartsWith(s: string, prefix: string)
  {
    |prefix| <= |s| && s[..|prefix|] == prefix
  }

  predicate EndsWith(s: string, suffix: string)
  {
    |suffix| <= |s| && s[|s| - |suffix|..] == suffix
  }

  /** `name.split(".")[-1]`: the text after the last dot. */
  function LastPart(name: string): (r: string)
    ensures '.' !in r
    ensures EndsWith(name, r)
    ensures r != name ==> EndsWith(name, "." + r)
  {
    if |name| == 0 then ""
    else if name[|name| - 1] == '.' then
      assert name[|name| - 1..] == ".";
      ""
    else
      var r0 := LastPart(name[..|name| - 1]);
      if r0 == name[..|name| - 1] then
        assert name[|name| - |name|..] == name;
        name
      else
        var r := r0 + [name[|name| - 1]];
        assert name == name[..|name| - 1] + [name[|name| - 1]];
        LastPartStep(name[..|name| - 1], name[|name| - 1], r0);
        r
  }

  /** One more character after a dot-free tail that follows a dot. */
  lemma LastPartStep(p: string, c: char, r0: string)
    requires c != '.' && '.' !in r0 && EndsWith(p, "." + r0)
    ensures '.' !in r0 + [c]
    ensures EndsWith(p + [c], r0 + [c]) && EndsWith(p + [c], "." + (r0 + [c]))
  {
    var n := |p + [c]|;
    assert (p + [c])[n - |"." + (r0 + [c])|..] == p[|p| - |"." + r0|..] + [c];
    assert (p + [c])[n - |r0 + [c]|..] == (p + [c])[n - |"." + (r0 + [c])|..][1..];
  }

  /** A reference the parser path skips as the model itself. */
  predicate SelfReference(ref: string, modelName: string)
  {
    ref == modelName || EndsWith(ref, "." + LastPart(modelName))
  }

  /** Kept as a model reference: it has a dot or a layer prefix. */
  predicate ModelReference(ref: string)
  {
    '.' in ref || StartsWith(ref, "raw.") || StartsWith(ref, "bronze.") || StartsWith(ref, "geometadb.")
  }

  /** Every layer prefix ends in a dot, so the test is "has a dot". */
  lemma ModelReferenceHasDot(ref: string)
    ensures ModelReference(ref) <==> '.' in ref
  {
    if StartsWith(ref, "raw.") {
      assert ref[3] == "raw."[3];
    }
    if StartsWith(ref, "bronze.") {
      assert ref[6] == "bronze."[6];
    }
    if StartsWith(ref, "geometadb.") {
      assert ref[9] == "geometadb."[9];
    }
  }

  /** The references the dependency set collects, before sorting. */
  function Candidates(refs: TableRefs, modelName: string): seq<string>
  {
    match refs
    case Parsed(tables, cteTables) =>
      Filter(tables, t => !SelfReference(t, modelName) && ModelReference(t)) + Filter(cteTables, ModelReference)
    case NotParsed => []
    case ParseFailed(fromMatches, joinMatches) => Filter(fromMatches + joinMatches, ModelReference)
  }

  /** Insert `x` into a strictly sorted list, unless it is already there. */
  function Insert(x: string, r: seq<string>): (q: seq<string>)
    requires StrictlySorted(r)
    ensures StrictlySorted(q)
    ensures forall y :: y in q <==> y == x || y in r
  {
    if |r| == 0 then [x]
    else if x == r[0] then r
    else if LexLess(x, r[0]) then
      forall j | 0 <= j < |r|
        ensures LexLess(x, r[j])
      {
        if j > 0 {
          LexLessTransitive(x, r[0], r[j]);
        }
      }
      [x] + r
    else
      LexLessTotal(x, r[0]);
      var tail := Insert(x, r[1..]);
      assert forall y | y in tail :: y in r[1..] || y == x;
      forall j | 0 <= j < |tail|
        ensures LexLess(r[0], tail[j])
      {
        assert tail[j] in tail;
      }
      [r[0]] + tail
  }

  /** `sorted(set(refs))`. */
  function SortUnique(refs: seq<string>): (r: seq<string>)
    ensures StrictlySorted(r)
    ensures forall y :: y in r <==> y in refs
  {
    if |refs| == 0 then []
    else
      var r0 := SortUnique(refs[..|refs| - 1]);
      assert refs == refs[..|refs| - 1] + [refs[|refs| - 1]];
      Insert(refs[|refs| - 1], r0)
  }

  /** `extract_dependencies(sql, model_name)`, the parse of `sql` given as
      `refs`. */
  function ExtractDependencies(refs: TableRefs, modelName: string): (deps: seq<string>)
    ensures StrictlySorted(deps)
  {
    SortUnique(Candidates(refs, modelName))
  }

  /** The dependencies are exactly the dotted references the query's path
      collects, without duplicates and in code-point order. */
  lemma DependenciesMembers(refs: TableRefs, modelName: string, x: string)
    ensures x in ExtractDependencies(refs, modelName) <==> '.' in x && match refs
      case Parsed(tables, cteTables) => (x in tables && !SelfReference(x, modelName)) || x in cteTables
      case NotParsed => false
      case ParseFailed(fromMatches, joinMatches) => x in fromMatches || x in joinMatches
  {
    ModelReferenceHasDot(x);
    match refs
    case Parsed(tables, cteTables) =>
      FilterMember(tables, t => !SelfReference(t, modelName) && ModelReference(t), x);
      FilterMember(cteTables, ModelReference, x);
    case NotParsed =>
    case ParseFailed(fromMatches, joinMatches) =>
      FilterMember(fromMatches + joinMatches, ModelReference, x);
  }

  // ---------------------------------------------------------------------------
  // build_dependency_graph
  // ---------------------------------------------------------------------------

  /** `model.get('dependencies', [])`: a model without the key depends on
      nothing. */
  function Deps(m: ModelInfo): seq<string>
  {
    if m.dependencies.Some? then m.dependencies.value else []
  }

  /** The names, in model order, of the models other than those named `n`
      whose dependencies contain `n`: one pass of the inner loop. */
  function DependentsOf(models: seq<ModelInfo>, n: string): seq<Option<string>>
  {
    if |models| == 0 then []
    else
      var other := models[|models| - 1];
      DependentsOf(models[..|models| - 1], n) + (if other.name != Some(n) && n in Deps(other) then [other.name] else [])
  }

  lemma DependentsOfOneMore(models: seq<ModelInfo>, n: string, j: nat)
    requires j < |models|
    ensures DependentsOf(models[..j + 1], n) ==
      DependentsOf(models[..j], n) + (if models[j].name != Some(n) && n in Deps(models[j]) then [models[j].name] else [])
  {
    TakeOneMore(models, j);
  }

  /** How many of the first `upTo` models carry the name `n`. */
  function NameCount(models: seq<ModelInfo>, upTo: nat, n: string): nat
    requires upTo <= |models|
  {
    if upTo == 0 then 0
    else NameCount(models, upTo - 1, n) + (if Truthy(models[upTo - 1].name) && models[upTo - 1].name.value == n then 1 else 0)
  }

  /** `s` repeated `k` times. */
  function Times<T>(s: seq<T>, k: nat): seq<T>
  {
    if k == 0 then [] else Times(s, k - 1) + s
  }

  /** The dependents map after the outer loop has visited the first `upTo`
      models. */
  function Graph(models: seq<ModelInfo>, upTo: nat): map<string, seq<Option<string>>>
    requires upTo <= |models|
  {
    if upTo == 0 then map[]
    else
      var g := Graph(models, upTo - 1);
      var m := models[upTo - 1];
      if !Truthy(m.name) then g
      else
        var n := m.name.value;
        var start := if n in g then g[n] else [];
        g[n := start + DependentsOf(models, n)]
  }

  /** `build_dependency_graph(models)`. */
  method BuildDependencyGraph(models: seq<ModelInfo>) returns (dependents: map<string, seq<Option<string>>>)
    ensures dependents == Graph(models, |models|)
  {
    dependents := map[];
    for i := 0 to |models|
      invariant dependents == Graph(models, i)
    {
      var modelName := models[i].name;
      if !Truthy(modelName) {
        continue;
      }
      var n := modelName.value;
      if n !in dependents {
        dependents := dependents[n := []];
      }
      ghost var initial := dependents;
      ghost var start := dependents[n];
      AppendEmpty(start);
      UpdateSame(initial, n);
      for j := 0 to |models|
        invariant dependents == initial[n := start + DependentsOf(models[..j], n)]
      {
        DependentsOfOneMore(models, n, j);
        var other := models[j];
        if other.name == modelName {
          AppendEmpty(DependentsOf(models[..j], n));
          continue;
        }
        var deps := Deps(other);
        if n in deps {
          AppendAssoc(start, DependentsOf(models[..j], n), [other.name]);
          UpdateOver(initial, n, start + DependentsOf(models[..j], n), start + DependentsOf(models[..j + 1], n));
          dependents := dependents[n := dependents[n] + [other.name]];
        } else {
          AppendEmpty(DependentsOf(models[..j], n));
        }
      }
      TakeAll(models);
      UpdateTwice(Graph(models, i), n, [], start + DependentsOf(models, n));
    }
  }

  /** Every named model has an entry, repeating its dependents once per
      model of that name; nameless models have none. */
  lemma {:induction false} GraphEntries(models: seq<ModelInfo>, upTo: nat, n: string)
    requires upTo <= |models|
    ensures n in Graph(models, upTo) <==> NameCount(models, upTo, n) > 0
    ensures n in Graph(models, upTo) ==> Graph(models, upTo)[n] == Times(DependentsOf(models, n), NameCount(models, upTo, n))
  {
    if upTo > 0 {
      GraphEntries(models, upTo - 1, n);
      var m := models[upTo - 1];
      if Truthy(m.name) && m.name.value == n && NameCount(models, upTo - 1, n) == 0 {
        AppendEmpty<Option<string>>([]);
      }
    }
  }

  /** The keys of the graph are the names of the named models. */
  lemma GraphKeys(models: seq<ModelInfo>, n: string)
    ensures n in Graph(models, |models|) <==>
      exists k | 0 <= k < |models| :: Truthy(models[k].name) && models[k].name.value == n
  {
    NameCountPositive(models, |models|, n);
    GraphEntries(models, |models|, n);
  }

  lemma {:induction false} NameCountPositive(models: seq<ModelInfo>, upTo: nat, n: string)
    requires upTo <= |models|
    ensures NameCount(models, upTo, n) > 0 <==>
      exists k | 0 <= k < upTo :: Truthy(models[k].name) && models[k].name.value == n
  {
    if upTo > 0 {
      NameCountPositive(models, upTo - 1, n);
    }
  }

  /** When no two named models share a name, the entry of a model is its
      dependents list, once. */
  lemma GraphOfDistinctNames(models: seq<ModelInfo>, n: string)
    requires forall a, b | 0 <= a < b < |models| :: Truthy(models[a].name) ==> models[a].name != models[b].name
    requires n in Graph(models, |models|)
    ensures Graph(models, |models|)[n] == DependentsOf(models, n)
  {
    GraphEntries(models, |models|, n);
    NameCountAtMostOne(models, |models|, n);
    AppendEmpty<Option<string>>([]);
    assert Times(DependentsOf(models, n), 1) == [] + DependentsOf(models, n);
  }

  lemma {:induction false} NameCountAtMostOne(models: seq<ModelInfo>, upTo: nat, n: string)
    requires upTo <= |models|
    requires forall a, b | 0 <= a < b < |models| :: Truthy(models[a].name) ==> models[a].name != models[b].name
    ensures NameCount(models, upTo, n) <= 1
  {
    if upTo > 0 {
      NameCountAtMostOne(models, upTo - 1, n);
      NameCountPositive(models, upTo - 1, n);
    }
  }

  /** A model's dependents are the other models listing it among their
      dependencies; a model is never its own dependent, and a model without
      a `dependencies` key depends on nothing. */
  lemma {:induction false} DependentsOfMembers(models: seq<ModelInfo>, n: string, x: Option<string>)
    ensures x in DependentsOf(models, n) <==>
      x != Some(n) && exists k | 0 <= k < |models| :: Lists(models[k], x, n)
  {
    if |models| > 0 {
      var last := |models| - 1;
      var prefix := models[..last];
      DependentsOfMembers(prefix, n, x);
      assert forall k | 0 <= k < last :: prefix[k] == models[k];
      if x in DependentsOf(models, n) && x !in DependentsOf(prefix, n) {
        assert Lists(models[last], x, n);
      }
    }
  }

  /** Model `m`, named `x`, lists `n` among its dependencies. */
  predicate Lists(m: ModelInfo, x: Option<string>, n: string)
  {
    m.name == x && n in Deps(m)
  }

  // ---------------------------------------------------------------------------
  // Layers
  // ---------------------------------------------------------------------------

  const Layers: set<string> := {"raw", "bronze", "geometadb"}

  /** The names, in model order, of the models whose schema is `layer`. */
  function LayerMembers(models: seq<ModelInfo>, layer: string): seq<Option<string>>
  {
    if |models| == 0 then []
    else
      var m := models[|models| - 1];
      LayerMembers(models[..|models| - 1], layer) + (if m.schema == Some(layer) then [m.name] else [])
  }

  /** The `layers` dict of `generate_catalog`: one list per layer schema. */
  method GroupLayers(models: seq<ModelInfo>) returns (layers: map<string, seq<Option<string>>>)
    ensures layers.Keys == Layers
    ensures forall l | l in layers :: layers[l] == LayerMembers(models, l)
  {
    layers := map["raw" := [], "bronze" := [], "geometadb" := []];
    for i := 0 to |models|
      invariant layers.Keys == Layers
      invariant forall l | l in layers :: layers[l] == LayerMembers(models[..i], l)
    {
      TakeOneMore(models, i);
      var schema := models[i].schema;
      if schema.Some? && schema.value in layers {
        layers := layers[schema.value := layers[schema.value] + [models[i].name]];
      }
    }
    TakeAll(models);
  }

  /** A model is listed under a layer exactly when its schema is that
      layer, so no model is under two layers and models of other schemas
      are under none. */
  lemma {:induction false} LayerMembersExact(models: seq<ModelInfo>, layer: string, x: Option<string>)
    ensures x in LayerMembers(models, layer) <==>
      exists k | 0 <= k < |models| :: InLayer(models[k], layer, x)
  {
    if |models| > 0 {
      var last := |models| - 1;
      var prefix := models[..last];
      LayerMembersExact(prefix, layer, x);
      assert forall k | 0 <= k < last :: prefix[k] == models[k];
      if x in LayerMembers(models, layer) && x !in LayerMembers(prefix, layer) {
        assert InLayer(models[last], layer, x);
      }
    }
  }

  /** Model `m`, named `x`, belongs to schema `layer`. */
  predicate InLayer(m: ModelInfo, layer: string, x: Option<string>)
  {
    m.schema == Some(layer) && m.name == x
  }

  // ---------------------------------------------------------------------------
  // Merging column statistics into the described columns
  // ---------------------------------------------------------------------------

  predicate AllNamed(cols: seq<Column>)
  {
    forall k | 0 <= k < |cols| :: "name" in cols[k]
  }

  /** `c.update({k: v for k, v in stat.items() if k != 'name' and v is not
      None})`. */
  function UpdateWith(c: Column, stat: Column): Column
  {
    map k | k in c.Keys + stat.Keys && (k in c || (k != "name" && stat[k] != Null)) ::
      if k in stat && k != "name" && stat[k] != Null then stat[k] else c[k]
  }

  /** Column `c` after the updates of every statistics column carrying its
      name, in order. */
  function ApplyStats(c: Column, stats: seq<Column>): Column
    requires "name" in c && AllNamed(stats)
  {
    if |stats| == 0 then c
    else
      var c0 := ApplyStats(c, stats[..|stats| - 1]);
      var stat := stats[|stats| - 1];
      if stat["name"] == c["name"] then UpdateWith(c0, stat) else c0
  }

  /** The value that the last statistics column for `name` gives key `k`,
      skipping the "name" key and None values. */
  function LastStat(stats: seq<Column>, name: Value, k: string): Option<Value>
    requires AllNamed(stats)
  {
    if |stats| == 0 then None
    else
      var stat := stats[|stats| - 1];
      if stat["name"] == name && k != "name" && k in stat && stat[k] != Null then Some(stat[k])
      else LastStat(stats[..|stats| - 1], name, k)
  }

  /** The column names in order of first appearance: the key order of the
      dict built from the described columns. */
  function DistinctNames(cols: seq<Column>): (d: seq<Value>)
    requires AllNamed(cols)
  {
    if |cols| == 0 then []
    else
      var d0 := DistinctNames(cols[..|cols| - 1]);
      var name := cols[|cols| - 1]["name"];
      if name in d0 then d0 else d0 + [name]
  }

  /** The position of the last column named `name`: the column the dict
      keeps. */
  function LastIndexOf(cols: seq<Column>, name: Value): (k: nat)
    requires AllNamed(cols) && name in DistinctNames(cols)
    ensures k < |cols| && cols[k]["name"] == name
    ensures forall j | k < j < |cols| :: cols[j]["name"] != name
  {
    var last := |cols| - 1;
    if cols[last]["name"] == name then last else LastIndexOf(cols[..last], name)
  }

  function LastWithName(cols: seq<Column>, name: Value): (c: Column)
    requires AllNamed(cols) && name in DistinctNames(cols)
    ensures "name" in c && c["name"] == name
  {
    cols[LastIndexOf(cols, name)]
  }

  /** The merged column list: one column per distinct name, in order of
      first appearance, holding the last described column of that name with
      the statistics applied. */
  function Merged(cols: seq<Column>, stats: seq<Column>): seq<Column>
    requires AllNamed(cols) && AllNamed(stats)
  {
    var d := DistinctNames(cols);
    seq(|d|, i requires 0 <= i < |d| => ApplyStats(LastWithName(cols, d[i]), stats))
  }

  /** The merged names are the described names, each once. */
  lemma {:induction false} DistinctNamesExact(cols: seq<Column>)
    requires AllNamed(cols)
    ensures forall v :: v in DistinctNames(cols) <==> exists k | 0 <= k < |cols| :: cols[k]["name"] == v
    ensures forall i, j | 0 <= i < j < |DistinctNames(cols)| :: DistinctNames(cols)[i] != DistinctNames(cols)[j]
  {
    if |cols| > 0 {
      var last := |cols| - 1;
      var prefix := cols[..last];
      DistinctNamesExact(prefix);
      assert forall k | 0 <= k < last :: prefix[k] == cols[k];
    }
  }

  /** After the statistics, a key other than "name" holds the value the
      last statistics column for the column gave it, or else keeps the
      described value; "name" keeps the column's name. */
  lemma {:induction false} ApplyStatsValue(c: Column, stats: seq<Column>, k: string)
    requires "name" in c && AllNamed(stats)
    ensures "name" in ApplyStats(c, stats) && ApplyStats(c, stats)["name"] == c["name"]
    ensures k != "name" && LastStat(stats, c["name"], k).Some? ==>
      k in ApplyStats(c, stats) && ApplyStats(c, stats)[k] == LastStat(stats, c["name"], k).value
    ensures k != "name" && LastStat(stats, c["name"], k).None? ==>
      (k in ApplyStats(c, stats) <==> k in c) && (k in c ==> ApplyStats(c, stats)[k] == c[k])
  {
    if |stats| > 0 {
      ApplyStatsValue(c, stats[..|stats| - 1], k);
      ApplyStatsValue(c, stats[..|stats| - 1], "name");
    }
  }

  /** `{col['name']: col for col in columns}`: a later column replaces an
      earlier one of the same name, which keeps its place in the key order. */
  method KeyByName(columns: seq<Column>) returns (colDict: map<Value, Column>, order: seq<Value>)
    requires AllNamed(columns)
    ensures order == DistinctNames(columns)
    ensures forall v :: v in colDict <==> v in order
    ensures forall v | v in colDict :: colDict[v] == LastWithName(columns, v)
  {
    colDict := map[];
    order := [];
    for i := 0 to |columns|
      invariant order == DistinctNames(columns[..i])
      invariant forall v :: v in colDict <==> v in order
      invariant forall v | v in colDict :: colDict[v] == LastWithName(columns[..i], v)
    {
      TakeOneMore(columns, i);
      var name := columns[i]["name"];
      if name !in colDict {
        order := order + [name];
      }
      colDict := colDict[name := columns[i]];
    }
    TakeAll(columns);
  }

  /** The merge of `generate_catalog`: the described columns keyed by name,
      each updated by the statistics columns of the same name, listed in
      key order. */
  method MergeColumns(columns: seq<Column>, stats: seq<Column>) returns (merged: seq<Column>)
    requires AllNamed(columns) && AllNamed(stats)
    ensures merged == Merged(columns, stats)
  {
    var colDict, order := KeyByName(columns);
    for j := 0 to |stats|
      invariant forall v :: v in colDict <==> v in order
      invariant forall v | v in colDict :: colDict[v] == ApplyStats(LastWithName(columns, v), stats[..j])
    {
      TakeOneMore(stats, j);
      var name := stats[j]["name"];
      if name in colDict {
        colDict := colDict[name := UpdateWith(colDict[name], stats[j])];
      }
    }
    TakeAll(stats);
    merged := seq(|order|, i requires 0 <= i < |order| => colDict[order[i]]);
  }

  // ---------------------------------------------------------------------------
  // generate_catalog
  // ---------------------------------------------------------------------------

  /** A model file as the catalog reads it: its path and text, what the
      header regexes captured, the first comment line, and the table
      references the SQL parser reports for its text. */
  datatype ModelFile = ModelFile(
    path: string,
    content: string,
    block: Option<ModelBlock>,
    comment: Option<string>,
    refs: TableRefs)

  /** The file parses to a model with a name, so it is collected. */
  predicate HasNamedModel(f: ModelFile)
  {
    var info := ParseModelFile(f.path, f.content, f.block, f.comment);
    info.Some? && Truthy(info.value.name)
  }

  /** The collected model of a file: its parse with its dependencies. */
  function ToModel(f: ModelFile): (m: ModelInfo)
    requires HasNamedModel(f)
    ensures Truthy(m.name) && m.dependencies.Some? && StrictlySorted(m.dependencies.value)
    ensures m.columns.None? && m.dependents.None?
  {
    var info := ParseModelFile(f.path, f.content, f.block, f.comment).value;
    info.(dependencies := Some(ExtractDependencies(f.refs, info.name.value)))
  }

  /** The models the parse loop of `generate_catalog` collects from the
      (sorted) model files. */
  function Collected(files: seq<ModelFile>): seq<ModelInfo>
  {
    if |files| == 0 then []
    else
      var f := files[|files| - 1];
      Collected(files[..|files| - 1]) + (if HasNamedModel(f) then [ToModel(f)] else [])
  }

  /** The parse loop of `generate_catalog`. */
  method CollectModels(files: seq<ModelFile>) returns (models: seq<ModelInfo>)
    ensures models == Collected(files)
  {
    models := [];
    for i := 0 to |files|
      invariant models == Collected(files[..i])
    {
      TakeOneMore(files, i);
      var f := files[i];
      var modelInfo := ParseModelFile(f.path, f.content, f.block, f.comment);
      if modelInfo.Some? && Truthy(modelInfo.value.name) {
        var deps := ExtractDependencies(f.refs, modelInfo.value.name.value);
        models := models + [modelInfo.value.(dependencies := Some(deps))];
      } else {
        AppendEmpty(models);
      }
    }
    TakeAll(files);
  }

  /** A file's model is collected exactly when the file has a `MODEL`
      block with a name; a collected model has a name and sorted,
      duplicate-free dependencies. */
  lemma {:induction false} CollectedExact(files: seq<ModelFile>, m: ModelInfo)
    ensures m in Collected(files) <==> exists i | 0 <= i < |files| :: HasNamedModel(files[i]) && ToModel(files[i]) == m
    ensures m in Collected(files) ==>
      Truthy(m.name) && m.dependencies.Some? && StrictlySorted(m.dependencies.value)
  {
    if |files| > 0 {
      var last := |files| - 1;
      var prefix := files[..last];
      var tail := if HasNamedModel(files[last]) then [ToModel(files[last])] else [];
      assert Collected(files) == Collected(prefix) + tail;
      CollectedExact(prefix, m);
      if m in Collected(files) {
        if m in Collected(prefix) {
          var i :| 0 <= i < |prefix| && HasNamedModel(prefix[i]) && ToModel(prefix[i]) == m;
          assert files[i] == prefix[i];
        } else {
          assert m in tail;
        }
      } else {
        forall i | 0 <= i < |files| && HasNamedModel(files[i])
          ensures ToModel(files[i]) != m
        {
          if i < last {
            assert files[i] == prefix[i];
          }
        }
      }
    }
  }

  /** What the DuckDB lookups give for a table: `describe(schema, table)`
      is the column list of `get_table_schema` (empty for `None`) and
      `statistics(schema, table, columns)` the column list of
      `get_table_stats`. */
  datatype Database = Database(
    describe: (string, string) -> seq<Column>,
    statistics: (string, string, seq<Column>) -> seq<Column>)

  ghost predicate WellFormed(db: Database)
  {
    && (forall s, t :: AllNamed(db.describe(s, t)))
    && (forall s, t, cols :: AllNamed(db.statistics(s, t, cols)))
  }

  predicate ColumnsNamed(m: ModelInfo)
  {
    m.columns.Some? ==> AllNamed(m.columns.value)
  }

  /** The columns a model ends with after the database lookups. */
  function Enriched(m: ModelInfo, db: Database): (r: ModelInfo)
    requires WellFormed(db) && ColumnsNamed(m)
    ensures r == m.(columns := r.columns)
  {
    if Truthy(m.schema) && Truthy(m.tableName) then
      var described := db.describe(m.schema.value, m.tableName.value);
      var current := if |described| > 0 then Some(described) else m.columns;
      var columns := if current.Some? then current.value else [];
      var stats := db.statistics(m.schema.value, m.tableName.value, columns);
      m.(columns :=
        if |columns| > 0 && |stats| > 0 then Some(Merged(columns, stats))
        else if |stats| > 0 then Some(stats)
        else current)
    else m
  }

  /** The enrichment loop of `generate_catalog` (run when the database
      file exists). */
  method EnrichModels(models: seq<ModelInfo>, db: Database) returns (enriched: seq<ModelInfo>)
    requires WellFormed(db) && forall k | 0 <= k < |models| :: ColumnsNamed(models[k])
    ensures |enriched| == |models|
    ensures forall k | 0 <= k < |models| :: enriched[k] == Enriched(models[k], db)
  {
    enriched := [];
    for i := 0 to |models|
      invariant |enriched| == i
      invariant forall k | 0 <= k < i :: enriched[k] == Enriched(models[k], db)
    {
      var model := models[i];
      var schema, table := model.schema, model.tableName;
      if Truthy(schema) && Truthy(table) {
        var described := db.describe(schema.value, table.value);
        if |described| > 0 {
          model := model.(columns := Some(described));
        }
        var columns := if model.columns.Some? then model.columns.value else [];
        var stats := db.statistics(schema.value, table.value, columns);
        if |columns| > 0 && |stats| > 0 {
          var merged := MergeColumns(columns, stats);
          model := model.(columns := Some(merged));
        } else if |stats| > 0 {
          model := model.(columns := Some(stats));
        }
      }
      enriched := enriched + [model];
    }
  }

  /** `dependents_map.get(model_name, [])`. */
  function Entry(graph: map<string, seq<Option<string>>>, name: Option<string>): seq<Option<string>>
  {
    if name.Some? && name.value in graph then graph[name.value] else []
  }

  /** The loop of `generate_catalog` that stores each model's dependents. */
  method AttachDependents(models: seq<ModelInfo>, graph: map<string, seq<Option<string>>>) returns (tables: seq<ModelInfo>)
    ensures |tables| == |models|
    ensures forall k | 0 <= k < |models| :: tables[k] == models[k].(dependents := Some(Entry(graph, models[k].name)))
  {
    tables := [];
    for i := 0 to |models|
      invariant |tables| == i
      invariant forall k | 0 <= k < i :: tables[k] == models[k].(dependents := Some(Entry(graph, models[k].name)))
    {
      var model := models[i];
      model := model.(dependents := Some(Entry(graph, model.name)));
      tables := tables + [model];
    }
  }

  /** The catalog: the tables and the layer lists. */
  datatype Catalog = Catalog(tables: seq<ModelInfo>, layers: map<string, seq<Option<string>>>)

  /** The models after the optional database enrichment. */
  function Models(files: seq<ModelFile>, dbExists: bool, db: Database): (models: seq<ModelInfo>)
    requires WellFormed(db)
    ensures |models| == |Collected(files)|
    ensures forall k | 0 <= k < |models| :: models[k] == Collected(files)[k].(columns := models[k].columns)
  {
    var collected := Collected(files);
    if dbExists then
      forall k | 0 <= k < |collected|
        ensures ColumnsNamed(collected[k])
      {
        CollectedExact(files, collected[k]);
      }
      seq(|collected|, k requires 0 <= k < |collected| => Enriched(collected[k], db))
    else collected
  }

  /** The catalog `generate_catalog` builds from the model files. */
  function CatalogOf(files: seq<ModelFile>, dbExists: bool, db: Database): Catalog
    requires WellFormed(db)
  {
    var models := Models(files, dbExists, db);
    var graph := Graph(models, |models|);
    Catalog(
      seq(|models|, k requires 0 <= k < |models| => models[k].(dependents := Some(Entry(graph, models[k].name)))),
      map l | l in Layers :: LayerMembers(models, l))
  }

  /** `generate_catalog`, without the timestamp, the database path and the
      JSON output. */
  method GenerateCatalogOf(files: seq<ModelFile>, dbExists: bool, db: Database) returns (catalog: Catalog)
    requires WellFormed(db)
    ensures catalog == CatalogOf(files, dbExists, db)
  {
    var models := CollectModels(files);
    if dbExists {
      forall k | 0 <= k < |models|
        ensures ColumnsNamed(models[k])
      {
        CollectedExact(files, models[k]);
      }
      models := EnrichModels(models, db);
    }
    assert models == Models(files, dbExists, db);
    var dependentsMap := BuildDependencyGraph(models);
    var tables := AttachDependents(models, dependentsMap);
    var layers := GroupLayers(models);
    catalog := Catalog(tables, layers);
  }

  lemma {:induction false} TimesMembers<T>(s: seq<T>, c: nat, x: T)
    requires c >= 1
    ensures x in Times(s, c) <==> x in s
  {
    if c > 1 {
      TimesMembers(s, c - 1, x);
    } else {
      assert Times(s, 1) == [] + s;
    }
  }

  /** Every table of the catalog has a name and sorted, duplicate-free
      dependencies, and there is one table per model file with a named
      `MODEL` block. */
  lemma CatalogTables(files: seq<ModelFile>, dbExists: bool, db: Database)
    requires WellFormed(db)
    ensures var t := CatalogOf(files, dbExists, db).tables;
      |t| == |Collected(files)| &&
      forall k | 0 <= k < |t| :: Truthy(t[k].name) && t[k].dependencies.Some? && StrictlySorted(t[k].dependencies.value)
  {
    var t := CatalogOf(files, dbExists, db).tables;
    var models := Models(files, dbExists, db);
    forall k | 0 <= k < |t|
      ensures Truthy(t[k].name) && t[k].dependencies.Some? && StrictlySorted(t[k].dependencies.value)
    {
      CollectedExact(files, Collected(files)[k]);
      assert t[k].name == models[k].name == Collected(files)[k].name;
    }
  }

  /** A table's dependents are the other tables that list it among their
      dependencies: never the table itself. */
  lemma CatalogDependents(files: seq<ModelFile>, dbExists: bool, db: Database, k: nat, x: Option<string>)
    requires WellFormed(db)
    requires k < |CatalogOf(files, dbExists, db).tables|
    ensures var t := CatalogOf(files, dbExists, db).tables;
      Truthy(t[k].name) && t[k].dependents.Some? &&
      (x in t[k].dependents.value <==>
        x != t[k].name && exists j | 0 <= j < |t| :: Lists(t[j], x, t[k].name.value))
  {
    var t := CatalogOf(files, dbExists, db).tables;
    var models := Models(files, dbExists, db);
    CatalogTables(files, dbExists, db);
    var n := t[k].name.value;
    assert models[k].name == t[k].name;
    NameCountPositive(models, |models|, n);
    GraphEntries(models, |models|, n);
    TimesMembers(DependentsOf(models, n), NameCount(models, |models|, n), x);
    DependentsOfMembers(models, n, x);
    assert forall j | 0 <= j < |t| :: Lists(t[j], x, n) == Lists(models[j], x, n);
  }

  /** With no two tables of the same name, a table's dependents list every
      table that depends on it exactly once, in catalog order. */
  lemma CatalogDependentsOfDistinct(files: seq<ModelFile>, dbExists: bool, db: Database, k: nat)
    requires WellFormed(db)
    requires var t := CatalogOf(files, dbExists, db).tables;
      k < |t| && forall a, b | 0 <= a < b < |t| :: t[a].name != t[b].name
    ensures var t := CatalogOf(files, dbExists, db).tables;
      Truthy(t[k].name) && t[k].dependents == Some(DependentsOf(t, t[k].name.value))
  {
    var t := CatalogOf(files, dbExists, db).tables;
    var models := Models(files, dbExists, db);
    CatalogTables(files, dbExists, db);
    var n := t[k].name.value;
    assert models[k].name == t[k].name;
    NameCountPositive(models, |models|, n);
    GraphEntries(models, |models|, n);
    assert forall a | 0 <= a < |t| :: t[a].name == models[a].name;
    GraphOfDistinctNames(models, n);
    DependentsOfSameShape(t, models, n);
  }

  /** `DependentsOf` looks only at names and dependencies. */
  lemma {:induction false} DependentsOfSameShape(a: seq<ModelInfo>, b: seq<ModelInfo>, n: string)
    requires |a| == |b| && forall k | 0 <= k < |a| :: a[k].name == b[k].name && Deps(a[k]) == Deps(b[k])
    ensures DependentsOf(a, n) == DependentsOf(b, n)
  {
    if |a| > 0 {
      DependentsOfSameShape(a[..|a| - 1], b[..|b| - 1], n);
    }
  }

  /** The layers are raw, bronze and geometadb, and each lists the tables of
      that schema. */
  lemma CatalogLayers(files: seq<ModelFile>, dbExists: bool, db: Database, l: string, x: Option<string>)
    requires WellFormed(db)
    ensures var c := CatalogOf(files, dbExists, db);
      (l in c.layers <==> l in Layers) &&
      (l in c.layers ==> (x in c.layers[l] <==> exists j | 0 <= j < |c.tables| :: InLayer(c.tables[j], l, x)))
  {
    var c := CatalogOf(files, dbExists, db);
    var models := Models(files, dbExists, db);
    LayerMembersExact(models, l, x);
    assert forall j | 0 <= j < |c.tables| :: InLayer(c.tables[j], l, x) == InLayer(models[j], l, x);
  }
}
