/** The dict-shaped records that flow through the pipelines, the columnar
    field types they are written against, and when a record fits a schema
    (what `pa.Table.from_pylist(rows, schema=...)` accepts). */
module Values {

  /** A JSON-like value as the parsers produce it. */
  datatype Value =
    | Null
    | Str(s: string)
    | Int(i: int)
    | Float(r: real)
    | List(items: seq<Value>)
    | Struct(fields: map<string, Value>)

  /** A record is a dict from field name to value. */
  type Record = map<string, Value>

  datatype FieldType =
    | StringT
    | Int32T
    | Int64T
    | Float64T
    | ListT(elem: FieldType)
    | StructT(members: seq<Field>)

  datatype Field = Field(name: string, ftype: FieldType)

  /** A schema is an ordered list of named, typed fields. */
  type Schema = seq<Field>

  function FieldNames(schema: Schema): (names: seq<string>)
    ensures |names| == |schema|
    ensures forall i | 0 <= i < |schema| :: names[i] == schema[i].name
  {
    seq(|schema|, i requires 0 <= i < |schema| => schema[i].name)
  }

  predicate InRange(i: int, bits: nat)
  {
    var half: int := Pow2(bits - 1);
    -half <= i < half
  }

  function Pow2(k: int): (p: nat)
    ensures p >= 1
    decreases k
  {
    if k <= 0 then 1 else 2 * Pow2(k - 1)
  }

  /** A value converts to a column of the given type: nulls fit anywhere,
      integers must fit the width (and are accepted for a float column),
      lists and structs are checked member by member; struct keys that the
      type does not name are ignored, missing ones become null. */
  predicate HasType(v: Value, t: FieldType)
    decreases v
  {
    match v
    case Null => true
    case Str(_) => t.StringT?
    case Int(i) => (t.Int32T? && InRange(i, 32)) || (t.Int64T? && InRange(i, 64)) || t.Float64T?
    case Float(_) => t.Float64T?
    case List(items) => t.ListT? && forall k | 0 <= k < |items| :: HasType(items[k], t.elem)
    case Struct(fs) =>
      t.StructT? &&
      forall j | 0 <= j < |t.members| :: t.members[j].name in fs ==> HasType(fs[t.members[j].name], t.members[j].ftype)
  }

  /** A record fits a schema when every field the schema names and the record
      carries has a value of that field's type. */
  predicate Conforms(r: Record, schema: Schema)
  {
    forall j | 0 <= j < |schema| :: schema[j].name in r ==> HasType(r[schema[j].name], schema[j].ftype)
  }

  predicate AllConform(rows: seq<Record>, schema: Schema)
  {
    forall k | 0 <= k < |rows| :: Conforms(rows[k], schema)
  }

  /** With an empty schema every record converts (to a table with no columns). */
  lemma EmptySchemaAcceptsAll(rows: seq<Record>)
    ensures AllConform(rows, [])
  {
  }
}
