/** Spark's generic rows: a schema of named, typed, nullable fields and a value (or null)
    per field. */
module SparkRows {
  import opened Wrappers
  import opened JavaValues

  datatype DataType =
    | DoubleType | FloatType | ByteType | ShortType | IntegerType | LongType
    | StringType | BooleanType | BinaryType | TimestampType
    | DecimalType(precision: nat, scale: nat)

  datatype StructField = StructField(name: string, dataType: DataType, nullable: bool)

  /** A row, with its schema when it carries one; `None` in `values` is null. */
  datatype Row = Row(schema: Option<seq<StructField>>, values: seq<Option<Value>>)

  function FieldNames(fields: seq<StructField>): (names: seq<string>)
    ensures |names| == |fields|
    ensures forall i :: 0 <= i < |fields| ==> names[i] == fields[i].name
  {
    if |fields| == 0 then [] else [fields[0].name] + FieldNames(fields[1..])
  }

  predicate DistinctFieldNames(fields: seq<StructField>) {
    forall i, j :: 0 <= i < j < |fields| ==> fields[i].name != fields[j].name
  }

  /** A row with a schema has one value per field and no repeated field name. */
  predicate WellFormedRow(r: Row) {
    r.schema.Some? ==> |r.schema.value| == |r.values| && DistinctFieldNames(r.schema.value)
  }

  /** The value of the field called `name`: `None` when there is no such field,
      `Some(None)` when the field is null. */
  function Lookup(fields: seq<StructField>, values: seq<Option<Value>>, name: string): Option<Option<Value>>
    requires |fields| == |values|
  {
    if |fields| == 0 then None
    else if fields[0].name == name then Some(values[0])
    else Lookup(fields[1..], values[1..], name)
  }

  /** `row.getAs(name)`: `None` when the row has no schema or no such field (Spark throws). */
  function GetAs(r: Row, name: string): Option<Option<Value>>
    requires WellFormedRow(r)
  {
    if r.schema.None? then None else Lookup(r.schema.value, r.values, name)
  }

  lemma {:induction false} LookupAbsent(fields: seq<StructField>, values: seq<Option<Value>>, name: string)
    requires |fields| == |values|
    ensures name !in FieldNames(fields) <==> Lookup(fields, values, name).None?
  {
    if |fields| > 0 {
      LookupAbsent(fields[1..], values[1..], name);
      assert FieldNames(fields) == [fields[0].name] + FieldNames(fields[1..]);
    }
  }
}
