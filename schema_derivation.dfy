/** The Spark schema derived from a Kudu table schema (`schemaFor`). */
module SchemaDerivation {
  import opened Wrappers
  import opened KuduClient
  import opened SparkRows
  import opened Errors
  import opened TypeBridge

  predicate ValidColumns(columns: seq<ColumnSchema>) {
    forall i :: 0 <= i < |columns| ==> ValidColumn(columns[i])
  }

  /** The nullable field for one column. */
  function FieldFor(c: ColumnSchema): Result<StructField, Error>
    requires ValidColumn(c)
  {
    var t :- SparkTypeFor(c);
    Success(StructField(c.name, t, true))
  }

  /** The derived schema: the columns' fields in column order, or the first column's
      unsupported-type error. */
  function SchemaOf(columns: seq<ColumnSchema>): Result<seq<StructField>, Error>
    requires ValidColumns(columns)
  {
    MapAll(columns, FieldFor)
  }

  /** Derivation succeeds exactly when every column type is supported, and then gives one
      nullable field per column, with the column's name, in column order, typed by the
      column's tag (a decimal keeping its precision and scale). */
  lemma SchemaOfFields(columns: seq<ColumnSchema>)
    requires ValidColumns(columns)
    ensures SchemaOf(columns).Success? <==> forall i :: 0 <= i < |columns| ==> Supported(columns[i].columnType)
    ensures SchemaOf(columns).Success? ==>
      var s := SchemaOf(columns).value;
      && |s| == |columns|
      && FieldNames(s) == ColumnNames(columns)
      && forall i :: 0 <= i < |columns| ==>
           s[i] == StructField(columns[i].name, SparkTypeFor(columns[i]).value, true)
  {
    MapAllSuccess(columns, FieldFor);
    if SchemaOf(columns).Success? {
      var s := SchemaOf(columns).value;
      assert forall i :: 0 <= i < |columns| ==> s[i] == FieldFor(columns[i]).value;
    }
  }

  /** The error is the first unsupported column's: it names that column's tag. */
  lemma SchemaOfFirstUnsupported(columns: seq<ColumnSchema>, i: nat)
    requires ValidColumns(columns)
    requires i < |columns| && !Supported(columns[i].columnType)
    requires forall j :: 0 <= j < i ==> Supported(columns[j].columnType)
    ensures SchemaOf(columns) == Failure(UnsupportedColumnType(columns[i].columnType))
  {
    MapAllFirstFailure(columns, FieldFor, i);
  }
}
