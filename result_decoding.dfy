/** The values of a scan result row, read column by column in table order
    (the loop of `resultAsRow`). */
module ResultDecoding {
  import opened Wrappers
  import opened JavaValues
  import opened KuduClient
  import opened SparkRows
  import opened Errors
  import opened TypeBridge
  import opened SchemaDerivation

  /** The result holds a cell for every column of the table. */
  predicate Covers(columns: seq<ColumnSchema>, result: RowResult) {
    forall i :: 0 <= i < |columns| ==> columns[i].name in result.cells
  }

  /** Null for a null cell, otherwise the value read through the column's accessor. */
  function CellFor(c: ColumnSchema, result: RowResult): Result<Option<Value>, Error>
    requires c.name in result.cells
  {
    match result.cells[c.name]
    case None => Success(None)
    case Some(v) =>
      var x :- ReadCell(c.columnType, v);
      Success(Some(x))
  }

  function CellReader(result: RowResult): ColumnSchema --> Result<Option<Value>, Error> {
    (c: ColumnSchema) requires c.name in result.cells => CellFor(c, result)
  }

  /** The values of `result`, one per column in column order, or the first error. */
  function DecodeValues(columns: seq<ColumnSchema>, result: RowResult): Result<seq<Option<Value>>, Error>
    requires Covers(columns, result)
  {
    MapAll(columns, CellReader(result))
  }

  /** A column can be read unless it holds a value and its type is unsupported. */
  predicate Readable(c: ColumnSchema, result: RowResult)
    requires c.name in result.cells
  {
    result.cells[c.name].None? || Supported(c.columnType)
  }

  /** Decoding succeeds exactly when every column is readable, and then gives one value
      per column, in column order, null exactly where the result's cell is null and
      otherwise the cell's value. */
  lemma DecodeValuesCells(columns: seq<ColumnSchema>, result: RowResult)
    requires Covers(columns, result)
    ensures DecodeValues(columns, result).Success? <==>
      forall i :: 0 <= i < |columns| ==> Readable(columns[i], result)
    ensures DecodeValues(columns, result).Success? ==>
      var vs := DecodeValues(columns, result).value;
      && |vs| == |columns|
      && (forall i :: 0 <= i < |columns| ==> vs[i] == result.cells[columns[i].name])
  {
    MapAllSuccess(columns, CellReader(result));
    assert forall i :: 0 <= i < |columns| ==> CellReader(result)(columns[i]) == CellFor(columns[i], result);
  }

  /** The error is that of the first column that holds a value of an unsupported type. */
  lemma DecodeValuesFirstUnreadable(columns: seq<ColumnSchema>, result: RowResult, i: nat)
    requires Covers(columns, result)
    requires i < |columns| && !Readable(columns[i], result)
    requires forall j :: 0 <= j < i ==> Readable(columns[j], result)
    ensures DecodeValues(columns, result) == Failure(UnsupportedColumnType(columns[i].columnType))
  {
    assert forall j :: 0 <= j < |columns| ==> CellReader(result)(columns[j]) == CellFor(columns[j], result);
    MapAllFirstFailure(columns, CellReader(result), i);
  }

  /** Every cell holds a value of the class its column's accessor returns. */
  predicate WellTyped(columns: seq<ColumnSchema>, result: RowResult)
    requires Covers(columns, result)
  {
    forall i :: 0 <= i < |columns| ==>
      result.cells[columns[i].name].Some? && Supported(columns[i].columnType) ==>
        Fits(columns[i].columnType, result.cells[columns[i].name].value)
  }

  /** For a table whose types are all supported, a decoded row conforms to the derived
      schema: each non-null value is of the Java class Spark uses for its field's type. */
  lemma DecodedRowConformsToSchema(columns: seq<ColumnSchema>, result: RowResult)
    requires ValidColumns(columns) && Covers(columns, result) && WellTyped(columns, result)
    requires forall i :: 0 <= i < |columns| ==> Supported(columns[i].columnType)
    ensures SchemaOf(columns).Success? && DecodeValues(columns, result).Success?
    ensures var s := SchemaOf(columns).value; var vs := DecodeValues(columns, result).value;
      |s| == |vs| == |columns|
      && forall i :: 0 <= i < |columns| && vs[i].Some? ==>
           SimpleClassName(vs[i].value) == ExternalClass(s[i].dataType)
  {
    SchemaOfFields(columns);
    DecodeValuesCells(columns, result);
    var s := SchemaOf(columns).value;
    var vs := DecodeValues(columns, result).value;
    forall i | 0 <= i < |columns| && vs[i].Some?
      ensures SimpleClassName(vs[i].value) == ExternalClass(s[i].dataType)
    {
      var c := columns[i];
      assert vs[i] == result.cells[c.name];
      assert Fits(c.columnType, vs[i].value);
      assert s[i].dataType == SparkTypeFor(c).value;
      FitsExactlyExternalClass(c, vs[i].value);
    }
  }
}
