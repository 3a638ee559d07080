/** The part of the Kudu client that the output uses: column types, table schemas, result
    rows, write operations and scan predicates, all as values. */
module KuduClient {
  import opened Wrappers
  import opened JavaValues

  /** Kudu's native column type tags.  The eleven named tags are the ones the output
      supports; `OtherType` stands for every other tag the store may report. */
  datatype Type =
    | Double | Float | Int8 | Int16 | Int32 | Int64
    | String | Bool | Binary | UnixtimeMicros | Decimal
    | OtherType(typeName: string)

  /** Type attributes of a decimal column. */
  datatype DecimalAttributes = DecimalAttributes(precision: nat, scale: nat)

  datatype ColumnSchema = ColumnSchema(name: string, columnType: Type, typeAttributes: Option<DecimalAttributes>)

  /** A table handle: its name and its native schema, in column order. */
  datatype Table = Table(name: string, columns: seq<ColumnSchema>)

  /** What Kudu guarantees of a column: a decimal column has precision 1..38 and a
      scale no larger than its precision. */
  predicate ValidColumn(c: ColumnSchema) {
    c.columnType == Decimal ==>
      c.typeAttributes.Some? && 1 <= c.typeAttributes.value.precision <= 38
      && c.typeAttributes.value.scale <= c.typeAttributes.value.precision
  }

  function ColumnNames(columns: seq<ColumnSchema>): (names: seq<string>)
    ensures |names| == |columns|
    ensures forall i :: 0 <= i < |columns| ==> names[i] == columns[i].name
  {
    if |columns| == 0 then [] else [columns[0].name] + ColumnNames(columns[1..])
  }

  predicate DistinctNames(names: seq<string>) {
    forall i, j :: 0 <= i < j < |names| ==> names[i] != names[j]
  }

  /** What Kudu guarantees of a table schema: unique column names, valid columns. */
  predicate ValidTable(t: Table) {
    DistinctNames(ColumnNames(t.columns))
    && forall i :: 0 <= i < |t.columns| ==> ValidColumn(t.columns[i])
  }

  /** `table.getSchema().getColumn(name)` for a name the table has. */
  function ColumnNamed(columns: seq<ColumnSchema>, name: string): (c: ColumnSchema)
    requires name in ColumnNames(columns)
    ensures c in columns && c.name == name
  {
    if columns[0].name == name then columns[0] else ColumnNamed(columns[1..], name)
  }

  /** One row returned by a scan: for every projected column, null or its value. */
  datatype RowResult = RowResult(cells: map<string, Option<Value>>)

  /** The four kinds of write operation a table creates (`newInsert` and so on). */
  datatype OperationKind = InsertOp | UpdateOp | DeleteOp | UpsertOp

  /** An operation on one table with its row buffer: the columns set so far and their
      values.  A column absent from the buffer is unset. */
  datatype Operation = Operation(kind: OperationKind, table: string, row: map<string, Value>)

  /** A predicate "column value is in this list". */
  datatype InListPredicate = InListPredicate(column: ColumnSchema, values: seq<Option<Value>>)

  /** A scanner builder: the table it scans and the predicates added so far. */
  datatype ScannerBuilder = ScannerBuilder(table: string, predicates: seq<InListPredicate>) {
    function AddPredicate(p: InListPredicate): ScannerBuilder {
      ScannerBuilder(table, predicates + [p])
    }
  }

  /** A per-operation failure reported by the session after a flush. */
  datatype RowError = RowError(errorStatus: string, operation: string, tsUuid: string)
}
