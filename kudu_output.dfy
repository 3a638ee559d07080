/** The Kudu output: the schema cache it owns and the methods of its random-write and
    existing-row paths, each proved against the specification functions of its component. */
module KuduOutputs {
  import opened Wrappers
  import opened JavaValues
  import opened KuduClient
  import opened SparkRows
  import opened Planner
  import opened Errors
  import opened TypeBridge
  import opened SchemaDerivation
  import opened ResultDecoding
  import opened MutationBuilding
  import opened ScanConstruction
  import opened BatchApply

  /** What a schema request returns given the cache: the cached schema of the table's name,
      otherwise the schema derived from the table. */
  function SchemaRequest(cache: map<string, seq<StructField>>, table: Table): Result<seq<StructField>, Error>
    requires ValidTable(table)
  {
    if table.name in cache then Success(cache[table.name]) else SchemaOf(table.columns)
  }

  /** The cache after a schema request: a derived schema is added under the table's name,
      and nothing else changes. */
  function CacheAfterRequest(cache: map<string, seq<StructField>>, table: Table): map<string, seq<StructField>>
    requires ValidTable(table)
  {
    if table.name in cache then cache
    else
      match SchemaOf(table.columns)
      case Success(s) => cache[table.name := s]
      case Failure(_) => cache
  }

  /** The cache computes each table's schema at most once: a second request for the same
      name returns what the first returned and leaves the cache as it was, even for a
      table of that name with other columns; entries for other names are never touched. */
  lemma SchemaCachedOnce(cache: map<string, seq<StructField>>, table: Table, same: Table)
    requires ValidTable(table) && ValidTable(same) && same.name == table.name
    ensures var after := CacheAfterRequest(cache, table);
      && (table.name in after <==> table.name in cache || SchemaOf(table.columns).Success?)
      && (table.name in after ==> SchemaRequest(after, same) == SchemaRequest(cache, table))
      && (table.name in after ==> CacheAfterRequest(after, same) == after)
      && (forall n :: n in cache ==> n in after && after[n] == cache[n])
      && (forall n :: n in after && n != table.name ==> n in cache)
  {
  }

  /** `i` is the first scanned result whose conversion fails, and `e` the error it raises:
      its decoding error if it has one, otherwise, for the first result only, the error of
      the schema request that follows decoding (later results find the schema cached). */
  predicate FirstFailingResult(cache: map<string, seq<StructField>>, table: Table, results: seq<RowResult>, i: nat, e: Error)
    requires ValidTable(table)
    requires forall j :: 0 <= j < |results| ==> Covers(table.columns, results[j])
  {
    && i < |results|
    && (forall j :: 0 <= j < i ==> DecodeValues(table.columns, results[j]).Success?)
    && (i > 0 ==> SchemaRequest(cache, table).Success?)
    && if DecodeValues(table.columns, results[i]).Failure? then e == DecodeValues(table.columns, results[i]).error
       else i == 0 && SchemaRequest(cache, table).Failure? && e == SchemaRequest(cache, table).error
  }

  class KuduOutput {
    /** The ignore-missing-columns setting of the configuration. */
    const ignoreMissingColumns: bool

    /** Derived schemas by table name; `None` until the first schema request. */
    var tableSchemas: Option<map<string, seq<StructField>>>

    /** The table each cached schema was derived from. */
    ghost var schemaSources: map<string, Table>

    /** Each cached schema is the one derived from its table, of the same name. */
    ghost predicate Valid()
      reads this
    {
      forall n :: n in Cache() ==>
        && n in schemaSources
        && schemaSources[n].name == n
        && ValidTable(schemaSources[n])
        && SchemaOf(schemaSources[n].columns) == Success(Cache()[n])
    }

    /** The cached schemas, empty before the map exists. */
    function Cache(): map<string, seq<StructField>>
      reads this
    {
      if tableSchemas.Some? then tableSchemas.value else map[]
    }

    /** The table's cached schema, if any, was derived from this very table schema. */
    ghost predicate Stable(table: Table)
      reads this
    {
      table.name in Cache() ==> table.name in schemaSources && schemaSources[table.name] == table
    }

    constructor (ignoreMissingColumns: bool)
      ensures this.ignoreMissingColumns == ignoreMissingColumns
      ensures tableSchemas == None && Valid()
    {
      this.ignoreMissingColumns := ignoreMissingColumns;
      tableSchemas := None;
      schemaSources := map[];
    }

    /** `schemaFor`: the derived schema of the table. */
    method SchemaFor(table: Table) returns (r: Result<seq<StructField>, Error>)
      requires ValidTable(table)
      ensures r == SchemaOf(table.columns)
    {
      var columns := table.columns;
      var fields: seq<StructField> := [];
      var i := 0;
      while i < |columns|
        invariant 0 <= i <= |columns| && |fields| == i
        invariant forall j :: 0 <= j < i ==> Supported(columns[j].columnType)
        invariant forall j :: 0 <= j < i ==> fields[j] == StructField(columns[j].name, SparkTypeFor(columns[j]).value, true)
      {
        var column := columns[i];
        var fieldType: DataType;
        match column.columnType {
          case Double => fieldType := DoubleType;
          case Float => fieldType := FloatType;
          case Int8 => fieldType := ByteType;
          case Int16 => fieldType := ShortType;
          case Int32 => fieldType := IntegerType;
          case Int64 => fieldType := LongType;
          case String => fieldType := StringType;
          case Bool => fieldType := BooleanType;
          case Binary => fieldType := BinaryType;
          case UnixtimeMicros => fieldType := TimestampType;
          case Decimal =>
            var precision := column.typeAttributes.value.precision;
            var scale := column.typeAttributes.value.scale;
            fieldType := DecimalType(precision, scale);
          case OtherType(_) =>
            SchemaOfFirstUnsupported(columns, i);
            return Failure(UnsupportedColumnType(column.columnType));
        }
        fields := fields + [StructField(column.name, fieldType, true)];
        i := i + 1;
      }
      SchemaOfFields(columns);
      assert fields == SchemaOf(columns).value;
      return Success(fields);
    }

    /** `getTableSchema`: the cached schema of the table, derived and cached on the first
        request for its name.  A cached schema is returned unchanged, and no other entry
        of the cache changes. */
    method GetTableSchema(table: Table) returns (r: Result<seq<StructField>, Error>)
      requires Valid() && ValidTable(table)
      modifies this
      ensures Valid() && tableSchemas.Some?
      ensures r == SchemaRequest(old(Cache()), table)
      ensures Cache() == CacheAfterRequest(old(Cache()), table)
      ensures table.name in old(Cache()) ==> schemaSources == old(schemaSources)
      ensures old(Stable(table)) ==> r == SchemaOf(table.columns) && Stable(table)
    {
      if tableSchemas.None? {
        tableSchemas := Some(map[]);
      }
      if table.name in tableSchemas.value {
        return Success(tableSchemas.value[table.name]);
      }
      var tableSchema := SchemaFor(table);
      if tableSchema.Success? {
        tableSchemas := Some(tableSchemas.value[table.name := tableSchema.value]);
        schemaSources := schemaSources[table.name := table];
      }
      return tableSchema;
    }

    /** `resultAsRow`: the result's values, one per column, paired with the table's
        cached schema. */
    method ResultAsRow(result: RowResult, table: Table) returns (r: Result<Row, Error>)
      requires Valid() && ValidTable(table) && Covers(table.columns, result)
      modifies this
      ensures Valid()
      ensures DecodeValues(table.columns, result).Failure? ==>
        r == Failure(DecodeValues(table.columns, result).error) && tableSchemas == old(tableSchemas)
      ensures DecodeValues(table.columns, result).Success? ==>
        && Cache() == CacheAfterRequest(old(Cache()), table)
        && r == match SchemaRequest(old(Cache()), table)
                case Success(s) => Success(Row(Some(s), DecodeValues(table.columns, result).value))
                case Failure(e) => Failure(e)
      ensures old(Stable(table)) ==> Stable(table)
      ensures old(Stable(table)) && r.Success? ==> r.value.schema == Some(SchemaOf(table.columns).value)
    {
      var columns := table.columns;
      var values: seq<Option<Value>> := [];
      var i := 0;
      while i < |columns|
        invariant 0 <= i <= |columns| && |values| == i
        invariant forall j :: 0 <= j < i ==> Readable(columns[j], result)
        invariant forall j :: 0 <= j < i ==> values[j] == result.cells[columns[j].name]
      {
        var column := columns[i];
        var cell := result.cells[column.name];
        if cell.None? {
          values := values + [None];
        } else {
          if !Supported(column.columnType) {
            DecodeValuesFirstUnreadable(columns, result, i);
            return Failure(UnsupportedColumnType(column.columnType));
          }
          values := values + [Some(cell.value)];
        }
        i := i + 1;
      }
      DecodeValuesCells(columns, result);
      assert values == DecodeValues(columns, result).value;
      var schema := GetTableSchema(table);
      if schema.Failure? {
        return Failure(schema.error);
      }
      return Success(Row(Some(schema.value), values));
    }

    /** `scannerForFilters`: the scanner for the filter rows. */
    method ScannerForFilters(filters: seq<Row>, table: Table) returns (r: Result<ScannerBuilder, Error>)
      requires AllWellFormed(filters) && FilterColumnsKnown(filters, table)
      ensures r == ScanFor(filters, table)
    {
      if |filters| == 0 {
        return Failure(MissingFilter);
      }
      if filters[0].schema.None? {
        return Failure(MissingFilterSchema);
      }
      var names := FieldNames(filters[0].schema.value);
      var builder := ScannerBuilder(table.name, []);
      var p := 0;
      while p < |names|
        invariant 0 <= p <= |names| && builder.table == table.name && |builder.predicates| == p
        invariant forall q :: 0 <= q < p ==> PredicateFor(filters, table, names[q]) == Success(builder.predicates[q])
      {
        var fieldName := names[p];
        var columnSchema := ColumnNamed(table.columns, fieldName);
        var columnValues := ColumnValuesOf(filters, fieldName);
        if columnValues.Failure? {
          ScanForFirstFailingName(filters, table, p);
          return Failure(columnValues.error);
        }
        assert PredicateFor(filters, table, fieldName) == Success(InListPredicate(columnSchema, columnValues.value));
        builder := builder.AddPredicate(InListPredicate(columnSchema, columnValues.value));
        p := p + 1;
      }
      var f := PredicateMaker(filters, table);
      assert forall q :: 0 <= q < |names| ==> f(names[q]) == PredicateFor(filters, table, names[q]);
      MapAllSuccess(names, f);
      assert builder.predicates == MapAll(names, f).value;
      return Success(builder);
    }

    /** The inner loop of `scannerForFilters`: the value of one field in every filter row. */
    method ColumnValuesOf(filters: seq<Row>, fieldName: string) returns (r: Result<seq<Option<Value>>, Error>)
      requires AllWellFormed(filters)
      ensures r == ColumnValues(filters, fieldName)
    {
      var columnValues: seq<Option<Value>> := [];
      var j := 0;
      while j < |filters|
        invariant 0 <= j <= |filters| && |columnValues| == j
        invariant forall m :: 0 <= m < j ==> GetAs(filters[m], fieldName) == Some(columnValues[m])
      {
        var columnValue := GetAs(filters[j], fieldName);
        if columnValue.None? {
          MapAllFirstFailure(filters, ValueReader(fieldName), j);
          return Failure(FilterFieldUnavailable(fieldName));
        }
        columnValues := columnValues + [columnValue.value];
        j := j + 1;
      }
      MapAllSuccess(filters, ValueReader(fieldName));
      assert columnValues == ColumnValues(filters, fieldName).value;
      return Success(columnValues);
    }

    /** `extractOperations`: the operations for the planned rows, in order. */
    method ExtractOperations(planned: seq<PlannedRow>, table: Table) returns (r: Result<seq<Operation>, Error>)
      requires AllBuildable(planned, table, ignoreMissingColumns)
      ensures r == OperationsFor(planned, table, ignoreMissingColumns)
    {
      var operations: seq<Operation> := [];
      var i := 0;
      while i < |planned|
        invariant 0 <= i <= |planned| && |operations| == i
        invariant forall j :: 0 <= j < i ==> OperationFor(planned[j], table, ignoreMissingColumns) == Success(operations[j])
      {
        var operation := BuildOperation(planned[i], table);
        if operation.Failure? {
          OperationsForFirstFailure(planned, table, ignoreMissingColumns, i);
          return Failure(operation.error);
        }
        operations := operations + [operation.value];
        i := i + 1;
      }
      OperationsForInOrder(planned, table, ignoreMissingColumns);
      assert operations == OperationsFor(planned, table, ignoreMissingColumns).value;
      return Success(operations);
    }

    /** The body of the loop of `extractOperations`: the operation for one planned row. */
    method BuildOperation(plan: PlannedRow, table: Table) returns (r: Result<Operation, Error>)
      requires Buildable(plan, table, ignoreMissingColumns)
      ensures r == OperationFor(plan, table, ignoreMissingColumns)
    {
      var kind: OperationKind;
      match plan.mutationType {
        case Delete => kind := DeleteOp;
        case Insert => kind := InsertOp;
        case Update => kind := UpdateOp;
        case Upsert => kind := UpsertOp;
        case OtherMutation(_) => return Failure(UnsupportedMutationType(plan.mutationType));
      }
      var kuduRow: map<string, Value> := map[];
      if plan.row.schema.None? {
        return Failure(MissingPlanSchema);
      }
      var stripped := RemoveMutationTypeField(plan.row);
      StrippedFieldsKnown(plan.row, table, ignoreMissingColumns);
      var fields, values := stripped.schema.value, stripped.values;
      var kuduFieldNames: Option<seq<string>> := None;
      var i := 0;
      while i < |fields|
        invariant 0 <= i <= |fields|
        invariant kuduFieldNames.Some? ==> kuduFieldNames.value == ColumnNames(table.columns)
        invariant WriteFields(table, ignoreMissingColumns, fields, values, map[], stripped)
               == WriteFields(table, ignoreMissingColumns, fields[i..], values[i..], kuduRow, stripped)
      {
        var fieldName := fields[i].name;
        assert fields[i..][0] == fields[i] && fields[i..][1..] == fields[i + 1..] && values[i..][1..] == values[i + 1..];
        if ignoreMissingColumns {
          if kuduFieldNames.None? {
            var names := ColumnNamesOf(table);
            kuduFieldNames := Some(names);
          }
          if fieldName !in kuduFieldNames.value {
            i := i + 1;
            continue;
          }
        }
        var columnSchema := ColumnNamed(table.columns, fieldName);
        if values[i].Some? {
          var value := values[i].value;
          if !Supported(columnSchema.columnType) {
            return Failure(UnsupportedColumnType(columnSchema.columnType));
          }
          if !Fits(columnSchema.columnType, value) {
            return Failure(TypeMismatch(table.name, fieldName, columnSchema.columnType, SimpleClassName(value), stripped));
          }
          kuduRow := kuduRow[fieldName := value];
        }
        i := i + 1;
      }
      return Success(Operation(kind, table.name, kuduRow));
    }

    /** The names of the table's columns, in column order. */
    method ColumnNamesOf(table: Table) returns (names: seq<string>)
      ensures names == ColumnNames(table.columns)
    {
      names := [];
      var j := 0;
      while j < |table.columns|
        invariant 0 <= j <= |table.columns| && |names| == j
        invariant forall m :: 0 <= m < j ==> names[m] == table.columns[m].name
      {
        names := names + [table.columns[j].name];
        j := j + 1;
      }
    }

    /** `getExistingForFilters`: nothing for no filters; otherwise the rows the scan of
        the filters' scanner returned (`results`, supplied by the store), each decoded
        with the table's cached schema. */
    method GetExistingForFilters(filters: seq<Row>, table: Table, results: seq<RowResult>)
      returns (r: Result<seq<Row>, Error>)
      requires Valid() && ValidTable(table)
      requires AllWellFormed(filters) && FilterColumnsKnown(filters, table)
      requires forall i :: 0 <= i < |results| ==> Covers(table.columns, results[i])
      modifies this
      ensures Valid()
      ensures |filters| == 0 ==> r == Success([]) && tableSchemas == old(tableSchemas)
      ensures |filters| > 0 && ScanFor(filters, table).Failure? ==>
        r == Failure(ScanFor(filters, table).error) && tableSchemas == old(tableSchemas)
      ensures |filters| > 0 && ScanFor(filters, table).Success? ==>
        (r.Success? <==>
          (forall i :: 0 <= i < |results| ==> DecodeValues(table.columns, results[i]).Success?)
          && (|results| > 0 ==> SchemaRequest(old(Cache()), table).Success?))
      ensures |filters| > 0 && ScanFor(filters, table).Success? ==>
        Cache() == if |results| > 0 && DecodeValues(table.columns, results[0]).Success?
                   then CacheAfterRequest(old(Cache()), table) else old(Cache())
      ensures |filters| > 0 && ScanFor(filters, table).Success? && r.Failure? ==>
        exists i: nat :: FirstFailingResult(old(Cache()), table, results, i, r.error)
      ensures |filters| > 0 && r.Success? ==>
        && |r.value| == |results|
        && forall i :: 0 <= i < |results| ==>
             && SchemaRequest(old(Cache()), table).Success?
             && DecodeValues(table.columns, results[i]).Success?
             && r.value[i] == Row(Some(SchemaRequest(old(Cache()), table).value),
                                  DecodeValues(table.columns, results[i]).value)
      ensures old(Stable(table)) && r.Success? ==>
        forall i :: 0 <= i < |r.value| ==> r.value[i].schema == Some(SchemaOf(table.columns).value)
    {
      if |filters| == 0 {
        return Success([]);
      }
      var scanner := ScannerForFilters(filters, table);
      if scanner.Failure? {
        return Failure(scanner.error);
      }
      r := ConvertScanned(table, results);
    }

    /** The scan loop of `getExistingForFilters`: each scanned result in turn through
        `resultAsRow`, stopping at the first that fails. */
    method ConvertScanned(table: Table, results: seq<RowResult>) returns (r: Result<seq<Row>, Error>)
      requires Valid() && ValidTable(table)
      requires forall i :: 0 <= i < |results| ==> Covers(table.columns, results[i])
      modifies this
      ensures Valid()
      ensures r.Success? <==>
        (forall i :: 0 <= i < |results| ==> DecodeValues(table.columns, results[i]).Success?)
        && (|results| > 0 ==> SchemaRequest(old(Cache()), table).Success?)
      ensures Cache() == if |results| > 0 && DecodeValues(table.columns, results[0]).Success?
                         then CacheAfterRequest(old(Cache()), table) else old(Cache())
      ensures r.Failure? ==> exists i: nat :: FirstFailingResult(old(Cache()), table, results, i, r.error)
      ensures r.Success? ==>
        && |r.value| == |results|
        && forall i :: 0 <= i < |results| ==>
             && SchemaRequest(old(Cache()), table).Success?
             && DecodeValues(table.columns, results[i]).Success?
             && r.value[i] == Row(Some(SchemaRequest(old(Cache()), table).value),
                                  DecodeValues(table.columns, results[i]).value)
      ensures old(Stable(table)) && r.Success? ==>
        forall i :: 0 <= i < |r.value| ==> r.value[i].schema == Some(SchemaOf(table.columns).value)
    {
      ghost var before := Cache();
      ghost var request := SchemaRequest(before, table);
      var existing: seq<Row> := [];
      var i := 0;
      while i < |results|
        invariant 0 <= i <= |results| && |existing| == i
        invariant Valid()
        invariant Cache() == if i == 0 then before else CacheAfterRequest(before, table)
        invariant i > 0 ==> request.Success? && table.name in Cache() && Cache()[table.name] == request.value
        invariant forall j :: 0 <= j < i ==>
          DecodeValues(table.columns, results[j]).Success?
          && existing[j] == Row(Some(request.value), DecodeValues(table.columns, results[j]).value)
        invariant old(Stable(table)) ==> Stable(table)
        invariant old(Stable(table)) && i > 0 ==> request == SchemaOf(table.columns)
        invariant i > 0 ==> DecodeValues(table.columns, results[0]).Success?
      {
        var row := ResultAsRow(results[i], table);
        if row.Failure? {
          assert DecodeValues(table.columns, results[i]).Failure? || (i == 0 && request.Failure?);
          assert FirstFailingResult(before, table, results, i, row.error);
          return Failure(row.error);
        }
        existing := existing + [row.value];
        i := i + 1;
      }
      assert old(Stable(table)) ==> forall j :: 0 <= j < i ==> existing[j].schema == Some(SchemaOf(table.columns).value);
      return Success(existing);
    }

    /** `applyRandomMutations`: builds the operations, submits them to the session in
        order, and, once the session has drained with `pending` row errors, fails with the
        first of them if there is any. */
    method ApplyRandomMutations(planned: seq<PlannedRow>, table: Table, session: Session, pending: seq<RowError>)
      returns (r: Outcome<Error>)
      requires AllBuildable(planned, table, ignoreMissingColumns)
      modifies session
      ensures OperationsFor(planned, table, ignoreMissingColumns).Failure? ==>
        r == Fail(OperationsFor(planned, table, ignoreMissingColumns).error)
        && session.submitted == old(session.submitted)
      ensures OperationsFor(planned, table, ignoreMissingColumns).Success? ==>
        session.submitted == old(session.submitted) + OperationsFor(planned, table, ignoreMissingColumns).value
        && r == DrainOutcome(pending)
    {
      var operations := ExtractOperations(planned, table);
      if operations.Failure? {
        return Fail(operations.error);
      }
      var k := 0;
      while k < |operations.value|
        invariant 0 <= k <= |operations.value|
        invariant session.submitted == old(session.submitted) + operations.value[..k]
      {
        session.Apply(operations.value[k]);
        assert operations.value[..k + 1] == operations.value[..k] + [operations.value[k]];
        k := k + 1;
      }
      assert operations.value[..k] == operations.value;
      if |pending| > 0 {
        var firstError := pending[0];
        return Fail(OutputError(RowErrorMessage(firstError)));
      }
      return Pass;
    }
  }
}
