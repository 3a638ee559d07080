/** The operations built from planned rows (`extractOperations`). */
module MutationBuilding {
  import opened Wrappers
  import opened JavaValues
  import opened KuduClient
  import opened SparkRows
  import opened Planner
  import opened Errors
  import opened TypeBridge

  /** The mutation type an operation of each kind carries out. */
  function MutationTypeOf(k: OperationKind): MutationType {
    match k
    case InsertOp => Insert
    case UpdateOp => Update
    case DeleteOp => Delete
    case UpsertOp => Upsert
  }

  /** The kind of operation the table creates for a mutation type. */
  function KindFor(m: MutationType): (r: Result<OperationKind, Error>)
    ensures r.Success? <==> !m.OtherMutation?
    ensures r.Success? ==> MutationTypeOf(r.value) == m
    ensures r.Failure? ==> r.error == UnsupportedMutationType(m)
  {
    match m
    case Delete => Success(DeleteOp)
    case Insert => Success(InsertOp)
    case Update => Success(UpdateOp)
    case Upsert => Success(UpsertOp)
    case OtherMutation(_) => Failure(UnsupportedMutationType(m))
  }

  /** Whether the field called `name` reaches conversion: with the ignore-missing-columns
      policy on, only names among the table's columns do. */
  predicate Considered(table: Table, ignore: bool, name: string) {
    !ignore || name in ColumnNames(table.columns)
  }

  /** The column exists, its type is supported and `v` fits it. */
  predicate Accepts(table: Table, name: string, v: Value) {
    name in ColumnNames(table.columns)
    && Supported(ColumnNamed(table.columns, name).columnType)
    && Fits(ColumnNamed(table.columns, name).columnType, v)
  }

  /** With the policy off, every (non-marker) field of a planned row names a column: the
      column lookup is not modelled for absent names. */
  predicate ColumnsKnown(r: Row, table: Table, ignore: bool) {
    !ignore && r.schema.Some? ==>
      forall k :: k in FieldNames(r.schema.value) && k != MutationTypeField ==> k in ColumnNames(table.columns)
  }

  /** The field loop: writes each considered non-null field into `buffer`, and stops at
      the first value that its column cannot take.  `row` is the row reported in a
      type-mismatch error. */
  function WriteFields(table: Table, ignore: bool, fields: seq<StructField>, values: seq<Option<Value>>,
                       buffer: map<string, Value>, row: Row): Result<map<string, Value>, Error>
    requires |fields| == |values|
    requires !ignore ==> forall i :: 0 <= i < |fields| ==> fields[i].name in ColumnNames(table.columns)
    decreases |fields|
  {
    if |fields| == 0 then Success(buffer)
    else
      var name := fields[0].name;
      if !Considered(table, ignore, name) then
        WriteFields(table, ignore, fields[1..], values[1..], buffer, row)
      else
        match values[0]
        case None => WriteFields(table, ignore, fields[1..], values[1..], buffer, row)
        case Some(v) =>
          var t := ColumnNamed(table.columns, name).columnType;
          if !Supported(t) then Failure(UnsupportedColumnType(t))
          else if !Fits(t, v) then Failure(TypeMismatch(table.name, name, t, SimpleClassName(v), row))
          else WriteFields(table, ignore, fields[1..], values[1..], buffer[name := v], row)
  }

  /** The field called `k` is considered and holds a value. */
  predicate Writes(table: Table, ignore: bool, fields: seq<StructField>, values: seq<Option<Value>>, k: string)
    requires |fields| == |values|
  {
    Considered(table, ignore, k) && Lookup(fields, values, k).Some? && Lookup(fields, values, k).value.Some?
  }

  predicate FieldsKnown(table: Table, ignore: bool, fields: seq<StructField>) {
    !ignore ==> forall i :: 0 <= i < |fields| ==> fields[i].name in ColumnNames(table.columns)
  }

  /** A successful field loop sets exactly the considered non-null fields, to their
      values, on top of what `buffer` held. */
  lemma {:induction false} WriteFieldsBuffer(table: Table, ignore: bool, fields: seq<StructField>,
                                             values: seq<Option<Value>>, buffer: map<string, Value>, row: Row)
    requires |fields| == |values| && DistinctFieldNames(fields) && FieldsKnown(table, ignore, fields)
    requires WriteFields(table, ignore, fields, values, buffer, row).Success?
    ensures var b := WriteFields(table, ignore, fields, values, buffer, row).value;
      forall k ::
        && (k in b <==> k in buffer || Writes(table, ignore, fields, values, k))
        && (k in b ==> b[k] == if Writes(table, ignore, fields, values, k)
                               then Lookup(fields, values, k).value.value else buffer[k])
    decreases |fields|
  {
    if |fields| > 0 {
      var name, rest, restValues := fields[0].name, fields[1..], values[1..];
      assert name !in FieldNames(rest) by {
        forall i | 0 <= i < |rest| ensures rest[i].name != name {
          assert rest[i] == fields[i + 1];
        }
      }
      LookupAbsent(rest, restValues, name);
      var next := if Considered(table, ignore, name) && values[0].Some? then buffer[name := values[0].value] else buffer;
      WriteFieldsBuffer(table, ignore, rest, restValues, next, row);
    }
  }

  /** The field loop succeeds exactly when every considered non-null field's value is
      accepted by its column. */
  lemma {:induction false} WriteFieldsSucceeds(table: Table, ignore: bool, fields: seq<StructField>,
                                               values: seq<Option<Value>>, buffer: map<string, Value>, row: Row)
    requires |fields| == |values| && DistinctFieldNames(fields) && FieldsKnown(table, ignore, fields)
    ensures WriteFields(table, ignore, fields, values, buffer, row).Success? <==>
      forall k :: Writes(table, ignore, fields, values, k) ==> Accepts(table, k, Lookup(fields, values, k).value.value)
    decreases |fields|
  {
    if |fields| > 0 {
      var name, rest, restValues := fields[0].name, fields[1..], values[1..];
      assert name !in FieldNames(rest) by {
        forall i | 0 <= i < |rest| ensures rest[i].name != name {
          assert rest[i] == fields[i + 1];
        }
      }
      LookupAbsent(rest, restValues, name);
      var next := if Considered(table, ignore, name) && values[0].Some? then buffer[name := values[0].value] else buffer;
      WriteFieldsSucceeds(table, ignore, rest, restValues, next, row);
      assert forall k :: k != name ==>
        Lookup(fields, values, k) == Lookup(rest, restValues, k)
        && (Writes(table, ignore, fields, values, k) <==> Writes(table, ignore, rest, restValues, k));
      assert !Writes(table, ignore, rest, restValues, name);
      if Considered(table, ignore, name) && values[0].Some? {
        assert Writes(table, ignore, fields, values, name);
        assert name in ColumnNames(table.columns);
        var t := ColumnNamed(table.columns, name).columnType;
        assert Accepts(table, name, values[0].value) <==> Supported(t) && Fits(t, values[0].value);
      } else {
        assert forall k :: Writes(table, ignore, fields, values, k) <==> Writes(table, ignore, rest, restValues, k);
      }
    }
  }

  /** A failing field loop names the problem: an unsupported column type, or a type
      mismatch reporting the table, a written field, the column's type, the value's class
      and the row. */
  lemma {:induction false} WriteFieldsError(table: Table, ignore: bool, fields: seq<StructField>,
                                            values: seq<Option<Value>>, buffer: map<string, Value>, row: Row)
    requires |fields| == |values| && DistinctFieldNames(fields) && FieldsKnown(table, ignore, fields)
    requires WriteFields(table, ignore, fields, values, buffer, row).Failure?
    ensures var e := WriteFields(table, ignore, fields, values, buffer, row).error;
      && (e.UnsupportedColumnType? ==> !Supported(e.columnType))
      && (e.UnsupportedColumnType? || e.TypeMismatch?)
      && (e.TypeMismatch? ==>
            && e.table == table.name && e.row == row
            && Writes(table, ignore, fields, values, e.field)
            && e.field in ColumnNames(table.columns)
            && e.expected == ColumnNamed(table.columns, e.field).columnType
            && Supported(e.expected)
            && e.foundClass == SimpleClassName(Lookup(fields, values, e.field).value.value)
            && !Fits(e.expected, Lookup(fields, values, e.field).value.value))
    decreases |fields|
  {
    var name, rest, restValues := fields[0].name, fields[1..], values[1..];
    assert name !in FieldNames(rest) by {
      forall i | 0 <= i < |rest| ensures rest[i].name != name {
        assert rest[i] == fields[i + 1];
      }
    }
    LookupAbsent(rest, restValues, name);
    var next := if Considered(table, ignore, name) && values[0].Some? then buffer[name := values[0].value] else buffer;
    if WriteFields(table, ignore, rest, restValues, next, row).Failure? &&
       WriteFields(table, ignore, fields, values, buffer, row) == WriteFields(table, ignore, rest, restValues, next, row) {
      WriteFieldsError(table, ignore, rest, restValues, next, row);
    }
  }

  /** The field loop stops at the first considered non-null field its column cannot take:
      an unsupported column type is reported as such, any other misfit as a mismatch
      naming that field, whatever the fields after it hold. */
  lemma {:induction false} WriteFieldsFirstFailure(table: Table, ignore: bool, fields: seq<StructField>,
                                                   values: seq<Option<Value>>, buffer: map<string, Value>,
                                                   row: Row, i: nat)
    requires |fields| == |values| && FieldsKnown(table, ignore, fields)
    requires i < |fields| && Considered(table, ignore, fields[i].name) && values[i].Some?
    requires !Accepts(table, fields[i].name, values[i].value)
    requires forall j :: 0 <= j < i && Considered(table, ignore, fields[j].name) && values[j].Some? ==>
      Accepts(table, fields[j].name, values[j].value)
    ensures fields[i].name in ColumnNames(table.columns)
    ensures var t := ColumnNamed(table.columns, fields[i].name).columnType;
      WriteFields(table, ignore, fields, values, buffer, row) ==
        if !Supported(t) then Failure(UnsupportedColumnType(t))
        else Failure(TypeMismatch(table.name, fields[i].name, t, SimpleClassName(values[i].value), row))
  {
    if i > 0 {
      var name := fields[0].name;
      var rest, restValues := fields[1..], values[1..];
      var next := if Considered(table, ignore, name) && values[0].Some? then buffer[name := values[0].value] else buffer;
      assert FieldsKnown(table, ignore, rest) by {
        forall j | 0 <= j < |rest| ensures !ignore ==> rest[j].name in ColumnNames(table.columns) {
          assert rest[j] == fields[j + 1];
        }
      }
      assert WriteFields(table, ignore, fields, values, buffer, row) == WriteFields(table, ignore, rest, restValues, next, row) by {
        if Considered(table, ignore, name) && values[0].Some? {
          assert Accepts(table, name, values[0].value);
        }
      }
      forall j | 0 <= j < i - 1 && Considered(table, ignore, rest[j].name) && restValues[j].Some?
        ensures Accepts(table, rest[j].name, restValues[j].value)
      {
        assert rest[j] == fields[j + 1] && restValues[j] == values[j + 1];
      }
      assert rest[i - 1] == fields[i] && restValues[i - 1] == values[i];
      WriteFieldsFirstFailure(table, ignore, rest, restValues, next, row, i - 1);
    }
  }

  /** The preconditions of building one operation. */
  predicate Buildable(p: PlannedRow, table: Table, ignore: bool) {
    ValidTable(table) && WellFormedRow(p.row) && ColumnsKnown(p.row, table, ignore)
  }

  /** The operation for one planned row. */
  function OperationFor(p: PlannedRow, table: Table, ignore: bool): Result<Operation, Error>
    requires Buildable(p, table, ignore)
  {
    var kind :- KindFor(p.mutationType);
    if p.row.schema.None? then Failure(MissingPlanSchema)
    else
      var plan := RemoveMutationTypeField(p.row);
      StrippedFieldsKnown(p.row, table, ignore);
      var buffer :- WriteFields(table, ignore, plan.schema.value, plan.values, map[], plan);
      Success(Operation(kind, table.name, buffer))
  }

  lemma StrippedFieldsKnown(r: Row, table: Table, ignore: bool)
    requires WellFormedRow(r) && r.schema.Some? && ColumnsKnown(r, table, ignore)
    ensures FieldsKnown(table, ignore, RemoveMutationTypeField(r).schema.value)
  {
    var fields := RemoveMutationTypeField(r).schema.value;
    forall i | 0 <= i < |fields| ensures !ignore ==> fields[i].name in ColumnNames(table.columns) {
      assert fields[i].name in FieldNames(fields);
    }
  }

  /** The field called `k` of a planned row is written into its operation: not the
      marker, kept by the policy, present and non-null. */
  predicate ShouldWrite(r: Row, table: Table, ignore: bool, k: string)
    requires WellFormedRow(r)
  {
    k != MutationTypeField && Considered(table, ignore, k) && GetAs(r, k).Some? && GetAs(r, k).value.Some?
  }

  /** A built operation has the kind of the row's mutation type, targets the table, and
      its row buffer holds exactly the fields that should be written, with the planned
      row's values. */
  lemma OperationForBuffer(p: PlannedRow, table: Table, ignore: bool)
    requires Buildable(p, table, ignore) && OperationFor(p, table, ignore).Success?
    ensures var op := OperationFor(p, table, ignore).value;
      && p.row.schema.Some?
      && MutationTypeOf(op.kind) == p.mutationType
      && op.table == table.name
      && forall k ::
           && (k in op.row <==> ShouldWrite(p.row, table, ignore, k))
           && (k in op.row ==> op.row[k] == GetAs(p.row, k).value.value)
  {
    var plan := RemoveMutationTypeField(p.row);
    StrippedFieldsKnown(p.row, table, ignore);
    WriteFieldsBuffer(table, ignore, plan.schema.value, plan.values, map[], plan);
    LookupAbsent(plan.schema.value, plan.values, MutationTypeField);
  }

  /** Building fails on an unsupported mutation type first, then on a missing schema, and
      otherwise succeeds exactly when every field that should be written is accepted by
      its column; a mismatch reports the table, the field, the column type, the value's
      class and the row without its marker. */
  lemma OperationForOutcome(p: PlannedRow, table: Table, ignore: bool)
    requires Buildable(p, table, ignore)
    ensures p.mutationType.OtherMutation? ==>
      OperationFor(p, table, ignore) == Failure(UnsupportedMutationType(p.mutationType))
    ensures !p.mutationType.OtherMutation? && p.row.schema.None? ==>
      OperationFor(p, table, ignore) == Failure(MissingPlanSchema)
    ensures OperationFor(p, table, ignore).Success? <==>
      && !p.mutationType.OtherMutation? && p.row.schema.Some?
      && forall k :: ShouldWrite(p.row, table, ignore, k) ==> Accepts(table, k, GetAs(p.row, k).value.value)
    ensures OperationFor(p, table, ignore).Failure? && OperationFor(p, table, ignore).error.TypeMismatch? ==>
      var e := OperationFor(p, table, ignore).error;
      && p.row.schema.Some?
      && e.table == table.name && e.row == RemoveMutationTypeField(p.row)
      && ShouldWrite(p.row, table, ignore, e.field)
      && e.field in ColumnNames(table.columns)
      && e.expected == ColumnNamed(table.columns, e.field).columnType
      && e.foundClass == SimpleClassName(GetAs(p.row, e.field).value.value)
      && !Fits(e.expected, GetAs(p.row, e.field).value.value)
  {
    if !p.mutationType.OtherMutation? && p.row.schema.Some? {
      var plan := RemoveMutationTypeField(p.row);
      StrippedFieldsKnown(p.row, table, ignore);
      LookupAbsent(plan.schema.value, plan.values, MutationTypeField);
      WriteFieldsSucceeds(table, ignore, plan.schema.value, plan.values, map[], plan);
      assert forall k :: k != MutationTypeField ==> GetAs(p.row, k) == Lookup(plan.schema.value, plan.values, k);
      assert forall k :: ShouldWrite(p.row, table, ignore, k) <==> Writes(table, ignore, plan.schema.value, plan.values, k);
      var w := WriteFields(table, ignore, plan.schema.value, plan.values, map[], plan);
      if w.Failure? {
        WriteFieldsError(table, ignore, plan.schema.value, plan.values, map[], plan);
      }
    }
  }

  /** A row whose kind and schema are fine fails at the first field of the stripped row,
      in its field order, that is considered, non-null and not accepted by its column. */
  lemma OperationForFirstFailingField(p: PlannedRow, table: Table, ignore: bool, i: nat)
    requires Buildable(p, table, ignore) && !p.mutationType.OtherMutation? && p.row.schema.Some?
    requires var plan := RemoveMutationTypeField(p.row);
      && i < |plan.values| && Considered(table, ignore, plan.schema.value[i].name) && plan.values[i].Some?
      && !Accepts(table, plan.schema.value[i].name, plan.values[i].value)
      && forall j :: 0 <= j < i && Considered(table, ignore, plan.schema.value[j].name) && plan.values[j].Some? ==>
           Accepts(table, plan.schema.value[j].name, plan.values[j].value)
    ensures var plan := RemoveMutationTypeField(p.row); var name := plan.schema.value[i].name;
      && name in ColumnNames(table.columns)
      && var t := ColumnNamed(table.columns, name).columnType;
         OperationFor(p, table, ignore) ==
           if !Supported(t) then Failure(UnsupportedColumnType(t))
           else Failure(TypeMismatch(table.name, name, t, SimpleClassName(plan.values[i].value), plan))
  {
    var plan := RemoveMutationTypeField(p.row);
    StrippedFieldsKnown(p.row, table, ignore);
    WriteFieldsFirstFailure(table, ignore, plan.schema.value, plan.values, map[], plan, i);
  }

  /** The mutation-type marker is never written, and neither is a null field. */
  lemma MarkerAndNullsNeverWritten(p: PlannedRow, table: Table, ignore: bool)
    requires Buildable(p, table, ignore) && OperationFor(p, table, ignore).Success?
    ensures MutationTypeField !in OperationFor(p, table, ignore).value.row
    ensures forall k :: GetAs(p.row, k) == Some(None) ==> k !in OperationFor(p, table, ignore).value.row
  {
    OperationForBuffer(p, table, ignore);
  }

  /** With the policy on, only the table's columns are written and other fields are
      skipped silently; with it off, every non-null field but the marker is written. */
  lemma IgnoreMissingColumnsPolicy(p: PlannedRow, table: Table, ignore: bool)
    requires Buildable(p, table, ignore) && OperationFor(p, table, ignore).Success?
    ensures ignore ==> forall k :: k in OperationFor(p, table, ignore).value.row ==> k in ColumnNames(table.columns)
    ensures !ignore ==> forall k :: k != MutationTypeField && GetAs(p.row, k).Some? && GetAs(p.row, k).value.Some? ==>
      k in OperationFor(p, table, ignore).value.row
  {
    OperationForBuffer(p, table, ignore);
  }

  function OperationBuilder(table: Table, ignore: bool): PlannedRow --> Result<Operation, Error> {
    (p: PlannedRow) requires Buildable(p, table, ignore) => OperationFor(p, table, ignore)
  }

  predicate AllBuildable(planned: seq<PlannedRow>, table: Table, ignore: bool) {
    forall i :: 0 <= i < |planned| ==> Buildable(planned[i], table, ignore)
  }

  /** The operations for a list of planned rows, or the first row's error. */
  function OperationsFor(planned: seq<PlannedRow>, table: Table, ignore: bool): Result<seq<Operation>, Error>
    requires AllBuildable(planned, table, ignore)
  {
    MapAll(planned, OperationBuilder(table, ignore))
  }

  /** Building a batch succeeds exactly when every row builds, and then gives one
      operation per planned row, in input order, each of the kind of its row's mutation
      type. */
  lemma OperationsForInOrder(planned: seq<PlannedRow>, table: Table, ignore: bool)
    requires AllBuildable(planned, table, ignore)
    ensures OperationsFor(planned, table, ignore).Success? <==>
      forall i :: 0 <= i < |planned| ==> OperationFor(planned[i], table, ignore).Success?
    ensures OperationsFor(planned, table, ignore).Success? ==>
      var ops := OperationsFor(planned, table, ignore).value;
      && |ops| == |planned|
      && forall i :: 0 <= i < |planned| ==>
           ops[i] == OperationFor(planned[i], table, ignore).value
           && MutationTypeOf(ops[i].kind) == planned[i].mutationType
  {
    var f := OperationBuilder(table, ignore);
    assert forall i :: 0 <= i < |planned| ==> f(planned[i]) == OperationFor(planned[i], table, ignore);
    MapAllSuccess(planned, f);
    if OperationsFor(planned, table, ignore).Success? {
      forall i | 0 <= i < |planned|
        ensures MutationTypeOf(OperationFor(planned[i], table, ignore).value.kind) == planned[i].mutationType
      {
        OperationForBuffer(planned[i], table, ignore);
      }
    }
  }

  /** A row that fails to build, after rows that built, makes the whole batch fail with
      its error: no operation list is returned. */
  lemma OperationsForFirstFailure(planned: seq<PlannedRow>, table: Table, ignore: bool, i: nat)
    requires AllBuildable(planned, table, ignore)
    requires i < |planned| && OperationFor(planned[i], table, ignore).Failure?
    requires forall j :: 0 <= j < i ==> OperationFor(planned[j], table, ignore).Success?
    ensures OperationsFor(planned, table, ignore) == Failure(OperationFor(planned[i], table, ignore).error)
  {
    var f := OperationBuilder(table, ignore);
    assert forall j :: 0 <= j < |planned| ==> f(planned[j]) == OperationFor(planned[j], table, ignore);
    MapAllFirstFailure(planned, f, i);
  }
}
