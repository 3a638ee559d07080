# Kudu output bridge, modelled in Dafny

Envelope's Kudu output (`KuduOutput`) connects generic Spark rows, which carry a schema, to the tables, row results, write operations and scans of the Kudu column store. This project models its core logic:

- **Schema derivation** (`schemaFor`). Each Kudu column type tag maps to a Spark data type. Decimal keeps its precision and scale. Any other tag is an "unsupported column type" error.
- **Result decoding** (`resultAsRow`). Each result row is read column by column, in table order. A null cell becomes null and any other cell becomes its value. The row carries the table's cached schema.
- **Mutation building** (`extractOperations`). For each planned row, in order, the builder:
  - picks the operation kind from the row's mutation type;
  - demands a schema;
  - strips the mutation-type marker field;
  - optionally skips fields the table lacks;
  - skips nulls;
  - writes every other value into the operation's row buffer.

  A value whose class does not fit its column fails the whole call with a diagnostic.
- **Filter scans** (`scannerForFilters` and `getExistingForFilters`). There is one in-list predicate per field of the first filter's schema. Each predicate lists that field's value from every filter row, in filter order. An empty batch of filters scans nothing.
- **Schema cache** (`getTableSchema`). This is a lazily created map from table name to derived schema. Each entry is computed once and then reused.
- **Random writes** (`applyRandomMutations`). Operations are submitted to the session in order. Once the session has drained, the call fails with the first pending row error, if there is one.

Layout, one module per concern:

- `wrappers.dfy`: `Option`, `Result`, `Outcome`, and the first-failure-wins `MapAll` with its lemmas.
- `values.dfy`: the Java values that travel through rows (`JavaValues`).
- `kudu_client.dfy`: Kudu column schemas, tables, row results, operations, predicates and row errors.
- `spark_rows.dfy`: Spark struct fields and rows, with field lookup.
- `planner.dfy`: a planned row's mutation type and marker removal.
- `errors.dfy`: the error conditions `KuduOutput` raises.
- `type_bridge.dfy`: the per-tag type switches.
- `schema_derivation.dfy`, `result_decoding.dfy`, `mutation_building.dfy`, `scan_construction.dfy`, `batch_apply.dfy`: the specification function of each operation, with lemmas about it.
- `kudu_output.dfy`: the class `KuduOutput`. It owns the schema cache field. Most of its loop-based methods are proved equal to their specification function. The loops of `ConvertScanned` and `ApplyRandomMutations` are proved against closed-form postconditions instead: the rows or the submitted operations, the new cache, and the error.

Where the schema-cache state changes, the methods state the new cache through `SchemaRequest` and `CacheAfterRequest`. `SchemaCachedOnce` proves the compute-once behaviour of those two functions.

With ignore-missing-columns off, `extractOperations` looks up every considered field with `getColumn` straight away (KuduOutput.java:365). Kudu's behaviour for an absent name is not modelled, so `ColumnsKnown` requires that the name exists.

## Model

| member | source | states |
|---|---|---|
| TypeBridge.SparkTypeFor | external/kudu/src/main/java/com/cloudera/labs/envelope/kudu/KuduOutput.java:232-270 | Mapping a column's tag succeeds exactly for the eleven known tags. Any other tag fails with "unsupported column type" naming the tag. A decimal maps to a decimal type with the column's own precision and scale. |
| SchemaDerivation.SchemaOfFields | external/kudu/src/main/java/com/cloudera/labs/envelope/kudu/KuduOutput.java:229-275 | Derivation succeeds exactly when every column type is supported. It then gives one nullable field per column, with the same names in the same order, each typed by its column's tag. |
| SchemaDerivation.SchemaOfFirstUnsupported | external/kudu/src/main/java/com/cloudera/labs/envelope/kudu/KuduOutput.java:229-270 | The derivation error names the tag of the first unsupported column. |
| KuduOutputs.KuduOutput.SchemaFor | external/kudu/src/main/java/com/cloudera/labs/envelope/kudu/KuduOutput.java:226-276 | The field-building loop returns exactly the derived schema, or the derivation error. |
| TypeBridge.FitsExactlyExternalClass | external/kudu/src/main/java/com/cloudera/labs/envelope/kudu/KuduOutput.java:369-403 | A value of a known Java class fits a supported column exactly when its class is the one Spark uses for the column's derived field type. |
| ResultDecoding.DecodeValuesCells | external/kudu/src/main/java/com/cloudera/labs/envelope/kudu/KuduOutput.java:174-219 | Decoding succeeds exactly when every non-null cell's column type is supported. It then gives one value per column in table order: null exactly where the cell is null, otherwise the cell's value. |
| ResultDecoding.DecodeValuesFirstUnreadable | external/kudu/src/main/java/com/cloudera/labs/envelope/kudu/KuduOutput.java:174-218 | The decoding error names the tag of the first column that holds a value of an unsupported type. |
| ResultDecoding.DecodedRowConformsToSchema | external/kudu/src/main/java/com/cloudera/labs/envelope/kudu/KuduOutput.java:174-221 | For a fully supported table whose cells are well typed, the decoded row has one value per schema field. Each non-null value has the Java class Spark uses for that field's type. |
| KuduOutputs.KuduOutput.ResultAsRow | external/kudu/src/main/java/com/cloudera/labs/envelope/kudu/KuduOutput.java:171-224 | A decoding error is returned with the cache untouched. Otherwise the result is the decoded values under the schema the cache request gives. The cache changes as that one request changes it. When any cached entry under the table's name was derived from this same table, the row's schema is the table's derived schema. Otherwise it is whatever schema is stored under that name. |
| KuduOutputs.SchemaCachedOnce | external/kudu/src/main/java/com/cloudera/labs/envelope/kudu/KuduOutput.java:424-437 | A table's name is cached after a request exactly when it already was or its schema derives. A later request for that name, even for a table of that name with other columns, returns the stored schema and leaves the cache unchanged. Other entries are never changed, and no other name is added. |
| KuduOutputs.KuduOutput.GetTableSchema | external/kudu/src/main/java/com/cloudera/labs/envelope/kudu/KuduOutput.java:424-437 | The cache map exists afterwards. The result is the cached schema for the table's name, or else the derived schema. The new cache is the old one plus that derived schema. Every cached entry stays the schema derived from its own table. |
| ScanConstruction.ScanForUsageErrors | external/kudu/src/main/java/com/cloudera/labs/envelope/kudu/KuduOutput.java:279-287 | Building a scanner fails with "filter not provided" exactly for an empty list. It fails with "filter has no schema" exactly when the first filter lacks a schema. |
| ScanConstruction.ScanForPredicates | external/kudu/src/main/java/com/cloudera/labs/envelope/kudu/KuduOutput.java:294-308 | The scan builds exactly when every filter supplies every field of the first filter's schema. It then has one in-list predicate per such field, in schema order, on the table's column of that name. Each predicate lists that field's value from every filter row, in filter order. |
| ScanConstruction.ScanForMissingField | external/kudu/src/main/java/com/cloudera/labs/envelope/kudu/KuduOutput.java:296-303 | Any other failure names a filtered field that some filter row cannot supply. |
| ScanConstruction.ScanForFirstFailingName | external/kudu/src/main/java/com/cloudera/labs/envelope/kudu/KuduOutput.java:296-308 | The failure is that of the first field, in schema order, whose values cannot be collected. |
| KuduOutputs.KuduOutput.ColumnValuesOf | external/kudu/src/main/java/com/cloudera/labs/envelope/kudu/KuduOutput.java:299-303 | The inner loop collects exactly the field's value from every filter, in order, or fails as the specification does. |
| KuduOutputs.KuduOutput.ScannerForFilters | external/kudu/src/main/java/com/cloudera/labs/envelope/kudu/KuduOutput.java:278-313 | The predicate-building loop returns exactly the specified scanner or error. |
| KuduOutputs.KuduOutput.GetExistingForFilters | external/kudu/src/main/java/com/cloudera/labs/envelope/kudu/KuduOutput.java:144-168 | No filters: nothing, with no scan and the cache untouched. A scan error is passed on. Otherwise the call succeeds exactly when every scanned result decodes and the schema request succeeds. The rows are then the results in scan order, each decoded under the cached schema, and the cache changes at most by the first request. On failure the error is that of the first failing result: its decoding error, or, for the first result only, the schema request's error. |
| KuduOutputs.KuduOutput.ConvertScanned | external/kudu/src/main/java/com/cloudera/labs/envelope/kudu/KuduOutput.java:155-161 | The scan loop converts the results in order. It succeeds exactly when every result decodes and the schema request succeeds. Otherwise it fails with the first failing result's error: that result's decoding error, or the schema request's error when it is the first result that decodes. |
| MutationBuilding.KindFor | external/kudu/src/main/java/com/cloudera/labs/envelope/kudu/KuduOutput.java:323-338 | DELETE, INSERT, UPDATE and UPSERT each give the operation kind of that mutation type. Any other type fails with "unsupported mutation type" naming it. |
| Planner.RemoveMutationTypeField | external/kudu/src/main/java/com/cloudera/labs/envelope/kudu/KuduOutput.java:346 | The stripped row is well formed and has no marker field. Its field names are among the original's, and every other field keeps its value. |
| Planner.RemoveNamedSpec | external/kudu/src/main/java/com/cloudera/labs/envelope/kudu/KuduOutput.java:346 | Removing a named field keeps the names distinct and removes that name. Every other name keeps its value. |
| MutationBuilding.StrippedFieldsKnown | external/kudu/src/main/java/com/cloudera/labs/envelope/kudu/KuduOutput.java:346-365 | After stripping, every field the loop looks up on the table is one of its columns. |
| MutationBuilding.WriteFieldsBuffer | external/kudu/src/main/java/com/cloudera/labs/envelope/kudu/KuduOutput.java:350-416 | The field loop's buffer holds exactly the earlier contents plus every considered non-null field, each with its row value. |
| MutationBuilding.WriteFieldsSucceeds | external/kudu/src/main/java/com/cloudera/labs/envelope/kudu/KuduOutput.java:350-416 | The field loop succeeds exactly when every considered non-null field's value fits its column. |
| MutationBuilding.WriteFieldsError | external/kudu/src/main/java/com/cloudera/labs/envelope/kudu/KuduOutput.java:369-414 | A field-loop failure is either an unsupported column type or a type mismatch. A mismatch names the table, a considered non-null field, that column's supported Kudu type, the value's Java class and the row. |
| MutationBuilding.WriteFieldsFirstFailure | external/kudu/src/main/java/com/cloudera/labs/envelope/kudu/KuduOutput.java:350-416 | The field loop fails at the first considered non-null field, in field order, whose column cannot take its value, whatever the later fields hold. It reports an unsupported column type as such, and any other misfit as a mismatch naming that field, its column's type and the value's Java class. |
| MutationBuilding.OperationForBuffer | external/kudu/src/main/java/com/cloudera/labs/envelope/kudu/KuduOutput.java:318-418 | A built operation has the row's mutation type as its kind and targets the table. Its buffer holds exactly the fields that should be written, with the planned row's values. |
| MutationBuilding.OperationForOutcome | external/kudu/src/main/java/com/cloudera/labs/envelope/kudu/KuduOutput.java:323-414 | The error checks come in order: the unsupported mutation type, then the missing plan schema. Building then succeeds exactly when every field to be written fits its column. A mismatch reports the table, the field, the column's type, the value's class and the stripped row. |
| MutationBuilding.OperationForFirstFailingField | external/kudu/src/main/java/com/cloudera/labs/envelope/kudu/KuduOutput.java:346-414 | A planned row with a supported mutation type and a schema fails at the first field of the stripped row, in its field order, that is considered, non-null and not accepted by its column. The error is that field's unsupported column type, or a mismatch naming it and reporting the stripped row. |
| MutationBuilding.MarkerAndNullsNeverWritten | external/kudu/src/main/java/com/cloudera/labs/envelope/kudu/KuduOutput.java:346-368 | Neither the marker field nor a null field is ever written to the buffer. |
| MutationBuilding.IgnoreMissingColumnsPolicy | external/kudu/src/main/java/com/cloudera/labs/envelope/kudu/KuduOutput.java:353-363 | Policy on: only table column names are written. Policy off: every non-null non-marker field of the row is written. |
| MutationBuilding.OperationsForInOrder | external/kudu/src/main/java/com/cloudera/labs/envelope/kudu/KuduOutput.java:315-422 | Building the list succeeds exactly when every row builds. It then gives one operation per planned row, in input order, each with the kind matching its row's mutation type. |
| MutationBuilding.OperationsForFirstFailure | external/kudu/src/main/java/com/cloudera/labs/envelope/kudu/KuduOutput.java:318-419 | The whole call fails with the first failing row's error, and no list is returned. |
| KuduOutputs.KuduOutput.ColumnNamesOf | external/kudu/src/main/java/com/cloudera/labs/envelope/kudu/KuduOutput.java:354-358 | The lazily built list holds the table's column names in order. |
| KuduOutputs.KuduOutput.BuildOperation | external/kudu/src/main/java/com/cloudera/labs/envelope/kudu/KuduOutput.java:318-418 | The per-row body, with its field loop and lazy name list, returns exactly the specified operation or error. |
| KuduOutputs.KuduOutput.ExtractOperations | external/kudu/src/main/java/com/cloudera/labs/envelope/kudu/KuduOutput.java:315-422 | The row loop returns exactly the specified operation list or first error. |
| BatchApply.FirstErrorWins | external/kudu/src/main/java/com/cloudera/labs/envelope/kudu/KuduOutput.java:124-129 | The call fails exactly when some row error is pending. It reports only the first one, whatever follows it. |
| BatchApply.RowErrorMessageParses | external/kudu/src/main/java/com/cloudera/labs/envelope/kudu/KuduOutput.java:126-127 | The error message holds the first error's status, operation and tablet server. All three can be read back when the first two contain no single quote. |
| BatchApply.Session.Apply | external/kudu/src/main/java/com/cloudera/labs/envelope/kudu/KuduOutput.java:115 | Applying appends the operation to what the session has received. |
| KuduOutputs.KuduOutput.ApplyRandomMutations | external/kudu/src/main/java/com/cloudera/labs/envelope/kudu/KuduOutput.java:107-131 | A build error is raised before anything is submitted. Otherwise every built operation is submitted in order. The call then fails exactly on the first pending row error. |

## Left out

- `applyBulkMutations`: it delegates to Spark's `KuduContext` and `Dataset.drop`, which are library code, not logic of this class.
- Connections, sessions and the table lookup (`getConnection`, `getTable`, `getSession`): these are remote I/O. The table is a parameter. The session is the class `BatchApply.Session`, whose state is the sequence of operations it has received.
- The busy-wait on `hasPendingOperations` with `Thread.sleep`: this is timing. The row errors left once the session has drained are a parameter.
- Scanner execution and paging in `getExistingForFilters`: the rows the scan returns are a parameter, in the store's scan order.
- The accumulators: these are metrics plumbing. The seconds counter is floating-point arithmetic on `System.nanoTime`.
- Token provider, validations, configuration, alias and the supported-mutation-type sets: these are configuration wiring and constants. The ignore-missing-columns flag is a constructor argument.
- The `synchronized` modifier on `getTableSchema`: the cache is modelled sequentially.
- Doubles, floats, decimals and timestamps are opaque values. Kudu's own coercions in `addDecimal` and `getTimestamp`, and its type checks on in-list predicate values, are not modelled.
- MutationBuilding.ColumnsKnown and ScanConstruction.FilterColumnsKnown: Kudu's `getColumn` on an absent name is a precondition. It applies when the policy is off and for filter fields. No error path exists for it, because that behaviour lies in the client library. `ExtractOperations` and `ApplyRandomMutations` require it of every planned row, through `AllBuildable`. That includes rows after the first failing one, which the source never reaches.
- SparkRows.WellFormedRow: rows are assumed to have one value per field and distinct field names. Spark's `fieldIndex` with duplicate names is not modelled.
- KuduClient.ValidTable: tables are assumed to satisfy Kudu's schema guarantees: distinct column names, and every decimal column carries attributes with precision 1..38 and scale no larger than the precision.
- `PlannerUtils.getMutationType` is outside this class. A planned row carries its mutation type beside the row. The marker field is named `_mutation_type`, Envelope's constant.
- `PlannerUtils.removeMutationTypeField` and `RowUtils.remove` are outside this class. They are modelled as dropping the marker field and its value.
- Operations and their `PartialRow` buffers are values: a kind, a table name and a map from column name to value. Aliasing of the buffer is not modelled.
- Error message texts other than the row-error message are structured `Error` values carrying the same data, not formatted strings. Exception chaining is not modelled either.
- Errors thrown by Spark's `getAs` for a filter row without the field are modelled as `FilterFieldUnavailable`.
