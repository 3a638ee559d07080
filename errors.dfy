/** The errors the output raises, with the diagnostic fields each one carries. */
module Errors {
  import opened KuduClient
  import opened SparkRows
  import opened Planner

  datatype Error =
    /** "Unsupported Kudu column type", naming the tag. */
    | UnsupportedColumnType(columnType: Type)
    /** "Unsupported Kudu mutation type", naming the mutation type. */
    | UnsupportedMutationType(mutationType: MutationType)
    /** A planned row that carries no schema. */
    | MissingPlanSchema
    /** A value whose runtime class does not fit its column: the table, the field, the
        expected Kudu type, the Java class found and the offending row. */
    | TypeMismatch(table: string, field: string, expected: Type, foundClass: string, row: Row)
    /** An empty filter list given to the scanner. */
    | MissingFilter
    /** A first filter row that carries no schema. */
    | MissingFilterSchema
    /** A filter row from which a filtered field cannot be read. */
    | FilterFieldUnavailable(field: string)
    /** The first row error the session reported after applying a batch. */
    | OutputError(message: string)
}
