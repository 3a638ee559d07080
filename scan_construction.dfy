/** The scanner built for a batch of filter rows (`scannerForFilters`): one in-list
    predicate per filtered column, holding that column's value from every filter row. */
module ScanConstruction {
  import opened Wrappers
  import opened JavaValues
  import opened KuduClient
  import opened SparkRows
  import opened Errors

  /** `filter.getAs(name)`, with the error raised when the row cannot supply the field. */
  function ValueReader(name: string): Row --> Result<Option<Value>, Error> {
    (r: Row) requires WellFormedRow(r) =>
      match GetAs(r, name)
      case None => Failure(FilterFieldUnavailable(name))
      case Some(v) => Success(v)
  }

  predicate AllWellFormed(filters: seq<Row>) {
    forall j :: 0 <= j < |filters| ==> WellFormedRow(filters[j])
  }

  /** The value of field `name` in every filter row, in filter order. */
  function ColumnValues(filters: seq<Row>, name: string): Result<seq<Option<Value>>, Error>
    requires AllWellFormed(filters)
  {
    MapAll(filters, ValueReader(name))
  }

  /** The in-list predicate on column `name`. */
  function PredicateFor(filters: seq<Row>, table: Table, name: string): Result<InListPredicate, Error>
    requires AllWellFormed(filters) && name in ColumnNames(table.columns)
  {
    var values :- ColumnValues(filters, name);
    Success(InListPredicate(ColumnNamed(table.columns, name), values))
  }

  function PredicateMaker(filters: seq<Row>, table: Table): string --> Result<InListPredicate, Error> {
    (name: string) requires AllWellFormed(filters) && name in ColumnNames(table.columns) =>
      PredicateFor(filters, table, name)
  }

  /** The first filter's field names are columns of the table: the column lookup is not
      modelled for absent names. */
  predicate FilterColumnsKnown(filters: seq<Row>, table: Table) {
    |filters| > 0 && filters[0].schema.Some? ==>
      forall i :: 0 <= i < |filters[0].schema.value| ==> filters[0].schema.value[i].name in ColumnNames(table.columns)
  }

  /** The field names of the first filter's schema, the columns filtered on. */
  function FilterNames(filters: seq<Row>): seq<string>
    requires |filters| > 0 && filters[0].schema.Some?
  {
    FieldNames(filters[0].schema.value)
  }

  /** The scanner for `filters`, or the usage error. */
  function ScanFor(filters: seq<Row>, table: Table): Result<ScannerBuilder, Error>
    requires AllWellFormed(filters) && FilterColumnsKnown(filters, table)
  {
    if |filters| == 0 then Failure(MissingFilter)
    else if filters[0].schema.None? then Failure(MissingFilterSchema)
    else
      var predicates :- MapAll(FilterNames(filters), PredicateMaker(filters, table));
      Success(ScannerBuilder(table.name, predicates))
  }

  /** An empty filter list and a first filter without a schema are rejected. */
  lemma ScanForUsageErrors(filters: seq<Row>, table: Table)
    requires AllWellFormed(filters) && FilterColumnsKnown(filters, table)
    ensures |filters| == 0 <==> ScanFor(filters, table) == Failure(MissingFilter)
    ensures |filters| > 0 && filters[0].schema.None? <==> ScanFor(filters, table) == Failure(MissingFilterSchema)
  {
    if |filters| > 0 && filters[0].schema.Some? && ScanFor(filters, table).Failure? {
      var f := PredicateMaker(filters, table);
      var names := FilterNames(filters);
      var i := MapAllFailure(names, f);
      var v := MapAllFailure(filters, ValueReader(names[i]));
    }
  }

  /** Otherwise the scanner is built exactly when every filter row supplies every filtered
      field, and then it scans the table with one predicate per field of the first filter's
      schema (K predicates for K fields, however many filter rows there are), in schema
      order, the predicate for a field listing that field's value from every filter row,
      in filter order. */
  lemma ScanForPredicates(filters: seq<Row>, table: Table)
    requires AllWellFormed(filters) && FilterColumnsKnown(filters, table)
    requires |filters| > 0 && filters[0].schema.Some?
    ensures var names := FilterNames(filters);
      ScanFor(filters, table).Success? <==>
        forall p, j :: 0 <= p < |names| && 0 <= j < |filters| ==> GetAs(filters[j], names[p]).Some?
    ensures var names := FilterNames(filters);
      ScanFor(filters, table).Success? ==>
        var b := ScanFor(filters, table).value;
        && b.table == table.name
        && |b.predicates| == |names| == |filters[0].schema.value|
        && forall p :: 0 <= p < |names| ==>
             && names[p] in ColumnNames(table.columns)
             && b.predicates[p].column == ColumnNamed(table.columns, names[p])
             && |b.predicates[p].values| == |filters|
             && forall j :: 0 <= j < |filters| ==> b.predicates[p].values[j] == GetAs(filters[j], names[p]).value
  {
    var names := FilterNames(filters);
    var f := PredicateMaker(filters, table);
    MapAllSuccess(names, f);
    forall p | 0 <= p < |names|
      ensures names[p] in ColumnNames(table.columns)
      ensures f(names[p]).Success? <==> forall j :: 0 <= j < |filters| ==> GetAs(filters[j], names[p]).Some?
      ensures f(names[p]).Success? ==>
        && f(names[p]).value.column == ColumnNamed(table.columns, names[p])
        && |f(names[p]).value.values| == |filters|
        && forall j :: 0 <= j < |filters| ==> f(names[p]).value.values[j] == GetAs(filters[j], names[p]).value
    {
      var g := ValueReader(names[p]);
      MapAllSuccess(filters, g);
      assert forall j :: 0 <= j < |filters| ==> (g(filters[j]).Success? <==> GetAs(filters[j], names[p]).Some?);
    }
  }

  /** A scanner that cannot be built for a non-empty batch whose first filter has a schema
      reports a filtered field that some filter row cannot supply. */
  lemma ScanForMissingField(filters: seq<Row>, table: Table)
    requires AllWellFormed(filters) && FilterColumnsKnown(filters, table)
    requires |filters| > 0 && filters[0].schema.Some? && ScanFor(filters, table).Failure?
    ensures var e := ScanFor(filters, table).error;
      && e.FilterFieldUnavailable?
      && e.field in FilterNames(filters)
      && exists j :: 0 <= j < |filters| && GetAs(filters[j], e.field).None?
  {
    var names := FilterNames(filters);
    var i := MapAllFailure(names, PredicateMaker(filters, table));
    var j := MapAllFailure(filters, ValueReader(names[i]));
    assert GetAs(filters[j], names[i]).None?;
  }

  /** The field at position `p` of the first filter's schema cannot be read from some
      filter row while every earlier field can: the scanner fails on that field. */
  lemma ScanForFirstFailingName(filters: seq<Row>, table: Table, p: nat)
    requires AllWellFormed(filters) && FilterColumnsKnown(filters, table)
    requires |filters| > 0 && filters[0].schema.Some? && p < |FilterNames(filters)|
    requires ColumnValues(filters, FilterNames(filters)[p]).Failure?
    requires forall q :: 0 <= q < p ==> ColumnValues(filters, FilterNames(filters)[q]).Success?
    ensures ScanFor(filters, table) == Failure(ColumnValues(filters, FilterNames(filters)[p]).error)
  {
    var names := FilterNames(filters);
    var f := PredicateMaker(filters, table);
    assert forall q :: 0 <= q < |names| ==> f(names[q]) == PredicateFor(filters, table, names[q]);
    MapAllFirstFailure(names, f, p);
  }
}
