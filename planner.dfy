/** The mutation planner's side of a planned row: its mutation type and the marker field
    that carries it. */
module Planner {
  import opened Wrappers
  import opened JavaValues
  import opened SparkRows

  datatype MutationType = Insert | Update | Delete | Upsert | OtherMutation(typeName: string)

  /** Name of the marker field the planner adds to every planned row. */
  const MutationTypeField: string := "_mutation_type"

  /** A planned row and the mutation type read from its marker field. */
  datatype PlannedRow = PlannedRow(mutationType: MutationType, row: Row)

  /** Drops the fields called `name`, and their values. */
  function RemoveNamed(fields: seq<StructField>, values: seq<Option<Value>>, name: string)
    : (r: (seq<StructField>, seq<Option<Value>>))
    requires |fields| == |values|
    ensures |r.0| == |r.1| <= |fields|
  {
    if |fields| == 0 then ([], [])
    else
      var rest := RemoveNamed(fields[1..], values[1..], name);
      if fields[0].name == name then rest else ([fields[0]] + rest.0, [values[0]] + rest.1)
  }

  /** The row without its marker field, as `removeMutationTypeField` gives it. */
  function RemoveMutationTypeField(r: Row): (s: Row)
    requires WellFormedRow(r) && r.schema.Some?
    ensures s.schema.Some? && WellFormedRow(s)
    ensures MutationTypeField !in FieldNames(s.schema.value)
    ensures forall k :: k in FieldNames(s.schema.value) ==> k in FieldNames(r.schema.value)
    ensures forall k :: k != MutationTypeField ==>
      Lookup(s.schema.value, s.values, k) == Lookup(r.schema.value, r.values, k)
  {
    var (f, v) := RemoveNamed(r.schema.value, r.values, MutationTypeField);
    RemoveNamedSpec(r.schema.value, r.values, MutationTypeField);
    Row(Some(f), v)
  }

  lemma {:induction false} RemoveNamedSpec(fields: seq<StructField>, values: seq<Option<Value>>, name: string)
    requires |fields| == |values| && DistinctFieldNames(fields)
    ensures var r := RemoveNamed(fields, values, name);
      && DistinctFieldNames(r.0)
      && name !in FieldNames(r.0)
      && (forall k :: k in FieldNames(r.0) ==> k in FieldNames(fields))
      && (forall k :: k != name ==> Lookup(r.0, r.1, k) == Lookup(fields, values, k))
  {
    if |fields| > 0 {
      RemoveNamedSpec(fields[1..], values[1..], name);
      var rest := RemoveNamed(fields[1..], values[1..], name);
      assert FieldNames(fields) == [fields[0].name] + FieldNames(fields[1..]);
      if fields[0].name != name {
        var r := RemoveNamed(fields, values, name);
        assert r.0 == [fields[0]] + rest.0 && r.1 == [values[0]] + rest.1;
        assert r.0[1..] == rest.0 && r.1[1..] == rest.1;
        assert FieldNames(r.0) == [fields[0].name] + FieldNames(rest.0);
        assert fields[0].name !in FieldNames(fields[1..]);
        forall i, j | 0 <= i < j < |r.0| ensures r.0[i].name != r.0[j].name {
          if i == 0 {
            assert r.0[j] == rest.0[j - 1];
            assert r.0[j].name in FieldNames(rest.0);
          }
        }
      }
    }
  }
}
