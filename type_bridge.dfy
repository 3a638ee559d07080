/** The per-tag case analysis shared by schema derivation, result decoding and operation
    building: which Spark type a Kudu column gets, which Java class a column accepts, and
    how a result cell is read. */
module TypeBridge {
  import opened Wrappers
  import opened JavaValues
  import opened KuduClient
  import opened SparkRows
  import opened Errors

  /** The eleven tags the output handles. */
  predicate Supported(t: Type) {
    !t.OtherType?
  }

  /** The Spark type of a column's field in the derived schema. */
  function SparkTypeFor(c: ColumnSchema): (r: Result<DataType, Error>)
    requires ValidColumn(c)
    ensures r.Success? <==> Supported(c.columnType)
    ensures r.Failure? ==> r.error == UnsupportedColumnType(c.columnType)
    ensures c.columnType == Decimal ==>
      r == Success(DecimalType(c.typeAttributes.value.precision, c.typeAttributes.value.scale))
  {
    match c.columnType
    case Double => Success(DoubleType)
    case Float => Success(FloatType)
    case Int8 => Success(ByteType)
    case Int16 => Success(ShortType)
    case Int32 => Success(IntegerType)
    case Int64 => Success(LongType)
    case String => Success(StringType)
    case Bool => Success(BooleanType)
    case Binary => Success(BinaryType)
    case UnixtimeMicros => Success(TimestampType)
    case Decimal =>
      Success(DecimalType(c.typeAttributes.value.precision, c.typeAttributes.value.scale))
    case OtherType(_) => Failure(UnsupportedColumnType(c.columnType))
  }

  /** Distinct column types get distinct Spark types: the mapping loses nothing,
      and a decimal type determines the column's precision and scale. */
  lemma SparkTypeInjective(c: ColumnSchema, d: ColumnSchema)
    requires ValidColumn(c) && ValidColumn(d)
    requires SparkTypeFor(c).Success? && SparkTypeFor(c) == SparkTypeFor(d)
    ensures c.columnType == d.columnType
    ensures c.columnType == Decimal ==> c.typeAttributes == d.typeAttributes
  {
  }

  /** The Java class Spark uses for values of a data type. */
  function ExternalClass(t: DataType): string {
    match t
    case DoubleType => "Double"
    case FloatType => "Float"
    case ByteType => "Byte"
    case ShortType => "Short"
    case IntegerType => "Integer"
    case LongType => "Long"
    case StringType => "String"
    case BooleanType => "Boolean"
    case BinaryType => "byte[]"
    case TimestampType => "Timestamp"
    case DecimalType(_, _) => "BigDecimal"
  }

  /** The value is of the one Java class the typed accessor for the tag casts to
      (`getDouble`, `getByte`, ..., `getAs<byte[]>`, `getTimestamp`, `getDecimal`). */
  predicate Fits(t: Type, v: Value) {
    match t
    case Double => v.JDouble?
    case Float => v.JFloat?
    case Int8 => v.JByte?
    case Int16 => v.JShort?
    case Int32 => v.JInteger?
    case Int64 => v.JLong?
    case String => v.JString?
    case Bool => v.JBoolean?
    case Binary => v.JBytes?
    case UnixtimeMicros => v.JTimestamp?
    case Decimal => v.JBigDecimal?
    case OtherType(_) => false
  }

  /** The write side agrees with the derived schema: a value of one of the eleven known
      classes fits a supported column exactly when its class is the one Spark uses for
      the column's field type. */
  lemma FitsExactlyExternalClass(c: ColumnSchema, v: Value)
    requires ValidColumn(c) && Supported(c.columnType) && !v.JOther?
    ensures Fits(c.columnType, v) <==> SimpleClassName(v) == ExternalClass(SparkTypeFor(c).value)
  {
  }

  /** Reads a non-null result cell through the accessor for the column's tag. */
  function ReadCell(t: Type, v: Value): Result<Value, Error> {
    if Supported(t) then Success(v) else Failure(UnsupportedColumnType(t))
  }
}
