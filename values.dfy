/** The Java runtime objects that travel in generic rows, in operation buffers and in scan
    results.  Floating-point numbers, timestamps and decimals are opaque values here. */
module JavaValues {

  newtype Int8 = x: int | -0x80 <= x < 0x80
  newtype Int16 = x: int | -0x8000 <= x < 0x8000
  newtype Int32 = x: int | -0x8000_0000 <= x < 0x8000_0000
  newtype Int64 = x: int | -0x8000_0000_0000_0000 <= x < 0x8000_0000_0000_0000

  /** One boxed Java object, tagged by its runtime class. */
  datatype Value =
    | JDouble(doubleBits: bv64)
    | JFloat(floatBits: bv32)
    | JByte(byteValue: Int8)
    | JShort(shortValue: Int16)
    | JInteger(intValue: Int32)
    | JLong(longValue: Int64)
    | JString(chars: string)
    | JBoolean(boolValue: bool)
    | JBytes(bytes: seq<bv8>)
    | JTimestamp(micros: int)
    | JBigDecimal(unscaled: int, decimalScale: int)
    | JOther(className: string)   // any other class, e.g. java.sql.Date

  /** `getClass().getSimpleName()` of the value. */
  function SimpleClassName(v: Value): string {
    match v
    case JDouble(_) => "Double"
    case JFloat(_) => "Float"
    case JByte(_) => "Byte"
    case JShort(_) => "Short"
    case JInteger(_) => "Integer"
    case JLong(_) => "Long"
    case JString(_) => "String"
    case JBoolean(_) => "Boolean"
    case JBytes(_) => "byte[]"
    case JTimestamp(_) => "Timestamp"
    case JBigDecimal(_, _) => "BigDecimal"
    case JOther(name) => name
  }
}
