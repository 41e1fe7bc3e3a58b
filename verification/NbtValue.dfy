/** NBT tag types and values. */
module NbtValue {
  import opened Streams
  import opened ModifiedUtf8

  type TagType = byte

  const END: TagType := 0
  const BYTE: TagType := 1
  const SHORT: TagType := 2
  const INT: TagType := 3
  const LONG: TagType := 4
  const FLOAT: TagType := 5
  const DOUBLE: TagType := 6
  const BYTE_ARRAY: TagType := 7
  const STRING: TagType := 8
  const LIST: TagType := 9
  const COMPOUND: TagType := 10
  const INT_ARRAY: TagType := 11
  const LONG_ARRAY: TagType := 12

  predicate ValidValueType(t: TagType) {
    BYTE <= t <= LONG_ARRAY
  }

  /** An NBT value. Floating-point numbers are their IEEE 754 bit patterns;
      Nil is the nil interface value, which Go code can put anywhere. */
  datatype Value =
    | Nil
    | Byte(b: int8)
    | Short(s: int16)
    | Int(i: int32)
    | Long(l: int64)
    | Float(f: uint32)
    | Double(d: uint64)
    | ByteArray(bytes: seq<byte>)
    | String(text: GoString)
    | List(elementType: TagType, values: seq<Value>)
    | Compound(fields: map<GoString, Value>)
    | IntArray(ints: seq<int32>)
    | LongArray(longs: seq<int64>)

  /** The tag type of a value; a nil value has none and is given TAG_End. */
  function TypeOf(v: Value): TagType {
    match v
    case Nil => END
    case Byte(_) => BYTE
    case Short(_) => SHORT
    case Int(_) => INT
    case Long(_) => LONG
    case Float(_) => FLOAT
    case Double(_) => DOUBLE
    case ByteArray(_) => BYTE_ARRAY
    case String(_) => STRING
    case List(_, _) => LIST
    case Compound(_) => COMPOUND
    case IntArray(_) => INT_ARRAY
    case LongArray(_) => LONG_ARRAY
  }
}
