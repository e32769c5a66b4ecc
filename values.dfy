/**
  Values exchanged between the archives and the outer serialization framework:
  the scalars the output archive writes and the input archive reads, and the
  parsed document tree the input archive walks.
 */
module JsonValues {

  const INT32_MIN: int := -0x8000_0000
  const INT32_LIMIT: int := 0x8000_0000
  const UINT32_LIMIT: int := 0x1_0000_0000
  const INT64_MIN: int := -0x8000_0000_0000_0000
  const INT64_LIMIT: int := 0x8000_0000_0000_0000
  const UINT64_LIMIT: int := 0x1_0000_0000_0000_0000

  type Int32 = i: int | -0x8000_0000 <= i < 0x8000_0000
  type UInt32 = i: int | 0 <= i < 0x1_0000_0000
  type Int64 = i: int | -0x8000_0000_0000_0000 <= i < 0x8000_0000_0000_0000
  type UInt64 = i: int | 0 <= i < 0x1_0000_0000_0000_0000

  type Byte = bv8

  /**
    One scalar, by the writer primitive it goes through: Int, Uint, Int64 and
    Uint64 are the four exact-width integer paths. A `const char*` and a
    `std::string` both become Str.
   */
  datatype Scalar =
    | Bool(b: bool)
    | Int(i: Int32)
    | Uint(u: UInt32)
    | Int64(i64: Int64)
    | Uint64(u64: UInt64)
    | Str(s: string)
    | Null

  /**
    The parsed document. Integral numbers keep their exact value; the parser
    stores a number that fits in int64 as int64 and a larger one as uint64,
    which the typed reads below distinguish by range. Objects keep their
    members in document order and may repeat a key.
   */
  datatype Json =
    | JNull
    | JBool(b: bool)
    | JInt(n: int)
    | JString(s: string)
    | JArray(elems: seq<Json>)
    | JObject(fields: seq<(string, Json)>)
  {
    predicate IsContainer() {
      JArray? || JObject?
    }

    /** The number of children of a container, as `size()` reports it. */
    function ChildCount(): nat
      requires IsContainer()
    {
      if JArray? then |elems| else |fields|
    }
  }

  predicate InInt64Range(n: int) {
    INT64_MIN <= n < INT64_LIMIT
  }

  predicate InUInt64Range(n: int) {
    0 <= n < UINT64_LIMIT
  }
}
