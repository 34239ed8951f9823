/**
 * An abstract rapidjson document value and the kind tests and accessors
 * the resources use. Objects are maps, so a member name occurs once.
 */
module Json {
  import opened CLib

  datatype Value =
    | Null
    | Bool(b: bool)
    | Int(n: int)      // a number rapidjson stores as an integer
    | Double(d: real)  // a number rapidjson stores as a double
    | Str(s: string)
    | Array(items: seq<Value>)
    | Object(members: map<string, Value>)

  const INT32_MIN: int := -0x8000_0000
  const INT32_MAX: int := 0x7fff_ffff
  const UINT32_MAX: int := 0xffff_ffff

  predicate IsString(v: Value) { v.Str? }
  predicate IsBool(v: Value) { v.Bool? }
  predicate IsObject(v: Value) { v.Object? }
  predicate IsArray(v: Value) { v.Array? }
  /** An integer that fits in `int` (rapidjson's kIntFlag). */
  predicate IsInt(v: Value) { v.Int? && INT32_MIN <= v.n <= INT32_MAX }
  /** An integer that fits in `unsigned` (rapidjson's kUintFlag). */
  predicate IsUint(v: Value) { v.Int? && 0 <= v.n <= UINT32_MAX }
  predicate IsFloat(v: Value) { v.Double? }

  predicate HasMember(v: Value, k: string)
  {
    v.Object? && k in v.members
  }

  /** GetString() as the C code uses it: a `char*`, read up to its first NUL. */
  function GetString(v: Value): (r: string)
    requires IsString(v)
    ensures NoNul(r)
  {
    CStr(v.s)
  }
}
