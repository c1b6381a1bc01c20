/**
 * An already-parsed JSON value, standing in for `serde_json::Value`, and the
 * accessors the proxy uses on it (`get`, `as_bool`, `as_str`, `as_u64`,
 * `as_object`). Parsing and printing are not modelled: a request body is
 * given to the model as the value `serde_json` would have produced.
 */
module JsonValue {
  import opened Common

  /**
   * `JInt` holds a JSON number written without fraction or exponent that
   * fits in 64 bits; `JFloat` is any other number (its value is never
   * inspected by the proxy).
   */
  datatype Json =
    | JNull
    | JBool(b: bool)
    | JInt(i: int)
    | JFloat
    | JStr(s: string)
    | JArr(items: seq<Json>)
    | JObj(fields: map<string, Json>)

  /** `Value::get(name)`: the member of an object; nothing for any other value. */
  function Get(v: Json, name: string): (r: Option<Json>)
    ensures r.Some? <==> v.JObj? && name in v.fields
    ensures r.Some? ==> r.value == v.fields[name]
  {
    if v.JObj? && name in v.fields then Some(v.fields[name]) else None
  }

  /** `Option<&Value>::and_then(as_bool)`. */
  function AsBool(v: Option<Json>): (r: Option<bool>)
    ensures r.Some? <==> v.Some? && v.value.JBool?
  {
    if v.Some? && v.value.JBool? then Some(v.value.b) else None
  }

  /** `Option<&Value>::and_then(as_str)`. */
  function AsStr(v: Option<Json>): (r: Option<string>)
    ensures r.Some? <==> v.Some? && v.value.JStr?
  {
    if v.Some? && v.value.JStr? then Some(v.value.s) else None
  }

  /** `Option<&Value>::and_then(as_u64)`: non-negative integers that fit in 64 bits. */
  function AsU64(v: Option<Json>): (r: Option<u64>)
    ensures r.Some? <==> v.Some? && v.value.JInt? && 0 <= v.value.i <= U64_MAX
    ensures r.Some? ==> r.value == v.value.i
  {
    if v.Some? && v.value.JInt? && 0 <= v.value.i <= U64_MAX then Some(v.value.i) else None
  }
}
