/**
 * The JavaScript values a decoded JSON response body can hold, plus `undefined`,
 * which is what reading an absent property yields.
 */
module Js {

  /** Numbers are integers here: ids, sizes and statuses are the only numbers the client reads. */
  datatype Json =
    | Undefined
    | Null
    | Bool(b: bool)
    | Num(n: int)
    | Str(s: string)
    | Arr(items: seq<Json>)
    | Obj(fields: map<string, Json>)

  /** `v == null` under loose equality: true of both `null` and `undefined`. */
  predicate IsNullish(v: Json)
  {
    v.Undefined? || v.Null?
  }

  /**
   * The property read `v.key` on a value that is neither `null` nor `undefined`
   * (reading a property of those throws a TypeError, which callers model).
   * Only own properties of objects are modelled; built-in properties of
   * strings and arrays such as `length` are never read by the client.
   */
  function Property(v: Json, key: string): Json
    requires !IsNullish(v)
  {
    if v.Obj? && key in v.fields then v.fields[key] else Undefined
  }
}
