/**
 * The JavaScript values a request body carries, and the coercions the route
 * handlers apply to them: `!x` on required fields, `x || null` on optional
 * ones, `x ? 1 : 0` on flags. A text field of the body is an
 * `Option<string>` (None for a missing or null field).
 */
module Js {
  import opened Wrappers

  /** `!x` on a text field: missing, null or the empty string. */
  predicate Falsy(x: Option<string>) {
    x.None? || x.value == ""
  }

  /** `x || null`: the field itself when it is truthy, SQL NULL otherwise. */
  function OrNull(x: Option<string>): (r: Option<string>)
    ensures r.Some? <==> !Falsy(x)
    ensures r.Some? ==> r == x
  {
    if Falsy(x) then None else x
  }

  /** `x || null` on a numeric field: 0 is falsy. */
  function OrNullInt(x: Option<int>): (r: Option<int>)
    ensures r.Some? <==> x.Some? && x.value != 0
    ensures r.Some? ==> r == x
  {
    if x.None? || x.value == 0 then None else x
  }

  /** The scalar JSON values a handler reads (NaN and fractional numbers are not modelled). */
  datatype JsValue = Undefined | Null | Bool(b: bool) | Number(n: int) | Text(s: string)

  predicate Truthy(v: JsValue) {
    match v
    case Undefined => false
    case Null => false
    case Bool(b) => b
    case Number(n) => n != 0
    case Text(s) => s != ""
  }

  /** `v ? 1 : 0`: the integer flag SQLite stores for a boolean. */
  function Flag(v: JsValue): (f: int)
    ensures f == 0 || f == 1
    ensures f == 1 <==> Truthy(v)
  {
    if Truthy(v) then 1 else 0
  }
}
