/**
 * Values as the route handlers of server.js see them in a parsed JSON request
 * body, and the two JavaScript idioms they apply to them: truthiness (`!x`)
 * and defaulting (`x || fallback`).
 */
module JsValues {

  /**
   * One string-valued field of a request body: absent (`undefined` or
   * `null`), or present with a string value, possibly empty.
   */
  datatype Field = Absent | Str(s: string)

  /** JavaScript truthiness of a field: `undefined`, `null` and `""` are falsy. */
  predicate Truthy(f: Field) {
    f.Str? && f.s != ""
  }

  /** `f || fallback`: the field's own string when it is truthy, else the fallback. */
  function Or(f: Field, fallback: string): (r: string)
    ensures r == fallback || (f.Str? && r == f.s)
    ensures Truthy(f) ==> r == f.s
    ensures r == "" ==> fallback == ""
    ensures fallback == "" ==> r == (if f.Str? then f.s else "")
  {
    if Truthy(f) then f.s else fallback
  }
}
