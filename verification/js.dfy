/** The few JavaScript value conventions the coordination server relies on:
    `undefined`, truthiness of strings, `a || b`, and the coercion of a value
    to a string when it is used as a property key or inside a template string. */
module Js {

  /** A possibly-`undefined` value: `None` is `undefined`. */
  datatype Option<+T> = None | Some(value: T)

  /** JavaScript truthiness of a possibly-undefined string: `undefined` and
      the empty string are falsy, every other string is truthy. */
  predicate Truthy(v: Option<string>) {
    v.Some? && v.value != ""
  }

  /** `v || fallback` for a possibly-undefined string. */
  function OrElse(v: Option<string>, fallback: string): (r: string)
    ensures r == fallback || (v.Some? && r == v.value)
    ensures r == "" ==> fallback == ""
  {
    if Truthy(v) then v.value else fallback
  }

  /** `String(v)`: the string a value turns into when it indexes an object
      (`obj[v]`) or is interpolated into a template literal (`${v}`). */
  function ToJsString(v: Option<string>): (r: string)
    ensures v.Some? ==> r == v.value
    ensures v.None? ==> r == "undefined"
  {
    match v
    case Some(s) => s
    case None => "undefined"
  }
}
