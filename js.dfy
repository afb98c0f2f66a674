/** JavaScript values as the server sees them in JSON payloads, and the two
    JavaScript idioms the core relies on: `${v}` interpolation and `v || fallback`. */
module Js {

  datatype Option<+T> = None | Some(value: T)

  /** A JSON field that is expected to hold a string: a string, `null`, or
      absent (`undefined`). Other JSON kinds are not modelled. */
  datatype JsValue = Str(s: string) | Null | Undefined

  /** JavaScript truthiness restricted to `JsValue`: only a non-empty string is truthy. */
  predicate Truthy(v: JsValue) {
    v.Str? && v.s != ""
  }

  /** The text a template literal produces for `${v}`. */
  function Interpolate(v: JsValue): string {
    match v
    case Str(s) => s
    case Null => "null"
    case Undefined => "undefined"
  }

  /** The text of `${v || fallback}`: the string itself when truthy, else the fallback. */
  function OrElse(v: JsValue, fallback: string): string {
    if Truthy(v) then v.s else fallback
  }

  /** The text of `${o}` for a value that is either present or `undefined`. */
  function OrUndefined(o: Option<string>): string {
    match o
    case Some(s) => s
    case None => "undefined"
  }
}
