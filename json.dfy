/**
 * JSON values as the JavaScript core sees them: request bodies, socket
 * payloads and pushed status objects. An absent property (`undefined`) is
 * `None`; a present one is `Some` of its value, which may be `null`.
 */
module Json {
  import opened Text

  datatype Option<+T> = None | Some(value: T)

  datatype Json =
    | JNull
    | JBool(b: bool)
    | JNum(n: int)
    | JStr(s: string)
    | JArr(items: seq<Json>)
    | JObj(fields: map<string, Json>)

  /** A property read: `undefined` (None) or a JSON value. */
  type Field = Option<Json>

  /** JavaScript truthiness (`if (x)`, `!x`, `x || y`). */
  predicate Truthy(f: Field) {
    match f
    case None => false
    case Some(v) =>
      match v
      case JNull => false
      case JBool(b) => b
      case JNum(n) => n != 0
      case JStr(s) => s != ""
      case JArr(_) => true
      case JObj(_) => true
  }

  /** `undefined` or `null`, the values `??` and `?.` treat as missing. */
  predicate Nullish(f: Field) {
    f.None? || f.value == JNull
  }

  function Get(m: map<string, Json>, key: string): Field {
    if key in m then Some(m[key]) else None
  }

  /** `v?.key`: missing on a nullish receiver, and on any non-object. */
  function Prop(v: Field, key: string): Field {
    if v.Some? && v.value.JObj? then Get(v.value.fields, key) else None
  }

  /** `f || fallback`. */
  function OrElse(f: Field, fallback: Json): Json {
    if Truthy(f) then f.value else fallback
  }

  /** `f ?? fallback`. */
  function Coalesce(f: Field, fallback: Json): Json {
    if Nullish(f) then fallback else f.value
  }

  /** `String(v)` for a JSON value. */
  function JsString(v: Json): string
    decreases v
  {
    match v
    case JNull => "null"
    case JBool(b) => if b then "true" else "false"
    case JNum(n) => DecimalString(n)
    case JStr(s) => s
    case JArr(xs) =>
      Join(seq(|xs|, i requires 0 <= i < |xs| => if xs[i] == JNull then "" else JsString(xs[i])), ",")
    case JObj(_) => "[object Object]"
  }
}
