/** JSON values as the JavaScript runtime holds them after `JSON.parse`, with their
    truthiness. Numbers are integers: the pipeline only passes them through. */
module JsonValues {
  import opened Wrappers
  import opened Objects

  datatype Json =
    | JNull
    | JBool(b: bool)
    | JNum(n: int)
    | JStr(s: string)
    | JArr(elems: seq<Json>)
    | JObj(members: Members<Json>)

  /** `!!v` in JavaScript. */
  predicate Truthy(v: Json) {
    match v
    case JNull => false
    case JBool(b) => b
    case JNum(n) => n != 0
    case JStr(s) => s != ""
    case _ => true
  }

  /** Truthiness of a field that may be `undefined`. */
  predicate Present(v: Option<Json>) {
    v.Some? && Truthy(v.value)
  }

  /** Truthiness of a text field that may be `undefined`. */
  predicate HasText(v: Option<string>) {
    v.Some? && v.value != ""
  }
}
