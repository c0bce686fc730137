/**
 * Values as the extension stores and exchanges them: the JSON data model that
 * `chrome.storage`, `JSON.stringify` and runtime messages carry, together with
 * JavaScript's notion of truthiness, which the source uses for most of its
 * "is it there?" tests (`if (x)`, `x || default`, `!!x`).
 */
module Values {
  import opened Wrappers

  datatype Value =
    | VNull
    | VBool(b: bool)
    | VNum(n: real)
    | VStr(s: string)
    | VArray(items: seq<Value>)
    | VObject(fields: map<string, Value>)

  /** JavaScript truthiness. `NaN` is not a value of this model. */
  predicate Truthy(v: Value) {
    match v
    case VNull => false
    case VBool(b) => b
    case VNum(n) => n != 0.0
    case VStr(s) => s != ""
    case VArray(_) => true
    case VObject(_) => true
  }

  /** Truthiness of a lookup that may give `undefined` (None). */
  predicate TruthyOpt(v: Option<Value>) {
    v.Some? && Truthy(v.value)
  }
}
