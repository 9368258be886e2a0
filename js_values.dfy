/** The loosely typed JSON objects that pass through the system unchanged (the
    port entries the container runtime reports, which the dashboard reads by field
    name), and JavaScript's truthiness of their field values. */
module JsValues {

  /** A field value; numbers are the whole numbers that port fields carry. */
  datatype Value = Undefined | Null | Bool(b: bool) | Num(n: int) | Str(s: string)

  /** An object as a map from field name to value; a missing field reads as
      `undefined`. */
  type Object = map<string, Value>

  /** `o.key`. */
  function Get(o: Object, key: string): Value {
    if key in o then o[key] else Undefined
  }

  /** The values an `if (...)` accepts. */
  predicate Truthy(v: Value) {
    match v
    case Undefined => false
    case Null => false
    case Bool(b) => b
    case Num(n) => n != 0
    case Str(s) => s != ""
  }
}
