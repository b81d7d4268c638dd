/** The JavaScript values that the modelled code inspects, and JavaScript truthiness. */
module JsValue {

  /** A JavaScript value. Numbers are integers here (NaN and fractions are not modelled);
      `Obj` lists an object's own enumerable properties in `Object.entries` order. */
  datatype Value =
    | Undefined
    | Null
    | Bool(b: bool)
    | Num(n: int)
    | Str(s: string)
    | Arr(items: seq<Value>)
    | Obj(entries: seq<(string, Value)>)

  /** What `if (v)`, `!v` and `v || d` test. */
  predicate Truthy(v: Value) {
    match v
    case Undefined => false
    case Null => false
    case Bool(b) => b
    case Num(n) => n != 0
    case Str(s) => s != ""
    case Arr(_) => true
    case Obj(_) => true
  }
}
