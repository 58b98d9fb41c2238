/** The JSON values stored in free-form columns (`delivery_receipt`) and received in
    request bodies. An object is a map from key to value; JavaScript's object spread
    `{...a, ...b}` is the right-biased map union `a + b`. */
module Json {
  import opened Text

  datatype Value =
    | Null
    | Bool(b: bool)
    | Num(n: int)
    | Fractional          // a finite number with a non-zero fractional part
    | Str(s: string)
    | Arr(items: seq<Value>)
    | Obj(fields: map<string, Value>)

  type Object = map<string, Value>

  /** JavaScript truthiness; `undefined` is the absent key. */
  predicate Truthy(v: Value) {
    match v
    case Null => false
    case Bool(b) => b
    case Num(n) => n != 0
    case Fractional => true
    case Str(s) => s != ""
    case Arr(_) => true
    case Obj(_) => true
  }

  /** `o.k` for a key that may be absent. */
  function Get(o: Object, k: string): Option<Value> {
    if k in o then Some(o[k]) else None
  }

  /** `o.k` used as a condition: absent or falsy values are false. */
  predicate Present(o: Object, k: string) {
    k in o && Truthy(o[k])
  }

  /** `o.k = src.k`: an `undefined` right-hand side leaves no key behind once stored. */
  function CopyField(o: Object, k: string, src: Object): Object {
    if k in src then o[k := src[k]] else o - {k}
  }
}
