/**
 * JavaScript and Firestore values as the modelled code sees them.
 *
 * A document (a Firestore document, a request body, a plain object literal)
 * is a map from property names to values; a property that is not in the map
 * reads as `undefined`.
 */
module JsValue {

  datatype Option<+T> = None | Some(value: T)

  datatype Value =
    | Undefined
    | Null
    | Bool(b: bool)
    | Num(n: int)
    | Str(s: string)
    | Obj(fields: map<string, Value>)
    /** the sentinel returned by `FieldValue.serverTimestamp()` */
    | ServerTimestamp
    /** a concrete instant, as returned by `Timestamp.now()` */
    | Timestamp(millis: int)

  type Doc = map<string, Value>

  /** JavaScript truthiness: `undefined`, `null`, `false`, `0` and `""` are falsy. */
  predicate Truthy(v: Value) {
    match v
    case Undefined => false
    case Null => false
    case Bool(b) => b
    case Num(n) => n != 0
    case Str(s) => s != ""
    case _ => true
  }

  /** `a || b` */
  function Or(a: Value, b: Value): Value {
    if Truthy(a) then a else b
  }

  /** `d.k` on a plain object: an absent property reads as `undefined`. */
  function Get(d: Doc, k: string): Value {
    if k in d then d[k] else Undefined
  }

  /**
   * `v.k` on a value that is neither `null` nor `undefined`: only objects
   * carry the properties modelled here; a string, number or boolean has none.
   */
  function Prop(v: Value, k: string): Value {
    if v.Obj? then Get(v.fields, k) else Undefined
  }

  /** A destructuring default: `{ x = dflt }` replaces only `undefined`. */
  function WithDefault(v: Value, dflt: Value): Value {
    if v.Undefined? then dflt else v
  }

  /** An HTTP response: a status code and a JSON body. */
  datatype Response = Response(status: int, body: Doc)
}
