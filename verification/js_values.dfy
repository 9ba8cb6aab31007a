/**
 * Dynamic JavaScript values as they come out of `chrome.storage` or `JSON.parse`.
 * Numbers are finite reals. Neither source yields NaN; `JSON.parse` can yield
 * an infinity (for `1e400`) or `-0`, which this model does not represent.
 */
module JsValues {

  datatype JsValue =
    | Undefined
    | Null
    | Bool(b: bool)
    | Num(n: real)
    | Str(s: string)
    | Arr(items: seq<JsValue>)
    | Obj(fields: map<string, JsValue>)

  /** `!!v`: JavaScript truthiness. */
  predicate Truthy(v: JsValue) {
    match v
    case Undefined => false
    case Null => false
    case Bool(b) => b
    case Num(n) => n != 0.0
    case Str(s) => s != ""
    case Arr(_) => true
    case Obj(_) => true
  }

  /** `obj[key]` on a plain object: a missing property reads as `undefined`. */
  function Field(fields: map<string, JsValue>, key: string): (v: JsValue)
    ensures key !in fields ==> v == Undefined
    ensures key in fields ==> v == fields[key]
  {
    if key in fields then fields[key] else Undefined
  }

  /** The outcome of a JavaScript expression that may throw. */
  datatype Thrown<T> = Returned(value: T) | Threw

  /**
   * Whether `String(v)` throws. Values from `JSON.parse` and the storage area
   * hold no functions, so an object with an own `toString` property has no
   * callable `toString`, and the `valueOf` it falls back to returns the object
   * itself: the conversion throws a TypeError. An object without that property
   * converts through `Object.prototype.toString`. An array converts through
   * `join`, which converts every element other than null and undefined.
   */
  predicate StringThrows(v: JsValue) {
    match v
    case Obj(fields) => "toString" in fields
    case Arr(items) => exists i :: 0 <= i < |items| && StringThrows(items[i])
    case _ => false
  }

  /** The JSON array of strings that a `string[]` is stored as. */
  function StrArray(xs: seq<string>): (v: JsValue)
    ensures v.Arr? && |v.items| == |xs|
    ensures forall i :: 0 <= i < |xs| ==> v.items[i] == Str(xs[i])
  {
    Arr(seq(|xs|, i requires 0 <= i < |xs| => Str(xs[i])))
  }
}
