/**
 * The JavaScript values the response body decodes to, and the property read
 * `v.key` the normalizer performs on them.
 */
module Json {
  import opened Wrappers

  /**
   * A decoded JSON value. `Undefined` is what a read of an absent property
   * yields; JSON numbers are modelled as integers.
   */
  datatype JsValue =
    | Undefined
    | Null
    | Bool(b: bool)
    | Num(n: int)
    | Str(s: string)
    | Arr(elems: seq<JsValue>)
    | Obj(props: map<string, JsValue>)

  /** Reading a property of `undefined` or `null` throws a TypeError. */
  predicate Nullish(v: JsValue) {
    v.Undefined? || v.Null?
  }

  /**
   * The property read `v.key`: None when it throws a TypeError. None of the
   * keys the normalizer reads is a property of a primitive or an array, so
   * those read as `undefined`.
   */
  function Get(v: JsValue, key: string): Option<JsValue> {
    match v
    case Undefined => None
    case Null => None
    case Obj(props) => Some(if key in props then props[key] else Undefined)
    case _ => Some(Undefined)
  }
}
