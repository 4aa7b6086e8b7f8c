/** The JavaScript values the library's helpers receive as `any`. */
module JsValues {

  /** A JavaScript value, by the `typeof` case the helpers switch on.
      `Instance` is any other object: `tag` is what
      `Object.prototype.toString` reports between "[object " and "]", and
      `text` is what its own `toString()` returns. `Opaque` stands for
      functions, symbols and bigints. */
  datatype JsValue =
    | Undefined
    | Null
    | Bool(b: bool)
    | Num(n: real)
    | NonFinite        // NaN, Infinity or -Infinity: `typeof` is "number"
    | Str(s: string)
    | Arr(items: seq<JsValue>)
    | Obj(fields: seq<(string, JsValue)>)
    | Instance(tag: string, text: string)
    | Opaque

  /** `value === null || value === undefined` */
  predicate IsNullish(v: JsValue) {
    v.Undefined? || v.Null?
  }

  /** lodash `_.isFinite`: a primitive number that is neither NaN nor infinite. */
  predicate IsFiniteNumber(v: JsValue) {
    v.Num?
  }
}
