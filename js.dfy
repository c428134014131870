/**
 * The few JavaScript value rules the client code leans on: a JSON field
 * may be absent (`undefined`), `null`, a number or a string; numbers read
 * from form fields may be NaN.
 */
module Js {
  import opened Wrappers

  /** A field of a JSON payload as the client sees it. */
  datatype JsVal = Undefined | Null | Num(n: real) | Str(s: string)

  /** A JavaScript number: finite, or NaN (what a failed conversion yields). */
  datatype Number = Finite(v: real) | NaN

  /** `typeof v === 'number' ? v : 0` */
  function NumberOrZero(v: JsVal): real
  {
    if v.Num? then v.n else 0.0
  }

  /** `x || 0` for a number that may be missing: `undefined` and `0` both give `0`. */
  function OrZero(x: Option<real>): real
  {
    if x.Some? then x.value else 0.0
  }

  /** Truthiness of a number that may be missing: present and not `0`. */
  predicate TruthyNum(x: Option<real>)
  {
    x.Some? && x.value != 0.0
  }

  /** Truthiness of a string that may be missing: present and not `""`. */
  predicate TruthyStr(x: Option<string>)
  {
    x.Some? && x.value != ""
  }

  /** `n < 1` on a JavaScript number: false for NaN, like every comparison with NaN. */
  predicate LessThanOne(n: Number)
  {
    n.Finite? && n.v < 1.0
  }
}
