/** The dynamically typed values that flow from the vendor API into device
    capabilities, with JavaScript's truthiness and nullish-coalescing rules.
    NaN is not represented. */
module Values {
  import opened Wrappers

  datatype Value = Undefined | Null | Bool(b: bool) | Num(n: real) | Str(s: string)

  /** JavaScript ToBoolean: `undefined`, `null`, `false`, `0` and `""` are falsy. */
  predicate Truthy(v: Value) {
    match v
    case Undefined => false
    case Null => false
    case Bool(b) => b
    case Num(n) => n != 0.0
    case Str(s) => s != ""
  }

  predicate Nullish(v: Value) {
    v.Undefined? || v.Null?
  }

  /** `a ?? b` */
  function Coalesce(a: Value, b: Value): Value {
    if Nullish(a) then b else a
  }

  /** `!v` */
  function Not(v: Value): Value {
    Bool(!Truthy(v))
  }

  /** An optional numeric field read from a response: absent reads as `undefined`. */
  function OfNum(o: Option<real>): Value {
    match o
    case None => Undefined
    case Some(x) => Num(x)
  }

  function OfBool(o: Option<bool>): Value {
    match o
    case None => Undefined
    case Some(x) => Bool(x)
  }

  function OfStr(o: Option<string>): Value {
    match o
    case None => Undefined
    case Some(x) => Str(x)
  }
}
