/** Python values as the binomial module's checks see them. */
module Values {

  /** An argument passed to the module. `bool` is a subclass of `int` in
      Python, so a `BoolV` passes `isinstance(x, int)` and counts as 0 or 1;
      a `FloatV` is a float whatever its value, so `FloatV(4.0)` is not an
      integer; a `StrV` is neither an integer nor a number. */
  datatype Value = IntV(i: int) | BoolV(b: bool) | FloatV(x: real) | StrV(s: string)

  /** `isinstance(v, int)` */
  predicate IsInt(v: Value) {
    v.IntV? || v.BoolV?
  }

  /** The integer an `int` (or `bool`) stands for. */
  function IntOf(v: Value): int
    requires IsInt(v)
  {
    match v
    case IntV(i) => i
    case BoolV(b) => if b then 1 else 0
  }

  /** Whether arithmetic and ordered comparison with numbers accept `v`. */
  predicate IsNumber(v: Value) {
    !v.StrV?
  }

  /** The number a numeric value stands for. */
  function RealOf(v: Value): real
    requires IsNumber(v)
  {
    match v
    case FloatV(x) => x
    case IntV(i) => i as real
    case BoolV(b) => if b then 1.0 else 0.0
  }
}
