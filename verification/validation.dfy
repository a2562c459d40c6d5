/** The two input guards every public operation runs before any arithmetic. */
module Validation {
  import opened Errors
  import opened Values

  /** `validate_non_negative_integer`: a TypeError for anything that is not an
      `int` (an integral float such as 4.0 included), a ValueError for a
      negative `int`, and nothing otherwise. */
  function ValidateNonNegativeInteger(v: Value): (r: Outcome)
    ensures r == Pass <==> v.BoolV? || (v.IntV? && v.i >= 0)
    ensures r == Fail(TypeError) <==> v.FloatV? || v.StrV?
    ensures r == Fail(ValueError) <==> v.IntV? && v.i < 0
  {
    if !IsInt(v) then Fail(TypeError)
    else if IntOf(v) < 0 then Fail(ValueError)
    else Pass
  }

  /** `validate_less_equal(x, y)`: validates `x`, then `y`, then `x <= y`;
      the first failing check decides the error. */
  function ValidateLessEqual(x: Value, y: Value): (r: Outcome)
    ensures r == Pass <==> IsInt(x) && IsInt(y) && 0 <= IntOf(x) <= IntOf(y)
    ensures r == Fail(TypeError) <==>
              !IsInt(x) || (IntOf(x) >= 0 && !IsInt(y))
    ensures ValidateNonNegativeInteger(x).Fail? ==> r == ValidateNonNegativeInteger(x)
    ensures (ValidateNonNegativeInteger(x).Pass? && ValidateNonNegativeInteger(y).Fail?)
              ==> r == ValidateNonNegativeInteger(y)
  {
    match ValidateNonNegativeInteger(x)
    case Fail(e) => Fail(e)
    case Pass =>
      match ValidateNonNegativeInteger(y)
      case Fail(e) => Fail(e)
      case Pass =>
        if IntOf(x) > IntOf(y) then Fail(ValueError) else Pass
  }
}
