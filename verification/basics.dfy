/**
  Small shared vocabulary: an optional value, and the scalar values that
  travel through request parameters, stored entity fields and defaults.
 */
module Basics {

  /** Python's `Optional[T]`: `None` or a present value. */
  datatype Option<+T> = None | Some(value: T)
  {
    function GetOr(default: T): T
    {
      match this
      case Some(v) => v
      case None => default
    }
  }

  /** A scalar field or parameter value; `Null` is Python's `None`. */
  datatype Scalar = Null | Bool(b: bool) | Int(i: int) | Str(s: string)
}
