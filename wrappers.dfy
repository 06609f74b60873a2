/** Option and Result, used for the JavaScript values that may be missing
    (`null`, `undefined`, `NaN`) and for the operations that throw. */
module Wrappers {

  datatype Option<+T> = None | Some(value: T) {
    /** JavaScript's `x || fallback` on a value that is either present or missing. */
    function GetOr(fallback: T): T {
      match this
      case Some(v) => v
      case None => fallback
    }
  }

  datatype Result<+R, +E> = Success(value: R) | Failure(error: E)
}
