/** Option and Result, the two ways the model says "nothing" and "raised". */
module Wrappers {

  /** Python's `None` next to a value. */
  datatype Option<+T> = None | Some(value: T) {
    function GetOr(default: T): T {
      match this
      case Some(v) => v
      case None => default
    }
  }

  /** A value, or the exception the source code would raise instead. */
  datatype Result<+T, +E> = Ok(value: T) | Err(error: E)
}
