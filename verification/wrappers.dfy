/** Option and Result types shared by the whole model: Ruby's `nil` and raised exceptions. */
module Wrappers {

  /** A value that may be Ruby's `nil`. */
  datatype Option<+T> = None | Some(value: T) {

    /** The value held, or `default` for None. */
    function GetOr(default: T): T
    {
      if Some? then value else default
    }
  }

  /** A computation that either returns a value or raises an error. */
  datatype Result<+R, +E> = Success(value: R) | Failure(error: E)
}
