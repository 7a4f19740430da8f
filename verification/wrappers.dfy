/** Optional values (JavaScript `undefined`) and success/failure outcomes. */
module Wrappers {

  /** `None` stands for an absent (`undefined`) field. */
  datatype Option<+T> = None | Some(value: T) {

    /** The value, or `default` when absent (JavaScript `x ?? default`). */
    function GetOr(default: T): T {
      match this
      case Some(v) => v
      case None => default
    }
  }

  /** The result of an operation that may reject. */
  datatype Result<+R, +E> = Success(value: R) | Failure(error: E)

  /** The result of an operation that returns nothing but may reject. */
  datatype Outcome<+E> = Pass | Fail(error: E)
}
