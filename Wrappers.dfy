/** Option and Result: PHP's `null` and "a value or an error" as datatypes. */
module Wrappers {

  /** A value that may be PHP `null` (or an absent JSON property). */
  datatype Option<+T> = None | Some(value: T) {
    function GetOr(default: T): T {
      match this
      case Some(v) => v
      case None => default
    }
  }

  /** A value or an error, for decoders that report failures. */
  datatype Result<+R, +E> = Success(value: R) | Failure(error: E)
}
