/** Optional values and results with an error, the two shapes the Go code
    expresses with nil pointers and (value, error) pairs. */
module Wrappers {

  /** A Go pointer field: absent (nil) or present. */
  datatype Option<+T> = None | Some(value: T) {

    /** The pointed-to value, or the given default when the pointer is nil. */
    function GetOr(default: T): T {
      match this
      case Some(v) => v
      case None => default
    }
  }

  /** A Go (value, error) return in which exactly one side is meaningful. */
  datatype Result<+T, +E> = Success(value: T) | Failure(error: E)
}
