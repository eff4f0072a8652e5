/** Optional values and success-or-error results. */
module Wrappers {

  /** `None` stands for an absent JSON key or a SQL NULL. */
  datatype Option<+T> = None | Some(value: T) {
    /** The value, or `default` when there is none (Python's `d.get(k, default)`). */
    function GetOr(default: T): T {
      match this
      case Some(v) => v
      case None => default
    }
  }

  /** The outcome of a request handler: the response payload, or the error it reports. */
  datatype Result<+T, +E> = Success(value: T) | Failure(error: E)
}
