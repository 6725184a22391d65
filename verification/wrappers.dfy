/** Optional values, standing for Python's `None` in the modelled code, and
    outcomes that may be an exception. */
module Wrappers {

  datatype Option<+T> = None | Some(value: T) {

    /** The value, or `default` when there is none (Python's `x or default`
        for values that are never falsy). */
    function GetOr(default: T): T {
      match this
      case Some(v) => v
      case None => default
    }
  }

  /** The value computed, or the exception the source raises instead. */
  datatype Result<+T> = Success(value: T) | Failure(error: string)
}
