/** Optional values (Python's `None`) and results that may carry an error. */
module Wrappers {
  datatype Option<T> = None | Some(value: T) {
    /** `d.get(key, default)`-style fallback. */
    function GetOr(default: T): T {
      match this
      case None => default
      case Some(v) => v
    }
  }

  /** A value, or the error the source raises or returns instead. */
  datatype Result<T, E> = Ok(value: T) | Err(error: E)
}
