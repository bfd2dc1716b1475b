/** Optional values and success/failure results, used for fields a document
    may leave out and for the outcome of schema validation. */
module Wrappers {

  /** A value that may be absent (an unset document field). */
  datatype Option<+T> = None | Some(value: T) {

    /** The value, or `default` when it is absent. */
    function GetOr(default: T): T {
      match this
      case Some(v) => v
      case None => default
    }
  }

  /** Either an accepted value or the reason it was refused. */
  datatype Result<+R, +E> = Ok(value: R) | Err(error: E)
}
