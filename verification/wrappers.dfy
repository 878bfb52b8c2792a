/** Optional values and the outcome of a step that may throw. */
module Wrappers {

  /** A value that may be absent, as an omitted key of an options object. */
  datatype Option<T> = None | Some(value: T) {
    function GetOr(default: T): T {
      match this
      case Some(v) => v
      case None => default
    }
  }

  /** A value, or the message of the error that was thrown instead. */
  datatype Result<T> = Ok(value: T) | Thrown(message: string)
}
