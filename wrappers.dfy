/** Optional values (Java's null and Optional) and results (a value or the exception raised). */
module Wrappers {

  datatype Option<+T> = None | Some(value: T) {
    /** The value, or `default` when there is none (Optional.orElse). */
    function GetOr(default: T): T {
      match this
      case Some(v) => v
      case None => default
    }
  }

  /** A service call either returns a value or throws; `Err` carries what the exception reports. */
  datatype Result<+T, +E> = Ok(value: T) | Err(error: E)
}
