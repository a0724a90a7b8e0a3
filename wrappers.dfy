/** Option and Result datatypes shared by the outline model. */
module Wrappers {

  /** A value that may be absent (a missing dictionary key, an empty search). */
  datatype Option<+T> = None | Some(value: T) {
    function GetOr(default: T): T {
      match this
      case Some(v) => v
      case None => default
    }
  }

  /** The outcome of a Python call that either returns a value or raises. */
  datatype Result<+T> = Ok(value: T) | Raised(error: string)
}
