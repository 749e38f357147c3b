/** Option and Result values, the shapes Rust's `Option` and `Result` take in this model. */
module Wrappers {

  datatype Option<+T> = None | Some(value: T) {
    function GetOr(default: T): T {
      match this
      case Some(v) => v
      case None => default
    }
  }

  datatype Result<+R, +E> = Ok(value: R) | Err(error: E)

  /** A `Result<(), E>`: success carries nothing. */
  datatype Outcome<+E> = Pass | Fail(error: E)
}
