/** Failure-compatible wrapper types shared by the model: `Option` stands for
    a value that may be `null`/`undefined`, `Result` for an operation that
    either returns a value or throws, `Outcome` for one that returns nothing
    or throws. */
module Wrappers {

  datatype Option<+T> = None | Some(value: T) {
    function GetOr(default: T): T {
      match this
      case Some(v) => v
      case None => default
    }
  }

  datatype Result<+R, +E> = Ok(value: R) | Err(error: E)

  datatype Outcome<+E> = Pass | Fail(error: E)
}
