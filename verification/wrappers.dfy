/** Failure-compatible wrappers used across the model: `Option` stands for a
    JavaScript value that may be `null`, `Result` for an operation that may
    refuse its input with a reason. */
module Wrappers {

  datatype Option<+T> = None | Some(value: T) {

    /** The value, or `default` when there is none. */
    function GetOr(default: T): T {
      match this
      case Some(v) => v
      case None => default
    }
  }

  datatype Result<+T, +E> = Ok(value: T) | Err(error: E)
}
