/** Option and Result, the two failure-carrying wrappers used throughout the model:
    `Option` for the `T | undefined` results of the source, `Result` for thrown errors. */
module Wrappers {

  datatype Option<+T> = None | Some(value: T) {
    function GetOr(default: T): T {
      match this
      case Some(v) => v
      case None => default
    }
  }

  datatype Result<+T> = Ok(value: T) | Err(error: string)
}
