/** Option and Result, the two failure-carrying types every other module uses
    for the source's `Option<T>` and `anyhow::Result<T>`. */
module Wrappers {

  datatype Option<+T> = None | Some(value: T) {
    function GetOr(default: T): T {
      match this
      case Some(v) => v
      case None => default
    }
  }

  /** An error is carried as its message text, as `anyhow::Error` renders it. */
  datatype Result<+T> = Ok(value: T) | Err(error: string)

  /** A byte, for the source's `u8` buffers. */
  type byte = x: int | 0 <= x < 256
}
