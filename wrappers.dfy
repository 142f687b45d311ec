/** Option and Result, used wherever the planner either has a value or does not. */
module Wrappers {

  datatype Option<+T> = None | Some(value: T) {
    /** Python's `dict.get(key, default)` once the lookup has been made. */
    function GetOr(default: T): T {
      match this
      case Some(v) => v
      case None => default
    }
  }

  /** A stage either succeeds or raises; the error is carried as data. */
  datatype Result<+T, +E> = Ok(value: T) | Err(error: E)
}
