/** Failure-carrying values shared by every module of the model: Python's
    `None`-or-value results and raised exceptions become `Option` and `Result`. */
module Wrappers {

  /** A value that may be absent (Python's `None`). */
  datatype Option<+T> = None | Some(value: T) {

    /** The value, or `default` when absent (Python's `d.get(k, default)`). */
    function GetOr(default: T): T {
      match this
      case Some(v) => v
      case None => default
    }
  }

  /** Either a normal result or an error, for code paths that raise. */
  datatype Result<+R, +E> = Ok(value: R) | Err(error: E)
}
