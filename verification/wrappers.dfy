/** Option and Result, the two failure-carrying shapes the scripts need. */
module Wrappers {

  datatype Option<+T> = None | Some(value: T) {
    function GetOr(default: T): T {
      match this
      case Some(v) => v
      case None => default
    }
  }

  /** Success or the Python exception that the script lets propagate. */
  datatype Result<+R, +E> = Success(value: R) | Failure(error: E)
}
