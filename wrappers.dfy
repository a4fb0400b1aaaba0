/** Option and Result, the two shapes the dashboard's code uses for
    "maybe absent" (`undefined`/`null`) and "resolved or threw". */
module Wrappers {

  datatype Option<+T> = None | Some(value: T) {
    function GetOr(default: T): T {
      match this
      case Some(v) => v
      case None => default
    }
  }

  datatype Result<+R, +E> = Success(value: R) | Failure(error: E)
}
