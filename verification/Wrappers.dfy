/** Failure-carrying result types shared by every vendor module. */
module Wrappers {

  datatype Option<+T> = None | Some(value: T) {
    function GetOr(default: T): T {
      match this
      case Some(v) => v
      case None => default
    }
  }

  datatype Result<+R, +E> = Success(value: R) | Failure(error: E) {
    function ToOption(): Option<R> {
      match this
      case Success(v) => Some(v)
      case Failure(_) => None
    }
  }
}
