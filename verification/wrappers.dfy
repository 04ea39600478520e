/** Failure-carrying result types shared by the model. */
module Wrappers {

  /** A value that may be absent; stands for PHP's nullable values. */
  datatype Option<+T> = None | Some(value: T) {

    /** The wrapped value, or `default` when absent. */
    function GetOr(default: T): T {
      match this
      case Some(v) => v
      case None => default
    }
  }

  /** Either a value or an error; stands for a PHP return that may throw instead. */
  datatype Result<+R, +E> = Success(value: R) | Failure(error: E)
}
