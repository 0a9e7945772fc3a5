/** Small failure-carrying datatypes shared by every module of the model. */
module Base {

  /** A value that may be missing: JavaScript's `undefined`/`null` versus a present value. */
  datatype Option<+T> = None | Some(value: T) {

    /** The carried value, or `default` when there is none. */
    function GetOr(default: T): T {
      match this
      case Some(v) => v
      case None => default
    }
  }

  /** The outcome of an operation that either produces a value or raises an error. */
  datatype Result<+T, +E> = Success(value: T) | Failure(error: E)
}
