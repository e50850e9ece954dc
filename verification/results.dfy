/** Option and Result wrappers used for JavaScript `undefined` and for thrown errors. */
module Results {

  /** `None` stands for JavaScript `undefined` (a missing argument, field or body). */
  datatype Option<+T> = None | Some(value: T) {
    function GetOr(default: T): T {
      match this
      case Some(v) => v
      case None => default
    }
  }

  /** The value an operation returns, or the error it throws. */
  datatype Result<+T, +E> = Success(value: T) | Failure(error: E)
}
