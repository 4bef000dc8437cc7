/** Failure-compatible wrappers used to turn the reader's "try a path, catch the
    exception" steps into explicit values. */
module Results {

  /** A value that may be absent: the outcome of probing a path that may not exist. */
  datatype Option<+T> = None | Some(value: T)

  /** Either a decoded value or the error that aborts the whole decode. */
  datatype Result<+T, +E> = Success(value: T) | Failure(error: E) {

    predicate IsFailure() {
      Failure?
    }

    function PropagateFailure<U>(): Result<U, E>
      requires Failure?
    {
      Failure(error)
    }

    function Extract(): T
      requires Success?
    {
      value
    }
  }
}
