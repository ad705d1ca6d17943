/** Small failure-carrying datatypes shared by the order and inventory models. */
module Common {

  /** A value that may be absent: JavaScript's `undefined` / `null`. */
  datatype Option<+T> = None | Some(value: T)

  /** The outcome of an operation that either yields a value or is rejected. */
  datatype Result<+R, +E> = Success(value: R) | Failure(error: E)
}
