/** The outcome of an operation that the original raises an exception from. */
module Results {

  /** Either the value the operation returns or the error it raises. */
  datatype Result<+T, +E> = Success(value: T) | Failure(error: E)
}
