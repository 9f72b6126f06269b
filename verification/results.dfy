/** The outcome of an operation that can fail: the success value or the reason it failed. */
module Results {

  datatype Result<+T, +E> = Success(value: T) | Failure(error: E)
}
