/** Option and Result, the two failure-carrying shapes the model needs:
    Option for Kotlin's nullable references, Result for Kotlin's Result<V> and
    for operations that end in an exception. */
module Wrappers {

  datatype Option<+T> = None | Some(value: T)

  datatype Result<+T, +E> = Success(value: T) | Failure(error: E)
}
