// Optional values and error-carrying results shared by the loaders.

module Wrappers {

  datatype Option<T> = None | Some(value: T)

  datatype Result<T, E> = Success(value: T) | Failure(error: E) {
    predicate IsFailure() { Failure? }
  }
}
