/** Option and Result, the two wrappers the model uses for Python's `None`
    results and for exceptions that end a step. */
module Wrappers {

  datatype Option<+T> = None | Some(value: T)

  datatype Result<+R, +E> = Success(value: R) | Failure(error: E)
}
