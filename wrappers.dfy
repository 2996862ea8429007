/** Option and Result values for the places where the script either has no value
    (an absent `--majorV`) or raises an exception (a malformed marker line). */
module Wrappers {

  datatype Option<+T> = None | Some(value: T)

  datatype Result<+T, +E> = Success(value: T) | Failure(error: E)
}
