/** Option and Result: absent values (a C# null) and operations that either
    produce a value or raise an exception. */
module Wrappers {

  datatype Option<+T> = None | Some(value: T)

  datatype Result<+T, +E> = Success(value: T) | Failure(error: E)
}
