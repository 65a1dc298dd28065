/** Option and Result, used wherever the C++ code either yields a value or
    aborts (an exception, a failed `assert`, a fatal log line). */
module Wrappers {

  datatype Option<+T> = None | Some(value: T)

  datatype Result<+R, +E> = Success(value: R) | Failure(error: E)
}
