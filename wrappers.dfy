/** Failure-compatible wrappers used throughout the model: `Option` stands
    for a Java reference that may be null, `Result` for a value or a thrown
    exception, `Outcome` for a void method that may throw. */
module Wrappers {

  datatype Option<+T> = None | Some(value: T)

  datatype Result<+R, +E> = Success(value: R) | Failure(error: E)

  datatype Outcome<+E> = Pass | Fail(error: E)
}
