/** Small value wrappers used across the model: an optional value (a nullable
    reference or a missing dictionary entry in the program), a result that is
    either a value or an error, and an outcome that is either success or an
    error. */
module Wrappers {

  datatype Option<+T> = None | Some(value: T)

  datatype Result<+T, +E> = Ok(value: T) | Err(error: E)

  datatype Outcome<+E> = Pass | Fail(error: E)
}
