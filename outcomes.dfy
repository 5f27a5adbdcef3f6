/**
  Result types shared by the whole model.

  The service reports failures in two ways: as a returned error value
  (`Result::Err` in the service) and by panicking (`panic!`, `unwrap`,
  `expect`).  Both are kept apart here so that the contracts can say which
  of the two an input leads to.
 */
module Outcomes {

  datatype Option<+T> = None | Some(value: T)

  /** A value or an error that the code returns to its caller. */
  datatype Result<+T, +E> = Ok(value: T) | Err(error: E)

  /** Like `Result`, plus the case where the code panics instead of returning. */
  datatype Outcome<+T, +E> = Success(value: T) | Failure(error: E) | Panic(message: string)

  /** The panic message of `unwrap` on a `None` value. */
  const UnwrapNone: string := "called `Option::unwrap()` on a `None` value"
}
