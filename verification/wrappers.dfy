/** Failure-carrying datatypes shared by the model: an optional value (Go's nil
    pointer), a value-or-error result (Go's `(T, error)` pair) and a pass/fail
    outcome (Go's lone `error` return). */
module Wrappers {

  datatype Option<+T> = None | Some(value: T)

  datatype Result<+T, +E> = Ok(value: T) | Err(error: E)

  datatype Outcome<+E> = Pass | Fail(error: E)
}
