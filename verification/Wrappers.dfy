/** Option and Result, failure-compatible so that `:-` plays the part of Rust's `?`, and database errors. */
module Wrappers {
  datatype Option<+T> = None | Some(value: T)

  datatype Result<+T, +E> = Ok(value: T) | Err(error: E) {
    predicate IsFailure() {
      Err?
    }

    function PropagateFailure<U>(): Result<U, E>
      requires Err?
    {
      Err(error)
    }

    function Extract(): T
      requires Ok?
    {
      value
    }
  }

  /** Why a SQL statement failed. */
  datatype DbError = DbUnavailable | UniqueViolation | RowNotFound
}
