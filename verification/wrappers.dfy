/** Failure-compatible wrappers used throughout the model: `Option` stands in
    for Go's nil-able maps and error values, `Result` for a value-or-error
    return. */
module Wrappers {

  /** Some value, or nothing (Go's `nil`). */
  datatype Option<+T> = None | Some(value: T)

  /** A successful value or an error; usable with `:-`, which returns the
      error early as Go's `if err != nil { return nil, err }` does. */
  datatype Result<+R, +E> = Success(value: R) | Failure(error: E) {

    predicate IsFailure()
    {
      Failure?
    }

    function PropagateFailure<U>(): Result<U, E>
      requires Failure?
    {
      Failure(error)
    }

    function Extract(): R
      requires Success?
    {
      value
    }
  }
}
