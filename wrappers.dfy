/** Failure-compatible wrappers: the patcher's exceptions become `Err` values. */
module Wrappers {

  datatype Option<+T> = None | Some(value: T)

  /** Success with a value, or a failure carrying an error; usable with `:-`. */
  datatype Result<+T, +E> = Ok(value: T) | Err(error: E) {

    predicate IsFailure() {
      Err?
    }

    function PropagateFailure<U>(): Result<U, E>
      requires Err?
    {
      Err(error)
    }

    function Extract(): T
      requires Ok?
    {
      value
    }
  }
}
