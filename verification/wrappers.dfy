/** Option and Result, the failure-compatible wrappers used by every transition of the model. */
module Wrappers {

  /** An optional value; models Rust's `Option<T>`. */
  datatype Option<+T> = None | Some(value: T)

  /** The outcome of an instruction: either its value or the error that aborted it. */
  datatype Result<+T, +E> = Ok(value: T) | Err(error: E) {

    predicate IsFailure() {
      Err?
    }

    function PropagateFailure<U>(): Result<U, E>
      requires Err?
    {
      Err(error)
    }

    function Extract(): T
      requires Ok?
    {
      value
    }
  }
}
