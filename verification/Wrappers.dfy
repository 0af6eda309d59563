/** Options and results shared by every component of the model. */
module Wrappers {

  datatype Option<+T> = None | Some(value: T)

  /** A value, or the error that stands for a raised exception. */
  datatype Result<+T, +E> = Ok(value: T) | Err(error: E) {

    predicate IsFailure() {
      Err?
    }

    function PropagateFailure<U>(): Result<U, E>
      requires Err?
    {
      Err(error)
    }

    function Extract(): T
      requires Ok?
    {
      value
    }
  }
}
