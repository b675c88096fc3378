/** Failure-carrying result type shared by the extractor and the pipeline. */
module Wrappers {

  /** Either a value or the error that stopped the computation. */
  datatype Result<+T, +E> = Ok(value: T) | Err(error: E) {
    /** The failure test behind `:-`. */
    predicate IsFailure() {
      Err?
    }

    /** The same error, carried to a result of another value type. */
    function PropagateFailure<U>(): Result<U, E>
      requires Err?
    {
      Err(error)
    }

    /** The value of a success. */
    function Extract(): T
      requires Ok?
    {
      value
    }
  }

  datatype Option<+T> = None | Some(value: T)
}
