// Small helper datatypes shared by the modules of this project.
module Wrappers {
  /** An optional value (Rust `Option<T>`, Python `None`-or-value). */
  datatype Option<T> = None | Some(value: T)

  /**
   * The outcome of an operation that can fail with an error of type `E`;
   * `:-` on it propagates the error like Rust's `?`.
   */
  datatype Result<T, E> = Ok(value: T) | Err(error: E)
  {
    predicate IsFailure() { Err? }

    function PropagateFailure<U>(): Result<U, E>
      requires Err?
    {
      Err(error)
    }

    function Extract(): T
      requires Ok?
    {
      value
    }
  }
}
