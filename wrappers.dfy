/** Option and Result, the failure-carrying values used throughout the model.
    A `Err` stands for a Rust `panic!`, `assert!` or `unwrap` failure: the
    build, analysis or chunking stops there. */
module Wrappers {

  datatype Option<+T> = None | Some(value: T)

  datatype Result<+T> = Ok(value: T) | Err(msg: string) {
    predicate IsFailure() { Err? }

    function PropagateFailure<U>(): Result<U>
      requires Err?
    {
      Err(msg)
    }

    function Extract(): T
      requires Ok?
    {
      value
    }
  }
}
