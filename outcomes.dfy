/** Failure-carrying wrappers shared by the modules of this model: a Python
    function that may raise becomes one returning a Result or an Outcome. */
module Outcomes {

  datatype Option<+T> = None | Some(value: T)

  datatype Result<+T, +E> = Ok(value: T) | Err(error: E)

  /** The result of a call that returns nothing useful but may raise. */
  datatype Outcome<+E> = Pass | Fail(error: E)

  function Min(a: int, b: int): int { if a <= b then a else b }
}
