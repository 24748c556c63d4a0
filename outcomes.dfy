/** Option and Result values standing for Python's `None` and raised exceptions. */
module Outcomes {

  datatype Option<+T> = None | Some(value: T)

  /** The exceptions the modelled code can raise, by Python class name. */
  datatype PyError = ValueError | IndexError | AttributeError

  datatype Result<+T> = Ok(value: T) | Err(error: PyError) {
    predicate IsFailure() { Err? }
    function PropagateFailure<U>(): Result<U> requires Err? { Err(error) }
    function Extract(): T requires Ok? { value }
  }

  /** How a procedure that works by side effect ended: normally, or by raising. */
  datatype Outcome = Done | Raised(error: PyError)
}
