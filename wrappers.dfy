/** Failure-compatible wrappers shared by the whole model, and the errors the handler raises. */
module Wrappers {

  /** An optional value; for slot values `None` is Python's `None`. */
  datatype Option<+T> = None | Some(value: T) {
    predicate IsFailure() { None? }

    function PropagateFailure<U>(): Option<U>
      requires None?
    {
      None
    }

    function Extract(): T
      requires Some?
    {
      value
    }
  }

  /** The exceptions the handler can raise, as values. */
  datatype Error =
    | UnknownRiskLevel(key: string)      // KeyError from the risk table lookup
    | MissingRiskLevel                   // AttributeError: `None.lower()` at fulfilment
    | UnsupportedIntent(message: string) // the Exception raised by the dispatcher

  datatype Result<+R> = Success(value: R) | Failure(error: Error) {
    predicate IsFailure() { Failure? }

    function PropagateFailure<U>(): Result<U>
      requires Failure?
    {
      Failure(error)
    }

    function Extract(): R
      requires Success?
    {
      value
    }
  }
}
