/** Failure values of the interpreter. Every failure in the modelled code is a
    panic, an `unwrap` of a missing value or an index out of range; none is
    recovered from, so each is carried outward unchanged. */
module Errors {

  datatype Error =
    | UnboundName        // a name with no binding in the current frame
    | InvalidLocation    // a heap index beyond the end of the heap
    | TypeMismatch       // an operator or pointer use on a value of the wrong shape
    | NotAnLValue        // an expression other than a variable or a dereference used as a target
    | IndexOutOfRange    // a projection index outside the tuple or vector, or a missing parameter
    | DivisionByZero     // integer division by zero
    | UnknownFunction    // a function name with no declaration
    | NoMainFunction     // a module without a function named "main"
    | Unimplemented      // a path the interpreter leaves as `todo!`

  datatype Result<+T> = Ok(value: T) | Err(error: Error) {
    predicate IsFailure() { Err? }

    function PropagateFailure<U>(): Result<U>
      requires Err?
    {
      Err(error)
    }

    function Extract(): T
      requires Ok?
    {
      value
    }
  }

  /** The outcome of running a statement: it completes, or it fails. */
  datatype Outcome = Pass | Fail(error: Error)
}
