/** Failure-carrying values shared by the scanners and the parser.

    Every `throw` of the C++ front end becomes an `Error` value. The front end
    catches `runtime_error` in `main` and reports it; the exceptions raised by
    `stoul` are of another family and end the process instead, and a few
    paths read undefined or uninitialised values, which the model does not
    predict. The three variants keep these cases apart. */
module Outcomes {

  datatype Option<+T> = None | Some(value: T)

  /** A `(kind, lexeme)` pair: a line the scanners print and the parser reads. */
  datatype Token = Token(kind: string, lexeme: string)

  datatype Error =
    | Runtime(msg: string)      // a runtime_error: main prints "ERROR: " + msg and exits with 1
    | Uncaught(what: string)    // std::invalid_argument / std::out_of_range from stoul: not caught
    | Unmodelled(what: string)  // undefined behaviour or a stream shape the model does not cover

  datatype Result<+T> = Ok(value: T) | Err(error: Error) {
    predicate IsFailure() { Err? }

    function PropagateFailure<U>(): Result<U>
      requires Err?
    {
      Err(error)
    }

    function Extract(): T
      requires Ok?
    {
      value
    }
  }

  /** The result of an operation that only succeeds or fails (a `void` C++ function). */
  datatype Outcome = Pass | Fail(error: Error) {
    predicate IsFailure() { Fail? }

    function PropagateFailure(): Outcome
      requires Fail?
    {
      this
    }
  }
}
