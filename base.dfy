/** Failure-carrying result types and the Java exceptions the core can raise. */
module Base {

  /** The exceptions thrown by the modelled code, by kind. */
  datatype Exception =
    | SmartScriptParserException(message: string)
    | IllegalArgumentException
    | IndexOutOfBoundsException
    | EmptyStackException
    | NumberFormatException
    | ArithmeticException
    | NullPointerException
    | ClassCastException
    | RuntimeException(message: string)
    /** A SmartScriptParserException whose message is the message of `cause`. */
    | ParserExceptionFrom(cause: Exception)

  datatype Option<+T> = None | Some(value: T) {
    function GetOr(default: T): T {
      if Some? then value else default
    }
  }

  datatype Result<+T> = Ok(value: T) | Err(error: Exception) {
    predicate IsFailure() { Err? }
    function PropagateFailure<U>(): Result<U>
      requires Err?
    {
      Err(error)
    }
    function Extract(): T
      requires Ok?
    {
      value
    }
    function GetOr(default: T): T {
      if Ok? then value else default
    }
  }

  /** The outcome of a call that returns nothing (Java `void`). */
  datatype Outcome = Pass | Fail(error: Exception) {
    predicate IsFailure() { Fail? }
    function PropagateFailure(): Outcome
      requires Fail?
    {
      this
    }
  }
}
