/** Shared building blocks: optional values, results, the two exception types
    the domain throws, the handlers' error values, and time stamps. */
module Common {

  datatype Option<+T> = None | Some(value: T)

  datatype Result<+T, +E> = Success(value: T) | Failure(error: E)

  /** The outcome of a call that returns nothing but may throw. */
  datatype Outcome<+E> = Pass | Fail(error: E)

  /** The exceptions thrown by the domain layer. An ArgumentException may
      name the offending parameter. */
  datatype Exception =
    | ArgumentException(text: string, paramName: Option<string>)
    | InvalidOperationException(text: string)
  {
    /** The exception's Message as .NET composes it. */
    function Message(): (m: string)
      ensures ArgumentException? && paramName.None? ==> m == text
      ensures InvalidOperationException? ==> m == text
      ensures ArgumentException? && paramName.Some? ==> |m| > |text| && m[..|text|] == text
    {
      match this
      case ArgumentException(t, Some(p)) => t + " (Parameter '" + p + "')"
      case ArgumentException(t, None) => t
      case InvalidOperationException(t) => t
    }
  }

  /** The failure value a handler returns: a code and a message. */
  datatype Error = Error(code: string, message: string)

  /** A point in time, in ticks. */
  type DateTime = int

  /** A state-changing call either throws the exception its specification
      names and leaves the state as it was, or completes and reaches the
      state its specification names. */
  predicate Committed<S(==)>(spec: Result<S, Exception>, outcome: Outcome<Exception>, before: S, after: S)
  {
    match spec
    case Success(s) => outcome == Pass && after == s
    case Failure(e) => outcome == Fail(e) && after == before
  }
}
