/** The exceptions the domain layer throws, as values. */
module Exceptions {

  /** The message an exception carries: either explicit text or one of the default texts. */
  datatype Message =
    | Text(text: string)
    | MustNotBeNullOrEmpty(paramName: string)
    | MustNotBeNull(paramName: string)
    | MustBeGreaterThanZero(paramName: string)
    | MustBeYearBetween(paramName: string, first: int, last: int)
    | MustNotBeNegative(paramName: string)
    | NameRequiredBeforeBuild
    | FrameworkDefault

  datatype Error =
    | ArgumentNull(paramName: string, message: Message)
    | ArgumentOutOfRange(paramName: string, message: Message)
    | Argument(paramName: string, message: Message)
    | InvalidOperation(message: Message)
    | CannotChangeStatusOfADeletedEntity

  /** A `void` call: it returns normally or throws. */
  datatype Outcome = Pass | Fail(error: Error)

  /** A call that returns a value or throws. */
  datatype Result<+T> = Success(value: T) | Failure(error: Error)
}
