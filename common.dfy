/** Shared value types: optional values, results of fallible calls, and what
    a `catch` clause receives. */
module Common {

  datatype Option<+T> = None | Some(value: T)

  datatype Result<+T, +E> = Ok(value: T) | Err(error: E)

  /** What a `catch (err)` receives: an `Error` object with its message, or
      any other thrown value. */
  datatype Thrown = ErrorObject(message: string) | OtherValue

  /** JavaScript truthiness of a `string | null`: null and "" are falsy. */
  predicate Truthy(s: Option<string>)
  {
    s.Some? && s.value != ""
  }

  /** `err instanceof Error ? err.message : fallback` */
  function MessageOr(err: Thrown, fallback: string): (m: string)
    ensures err.OtherValue? ==> m == fallback
    ensures err.ErrorObject? ==> m == err.message
  {
    match err
    case ErrorObject(msg) => msg
    case OtherValue => fallback
  }
}
