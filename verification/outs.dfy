/**
 * The value-or-error result a call finishes with (`Out` in Call.swift), the error
 * record it carries, and the two well-known error kinds of the call framework.
 */
module Outs {
  import opened Options

  /** An `NSError` as the framework builds it: domain, code and localized description. */
  datatype ErrorInfo = ErrorInfo(domain: string, code: int, description: string)

  /**
   * The `Any` payload of a successful result, restricted to the shapes the core
   * produces or passes through: text, a number, or the per-key results a group joins.
   */
  datatype Value = Text(text: string) | Number(number: int) | Joined(outs: map<string, Out>)

  /**
   * `Out` has two public optional fields; the two initialisers set exactly one of them.
   * `HasValue` looks only at the error field.
   */
  datatype Out = Out(value: Option<Value>, error: Option<ErrorInfo>) {

    /** `hasValue()`: false exactly when an error is set. */
    predicate HasValue() {
      error.None?
    }
  }

  /** `Out(value:)` */
  function OfValue(v: Value): (o: Out)
    ensures o.HasValue() && o.value == Some(v)
  {
    Out(Some(v), None)
  }

  /** `Out(error:)` */
  function OfError(e: ErrorInfo): (o: Out)
    ensures !o.HasValue() && o.error == Some(e) && o.value.None?
  {
    Out(None, Some(e))
  }

  const CallTimeoutErrorDomain: string := "Time out"
  const CallTimeoutErrorCode: int := -100001
  const CallNilCallErrorDomain: string := "Nil call"
  const CallNilCallErrorCode: int := -200001

  /** The error a timed-out call finishes with (`TimeoutCall.error()`). */
  function TimeoutError(): (e: ErrorInfo)
    ensures e.domain == CallTimeoutErrorDomain && e.code == CallTimeoutErrorCode
  {
    ErrorInfo(CallTimeoutErrorDomain, CallTimeoutErrorCode, "Call time out")
  }

  /** The result a timed-out call finishes with: an error result carrying `TimeoutError()`. */
  function TimeoutOut(): (o: Out)
    ensures !o.HasValue() && o.error == Some(TimeoutError())
  {
    OfError(TimeoutError())
  }
}
