/**
 * Shared value types of the Clara AI backend model.
 *
 * - Option is Python's "value or None".
 * - Outcome is what one call to an external service (an LLM, a TTS or an ASR
 *   engine) produced. The model never performs such a call: callers receive
 *   outcomes as inputs, in the order the code would make the calls.
 */
module Base {

  datatype Option<T> = None | Some(value: T) {
    function GetOr(default: T): T {
      match this
      case Some(v) => v
      case None => default
    }
  }

  /** One byte of an upload or of synthesised audio. */
  newtype Byte = b: int | 0 <= b < 256

  /** A value, or the error a route raises instead of returning one. */
  datatype Result<T, E> = Ok(value: T) | Error(error: E)

  /** How a failed call surfaced: as a RuntimeError, or as any other exception. */
  datatype Failure = RuntimeFailure | OtherFailure

  /** One call to a remote chat model: either it raised, or it returned text. */
  datatype Outcome =
    | Fail(failure: Failure)
    | Reply(content: string, model: string, latencyMs: nat)
  {
    predicate Succeeded() { Reply? }
  }

  /** The three confidence labels the summariser and the extractors accept. */
  predicate IsConfidenceLabel(s: string) {
    s == "high" || s == "medium" || s == "low"
  }
}
