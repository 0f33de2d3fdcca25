/** The `T | null` / `T | undefined` of the TypeScript sources. */
module Wrappers {

  datatype Option<+T> = None | Some(value: T) {

    /** The value, or `default` when there is none (TypeScript's `x ?? default`). */
    function GetOr(default: T): T {
      match this
      case Some(v) => v
      case None => default
    }
  }

  /** The outcome of a guard chain or of a remote call: a value, or the reason it was refused. */
  datatype Result<+T, +E> = Success(value: T) | Failure(error: E)

  /** What a `catch (err)` receives: an `Error` with its message, or any other thrown value. */
  datatype Thrown = ThrownError(message: string) | ThrownValue {

    /** `err instanceof Error ? err.message : fallback`. */
    function MessageOr(fallback: string): string {
      match this
      case ThrownError(m) => m
      case ThrownValue => fallback
    }
  }

  /** How an awaited remote call settles: resolved with a value, or rejected. */
  datatype Settled<+T> = Resolved(value: T) | Rejected(reason: Thrown)
}
