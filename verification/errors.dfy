/**
  How a JavaScript call ends: it returns a value or throws. Thrown values
  are plain `Error`s, RPC errors (which are `Error`s too, carrying a code),
  or anything else a callee may throw.
 */
module Errors {

  /** The RPC error codes the post procedures raise. */
  datatype Code = Unauthorized | NotFound | Forbidden

  datatype Failure =
    | PlainError(message: string)
    | RpcError(code: Code, message: string)
    | NotAnError

  /** `error instanceof Error`: an RPC error is a subclass of `Error`. */
  predicate IsError(f: Failure)
  {
    !f.NotAnError?
  }

  /** The message of an `Error` (meaningless for other thrown values). */
  function Message(f: Failure): string
  {
    match f
    case PlainError(m) => m
    case RpcError(_, m) => m
    case NotAnError => []
  }

  datatype Outcome<+T> = Returned(value: T) | Threw(failure: Failure)
}
