/** Failure-carrying wrappers shared by every module of the model. */
module Wrappers {

  datatype Option<+T> = None | Some(value: T)

  datatype Result<+T, +E> = Ok(value: T) | Err(error: E)

  /** The outcome of an operation that yields nothing (a Python `None` return) or fails. */
  datatype Outcome<+E> = Pass | Fail(error: E)
}

/** The Python exceptions that the modelled code raises, or lets escape, on bad input. */
module Failures {

  datatype Error =
    /** `InvalidCommandError(message)`: reported to the local user. */
    | InvalidCommand(message: string)
    /** A list index past the end (`m[3]` on a short line). */
    | IndexError
    /** `int()` of a malformed numeral, or `random.sample` asked for too many cards. */
    | ValueError
    /** An attribute read on `None` (no current game, or no deck). */
    | AttributeError
    /** `x % 0` on an empty seat list. */
    | ZeroDivisionError
}
