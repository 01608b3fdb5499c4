/** Failure-compatible result types and the Python exceptions the modelled code can raise. */
module Wrappers {

  datatype Option<+T> = None | Some(value: T)

  datatype Result<+T, +E> = Success(value: T) | Failure(error: E)

  /** A call that either completes normally or raises. */
  datatype Outcome<+E> = Pass | Fail(error: E)

  /** The exceptions raised by the modelled code paths. */
  datatype Exception =
    | KeyError      // a dict lookup, `del` or `set.remove` on an absent key
    | IndexError    // indexing past the end of an argument list
    | TypeError     // a call with the wrong arity, or bytes expected and something else given
    | StructError   // `struct.unpack` given a buffer of the wrong size or a bad format
}
