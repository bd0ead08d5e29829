/** Failure-carrying values used throughout the model: the source's nullable
    references become `Option`, and its FluentResults `Result` (one error,
    optionally caused by an exception) becomes `Result`. */
module Wrappers {

  datatype Option<+T> = None | Some(value: T) {
    /** The `??` operator of the source: this value if present, else `other`. */
    function OrElse(other: Option<T>): Option<T> {
      if Some? then this else other
    }

    function GetOr(default: T): T {
      if Some? then value else default
    }
  }

  /** The exception recorded as an error's cause (`Error.CausedBy`), or the
      type of an exception a member throws. */
  datatype Cause = NoCause | UnauthorizedAccess | InvalidOperation

  datatype Error = Error(message: string, cause: Cause)

  /** `Result.Fail(message)`: an error with no cause. */
  function Failure(message: string): Error {
    Error(message, NoCause)
  }

  datatype Result<+T> = Ok(value: T) | Fail(error: Error)

  /** The range of a C# `int`. */
  predicate IsInt32(x: int) {
    -0x8000_0000 <= x < 0x8000_0000
  }

  /** Two's-complement truncation of a C# `int` expression. */
  function Wrap32(x: int): (r: int)
    ensures IsInt32(r)
    ensures IsInt32(x) ==> r == x
    ensures (r - x) % 0x1_0000_0000 == 0
  {
    (x + 0x8000_0000) % 0x1_0000_0000 - 0x8000_0000
  }
}
