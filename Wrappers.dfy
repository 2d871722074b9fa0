/** Option and Result, the model's stand-ins for C# null and for thrown exceptions. */
module Wrappers {

  datatype Option<+T> = None | Some(value: T) {
    function GetOr(default: T): T {
      match this
      case Some(v) => v
      case None => default
    }
  }

  /** The exceptions the modelled code can raise. */
  datatype Error =
    | ArgumentNull(param: string)       // ArgumentNullException
    | NullReference                     // NullReferenceException
    | IndexOutOfRange                   // IndexOutOfRangeException
    | BadArgument                       // ArgumentException / FormatException / OverflowException

  datatype Result<+R> = Ok(value: R) | Fail(error: Error)
}
