/** The small failure-carrying datatypes the model uses. */
module Wrappers {

  /** A value that may be absent, as Kotlin's nullable types are. */
  datatype Option<+T> = None | Some(value: T) {

    /** The carried value, or `default` when there is none (Kotlin's `?:`). */
    function GetOr(default: T): (r: T)
      ensures Some? ==> r == value
      ensures None? ==> r == default
    {
      match this
      case Some(v) => v
      case None => default
    }
  }

  /** The one exception the key handler can raise: `String.toDouble()` on a
      text that is not a number. */
  datatype Error = NumberFormat(text: string)

  /** Either the new value or the exception that escaped the handler. */
  datatype Outcome<+T> = Ok(value: T) | Err(error: Error)
}
