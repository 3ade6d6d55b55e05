/** Shared value types: an optional value (Kotlin's nullable types), the exception
    value that repository code captures, and the three-way ResultWrapper envelope
    that every repository and view-model operation reports through. */
module Wrappers {

  /** A Kotlin `T?`: either absent (null) or present. */
  datatype Option<+T> = None | Some(value: T) {
    function GetOr(default: T): T {
      match this
      case Some(v) => v
      case None => default
    }
  }

  /** A captured `Exception`; only its (nullable) message is observable here. */
  datatype Exception = Exception(message: Option<string>)

  /** An exception built with an explicit message, as `Exception("...")`. */
  function Fail(msg: string): (e: Exception)
    ensures e.message == Some(msg)
  {
    Exception(Some(msg))
  }

  /** The text Kotlin's string template renders for `e.message`: a null message
      is rendered as the four letters "null". */
  function MessageText(e: Exception): (s: string)
    ensures e.message.Some? ==> s == e.message.value
    ensures e.message.None? ==> s == "null"
  {
    e.message.GetOr("null")
  }

  /** The sealed class ResultWrapper: Success(value), Error(exception) or the
      transient Loading marker. */
  datatype ResultWrapper<+T> = Success(value: T) | Error(exception: Exception) | Loading {
    /** A value an operation may finish with: anything but Loading. */
    predicate IsTerminal() {
      !Loading?
    }
  }

  /** Kotlin's `Unit`, the payload of operations that return nothing. */
  datatype Unit = Unit
}
