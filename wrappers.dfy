/** Failure-carrying values shared by every module of the model.
    Kotlin's nullable types (`T?`) become `Option<T>`; an operation that throws
    becomes a `Result<T>` whose `Err` names the JVM exception. */
module Wrappers {

  /** A Kotlin nullable value: `None` is `null`. */
  datatype Option<+T> = None | Some(value: T) {
    /** The elvis operator `this ?: default`. */
    function GetOr(default: T): T {
      match this
      case Some(v) => v
      case None => default
    }
  }

  /** `v.takeIf { cond }`: the value itself when the condition holds, else null. */
  function TakeIf<T>(v: T, cond: bool): (r: Option<T>)
    ensures r.Some? <==> cond
    ensures r.Some? ==> r.value == v
  {
    if cond then Some(v) else None
  }

  /** The JVM exceptions the modelled code can raise. */
  datatype Exception =
    | IllegalArgumentException(message: string)
    | NoSuchElementException
    | NullPointerException
    | NumberFormatException
    | NegativeArraySizeException

  /** A computation that either returns a value or throws. */
  datatype Result<+T> = Ok(value: T) | Err(error: Exception)
}
