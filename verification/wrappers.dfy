/**
 * Option and Result, the two shapes every lookup and fallible operation of
 * the model returns instead of a JavaScript `undefined`/`null` or a Python
 * exception.
 */
module Wrappers {

  datatype Option<T> = None | Some(value: T)
  {
    function GetOr(default: T): (r: T)
      ensures Some? ==> r == value
      ensures None? ==> r == default
    {
      match this
      case Some(v) => v
      case None => default
    }
  }

  datatype Result<T> = Success(value: T) | Failure(error: string)
  {
    function ToOption(): (r: Option<T>)
      ensures Success? <==> r.Some?
      ensures Success? ==> r.value == value
    {
      match this
      case Success(v) => Some(v)
      case Failure(_) => None
    }
  }
}
