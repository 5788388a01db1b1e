/** Optional values and error-carrying results, standing for Java's null and exceptions. */
module Wrappers {
  datatype Option<T> = None | Some(value: T)
  {
    function GetOr(default: T): (r: T)
      ensures Some? ==> r == value
      ensures None? ==> r == default
    {
      match this
      case Some(v) => v
      case None => default
    }
  }

  /** `Err` carries the message of the exception the Java code throws. */
  datatype Result<T> = Ok(value: T) | Err(message: string)
}
