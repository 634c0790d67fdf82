/** Option and Result, used for the values a lookup may not find and the
    exceptions a step of the proxies may raise. */
module Results {

  datatype Option<+T> = None | Some(value: T) {
    /** The value, or `default` when there is none (Python's `d.get(k, default)`). */
    function GetOr(default: T): T {
      match this
      case Some(v) => v
      case None => default
    }
  }

  /** `Failure` carries the text `str(error)` of the exception that was raised. */
  datatype Result<+R> = Success(value: R) | Failure(error: string)
}
