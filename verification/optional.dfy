/** Absent-or-present values and success-or-error values, used wherever the
    editor code returns `null`/`undefined` or throws a configuration error. */
module Optional {

  /** `None` plays the part of JavaScript's `null` / `undefined`. */
  datatype Option<+T> = None | Some(value: T) {

    /** The value, or `default` when absent (JavaScript's `??`). */
    function GetOr(default: T): (r: T)
      ensures Some? ==> r == value
      ensures None? ==> r == default
    {
      match this
      case Some(v) => v
      case None => default
    }
  }

  /** Either a value or the message of an error that would be thrown. */
  datatype Result<+R> = Success(value: R) | Failure(error: string)
}
