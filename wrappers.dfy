/** Optional values and handler outcomes shared by every controller model. */
module Wrappers {
  /** A value that may be absent: `undefined`/`null` in the JavaScript source. */
  datatype Option<T> = None | Some(value: T)
  {
    function GetOr(default: T): T {
      if Some? then value else default
    }
  }

  /**
   * What an Express handler answers: a success carrying the response payload,
   * or an error status (400, 401, 403, 404, 409, 500).
   */
  datatype Outcome<T> = Done(value: T) | Fail(status: int)
}
