/** Optional values and results that carry an error, standing for JavaScript's `undefined`
    and for exceptions that abort a call. */
module Wrappers {

  datatype Option<T> = None | Some(value: T) {

    /** The wrapped value, or `default` when there is none. */
    function GetOr(default: T): T
    {
      if Some? then value else default
    }
  }

  datatype Result<T, E> = Success(value: T) | Failure(error: E)
}
