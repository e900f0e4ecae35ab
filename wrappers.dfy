/** Optional values and success-or-error results, used wherever the source
    has an absent field, an empty query parameter or a thrown error. */
module Wrappers {

  datatype Option<+T> = None | Some(value: T) {
    /** The wrapped value, or `default` when absent (JavaScript's `x = default`
        destructuring for a missing query parameter). */
    function GetOr(default: T): T {
      if Some? then value else default
    }
  }

  datatype Result<+T, +E> = Ok(value: T) | Err(error: E)
}
