/** Optional values and error-carrying results, as the source's JavaScript
    `undefined` fields and Rust `Result` returns are modelled. */
module Wrappers {

  datatype Option<+T> = None | Some(value: T) {
    /** The value, or `default` when there is none (a JavaScript default
        parameter). */
    function GetOr(default: T): T {
      if Some? then value else default
    }
  }

  datatype Result<+T, +E> = Ok(value: T) | Err(error: E)
}
