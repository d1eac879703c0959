/** Option and Result values returned by the engine's operations. */
module Results {

  datatype Option<+T> = None | Some(value: T) {
    /** The carried value, or `default` when there is none (Python's dict.get with a default). */
    function GetOr(default: T): T {
      if Some? then value else default
    }
  }

  datatype Result<+T, +E> = Ok(value: T) | Err(error: E)
}
