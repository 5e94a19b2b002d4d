/** Optional values and success-or-error results, standing in for JavaScript's
    `null`/`undefined` and for thrown errors or rejected promises. */
module Results {

  datatype Option<+T> = None | Some(value: T) {
    function GetOr(default: T): T {
      match this
      case Some(v) => v
      case None => default
    }
  }

  datatype Result<+T, +E> = Ok(value: T) | Err(error: E)
}
