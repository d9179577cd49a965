/** Success-or-error values returned by every entry point of the gym service. */
module Results {

  /** The two kinds of failure the service reports: a missing, empty or
      malformed input, and an identifier that is not in the collection. */
  datatype Error = Validation | NotFound

  datatype Option<+T> = None | Some(value: T) {
    /** The wrapped value, or `default` when there is none. */
    function GetOr(default: T): T {
      match this
      case Some(v) => v
      case None => default
    }
  }

  datatype Result<+T> = Ok(value: T) | Err(error: Error)
}
