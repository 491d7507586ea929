/** Failure-aware value types shared by the whole model. */
module Base {

  /** A value that may be absent: JavaScript `undefined` or `null`. */
  datatype Option<+T> = None | Some(value: T) {
    function GetOr(default: T): T {
      match this
      case Some(v) => v
      case None => default
    }
  }

  /** The outcome of a collaborator call: a value, or a thrown error. */
  datatype Result<+T> = Ok(value: T) | Failed
}
