/** Failure-carrying datatypes used throughout the model. A JavaScript
    `undefined` result or a thrown exception of a collaborator becomes `None`
    or `Failure`. */
module Wrappers {

  datatype Option<+T> = None | Some(value: T) {

    /** The wrapped value, or `default` when there is none. */
    function GetOr(default: T): T {
      match this
      case Some(v) => v
      case None => default
    }
  }

  datatype Result<+R, +E> = Success(value: R) | Failure(error: E)
}
