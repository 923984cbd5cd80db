/** Failure-carrying datatypes shared by every handler of the model. */
module Wrappers {

  /** A value that may be absent: JavaScript's `undefined` / `null` for a field or argument. */
  datatype Option<+T> = None | Some(value: T) {

    /** The value, or `default` when absent. */
    function GetOr(default: T): T {
      match this
      case Some(v) => v
      case None => default
    }
  }

  /** The answer of an HTTP handler: a JSON body with a success status, or an
      error status with the `message` field of the JSON error body. */
  datatype Response<+T> = Ok(status: nat, value: T) | Error(status: nat, message: string)

  /** The outcome of a call to an external model provider. */
  datatype Completion = Success(text: string) | Failure
}
