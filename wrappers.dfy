/** Small failure-compatible datatypes shared by every module of the model. */
module Wrappers {

  /** A JavaScript value that may be `undefined`. */
  datatype Option<+T> = None | Some(value: T) {
    function GetOr(default: T): T {
      match this
      case Some(v) => v
      case None => default
    }
  }

  /** What an Express handler sends back: `{success: true, data}` or an HTTP
      status with `{success: false, message}`. */
  datatype Reply<+T> = Ok(data: T) | Fail(status: nat, message: string)

  /** What a service method does: return a value, or throw an `Error` with a message. */
  datatype Result<+T> = Success(value: T) | Failure(message: string)
}
