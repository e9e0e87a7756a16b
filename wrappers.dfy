/** Optional values and error-carrying results, shared by every module of the model. */
module Wrappers {

  /** `undefined` / a missing field on the JavaScript side. */
  datatype Option<+T> = None | Some(value: T)

  /** A value, or the message of the error the source throws or returns. */
  datatype Result<+T> = Ok(value: T) | Err(message: string)
}
