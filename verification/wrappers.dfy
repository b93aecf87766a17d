/** Failure-carrying datatypes used across the model: an optional value (a
    JavaScript field that may be `undefined`) and a result that is either a
    value or the message of the `Error` the source would throw. */
module Wrappers {

  datatype Option<+T> = None | Some(value: T)

  datatype Result<+R> = Ok(value: R) | Err(message: string)
}
