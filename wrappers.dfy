/** Option and the outcome of a JavaScript computation that may throw. */
module Wrappers {

  datatype Option<+T> = None | Some(value: T)

  /** The exceptions the modelled code can raise; all of them are caught by the pipeline. */
  datatype JsError = TypeError(message: string)

  /** A value, or the exception that interrupted computing it. */
  datatype Outcome<+T> = Ok(value: T) | Thrown(error: JsError)
}
