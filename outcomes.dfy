/** Small failure-carrying datatypes shared by the models of the admin page and
    of the create-admin edge function. Errors carry the `message` string that the
    JavaScript code reads from an error object. */
module Outcomes {

  /** A value that may be absent: JavaScript's `null` / `undefined`. */
  datatype Option<+T> = None | Some(value: T)

  /** The answer of a call that yields a value or fails with an error message. */
  datatype Result<+T> = Ok(value: T) | Err(message: string)

  /** The answer of a call that yields nothing on success (`{ error }` replies). */
  datatype Outcome = Pass | Fail(message: string)
}
