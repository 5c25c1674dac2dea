/** Option and Result types shared by the model. */
module Wrappers {

  /** A value that may be absent: a SQL NULL, a row that was not found, a JavaScript NaN. */
  datatype Option<+T> = None | Some(value: T)

  /** The outcome of a `db.js` operation: a value, or the message of the Error it throws. */
  datatype Result<+T> = Ok(value: T) | Err(message: string)
}
