/** Success/failure values standing in for the exceptions the pipeline raises. */
module Results {

  /** A value that may be absent, as Python's `None`. */
  datatype Option<+T> = None | Some(value: T)

  /** Either a value or the message of the exception that was raised instead. */
  datatype Result<+T> = Ok(value: T) | Err(message: string)
}
