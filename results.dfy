/** Error-carrying results for the calls main.go treats as fallible. */
module Results {

  /** A value, or the error message that Go would return beside a nil value. */
  datatype Result<+T> = Ok(value: T) | Err(error: string)

  datatype Option<+T> = None | Some(value: T)
}
