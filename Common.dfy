/** Small value wrappers shared by every module of the model. */
module Common {

  /** An optional argument: Python's `None` or a value. */
  datatype Option<T> = None | Some(value: T)

  /** The outcome of a call that either returns a value or raises Python's
      `ValueError` with a message. */
  datatype Result<T> = Ok(value: T) | ValueError(message: string)

  function Max(a: int, b: int): int { if a < b then b else a }
}
