/** Failure-carrying wrappers and the byte type shared by every module. */
module Common {

  /** Python's `None` / a present value. */
  datatype Option<+T> = None | Some(value: T)

  /** A value or an error that the caller sees as a returned value. */
  datatype Result<+T, +E> = Ok(value: T) | Err(error: E)

  /** A Python call that either returns or raises an exception with the given `str(e)`. */
  datatype Outcome<+T> = Returned(value: T) | Raised(message: string)

  /** One octet of a `bytes` value. */
  newtype byte = x: int | 0 <= x < 256
}
