/** Small value wrappers shared by the modules of this model. */
module Wrappers {

  /** Python's `Optional[T]`: `None` or a present value. */
  datatype Option<+T> = None | Some(value: T)

  /** A value or the error an operation raised. */
  datatype Result<+R, +E> = Success(value: R) | Failure(error: E)

  /** An unsigned byte, as Python's `bytes` holds them. */
  newtype byte = x: int | 0 <= x < 256
}
