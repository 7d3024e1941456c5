/** Building blocks shared by the whole model: C#'s nullable references and
    its exceptions become Option and Result values, and byte[] elements are
    bytes. */
module Common {

  /** An unsigned 8-bit value, as in C#'s byte[]. */
  newtype byte = x: int | 0 <= x < 0x100

  /** A reference that may be null: None stands for null. */
  datatype Option<+T> = None | Some(value: T)

  /** The outcome of an operation that may throw: Failure carries the exception. */
  datatype Result<+T, +E> = Success(value: T) | Failure(error: E)
}
