/** Small shared vocabulary: optional values, results with an error, and bytes. */
module Common {

  datatype Option<+T> = None | Some(value: T)

  /** The outcome of a step that either produces a value or stops with an error. */
  datatype Result<+T, +E> = Ok(value: T) | Err(error: E)

  /** One byte of a file opened in binary mode. */
  newtype Byte = x: int | 0 <= x < 0x100

  function Min(a: int, b: int): int
  {
    if a <= b then a else b
  }
}
