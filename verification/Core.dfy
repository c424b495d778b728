/** Shared value types. */
module Core {

  datatype Option<+T> = None | Some(value: T)

  datatype Result<+T, +E> = Ok(value: T) | Err(error: E)

  /** One octet. */
  type byte = x: int | 0 <= x < 256

  type Bytes = seq<byte>
}
