/** Shared result types: Python's `None` and raised exceptions, as values. */
module Wrappers {
  datatype Option<T> = None | Some(value: T)

  /** A call that either returns a value or raises an error of kind `E`. */
  datatype Result<T, E> = Ok(value: T) | Err(error: E)

  /** Python integers are unbounded; bytes are 0..255. */
  newtype byte = x: int | 0 <= x < 256

  /** The 16 bytes of a `uuid.UUID`, most significant first. */
  type Uuid = b: seq<byte> | |b| == 16 witness seq(16, _ => 0)

  /** An MD5 `hexdigest()`: always 32 characters. */
  type HexDigest = s: string | |s| == 32 witness seq(32, _ => '0')
}
