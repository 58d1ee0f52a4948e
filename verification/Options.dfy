/** A value that may be missing: the kernel's NULL pointers. And bytes. */
module Options {
  datatype Option<+T> = None | Some(value: T)

  type Byte = x: int | 0 <= x < 256

  /** The value a number has once it is stored in an `int8_t`. */
  function Int8(n: nat): int
  {
    if n % 256 < 128 then n % 256 else n % 256 - 256
  }
}
