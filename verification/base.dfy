/** Scalar types and failure-carrying wrappers shared by every other module. */
module Base {

  /** One octet, as Python's `bytes` yields it when iterated. */
  type byte = b: int | 0 <= b < 0x100

  /** The value range of a ctypes `c_uint32`. */
  type uint32 = x: int | 0 <= x < 0x1_0000_0000

  /** The value range of a ctypes `c_uint16`. */
  type uint16 = x: int | 0 <= x < 0x1_0000

  /** The value range of a ctypes `c_ubyte`. */
  type ubyte = x: int | 0 <= x < 0x100

  /** ctypes converts a Python int into a `c_uint32` without an overflow check:
      the value is taken modulo 2^32 (Dafny's `%` is Euclidean, so a negative
      int wraps the way two's complement does). */
  function U32(x: int): (r: uint32)
    ensures 0 <= x < 0x1_0000_0000 ==> r == x
    ensures (r - x) % 0x1_0000_0000 == 0
  {
    x % 0x1_0000_0000
  }

  /** Same conversion into a `c_ubyte`. */
  function U8(x: int): (r: ubyte)
    ensures 0 <= x < 0x100 ==> r == x
    ensures (r - x) % 0x100 == 0
  {
    x % 0x100
  }

  datatype Option<+T> = None | Some(value: T)

  /** A Python call that either returns a value or raises. */
  datatype Result<+T, +E> = Ok(value: T) | Err(error: E)
}
