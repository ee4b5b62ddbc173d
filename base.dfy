/** Machine integers, bytes and the failure-carrying wrappers shared by every module. */
module Base {

  /** Number of values of a Go `uint64`; arithmetic on such values wraps modulo this. */
  const U64_MODULUS: int := 0x1_0000_0000_0000_0000

  /** Go's `uint64`. */
  type uint64 = x: int | 0 <= x < U64_MODULUS

  /** Go's `byte`. */
  newtype byte = b: int | 0 <= b < 256

  /** Go's `[]byte`. */
  type Bytes = seq<byte>

  /** Go's `uint64` addition `a + b`, which wraps around instead of growing. */
  function AddU64(a: uint64, b: uint64): (r: uint64)
    ensures a + b < U64_MODULUS ==> r == a + b
    ensures a + b >= U64_MODULUS ==> r == a + b - U64_MODULUS
  {
    (a + b) % U64_MODULUS
  }

  datatype Option<+T> = None | Some(value: T)

  datatype Result<+T, +E> = Success(value: T) | Failure(error: E)
}
