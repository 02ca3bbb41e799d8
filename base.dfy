/** Machine integers, identities and the failure-carrying wrappers shared by every module. */
module Base {

  const INT32_MIN: int := -0x8000_0000
  const INT32_MAX: int := 0x7FFF_FFFF
  const UINT32_MAX: int := 0xFFFF_FFFF

  /** Swift's `Int32` (C `int`), the type of every status code pigpio returns. */
  type int32 = x: int | -0x8000_0000 <= x <= 0x7FFF_FFFF

  /** Swift's `UInt32` (C `unsigned`), the type of pins, modes, handles and counts. */
  type uint32 = x: int | 0 <= x <= 0xFFFF_FFFF

  /** Swift's `UInt8`, one byte of an SPI transfer. */
  type uint8 = x: int | 0 <= x < 0x100

  /** A handler's `UUID`. Swift draws it at random; here the caller supplies it. */
  type Uuid = nat

  datatype Option<+T> = None | Some(value: T)

  /** A Swift `throws(E)` call: it returns a value or throws an `E`. */
  datatype Result<+T, +E> = Success(value: T) | Failure(error: E)
}
