/**
 * I2CHandler.swift as pure functions: the error classification, and what opening,
 * the byte reads and writes, and closing issue and return. The class
 * `Handlers.I2CHandler` is proved to do exactly this.
 */
module I2C {
  import opened Base
  import opened Clib

  // pigpio's PI_BAD_I2C_BUS, PI_BAD_I2C_ADDR, PI_BAD_FLAGS, PI_NO_HANDLE, PI_I2C_OPEN_FAILED
  const BAD_I2C_BUS: int32 := -74
  const BAD_I2C_ADDR: int32 := -75
  const BAD_I2C_FLAGS: int32 := -77
  const NO_I2C_HANDLE: int32 := -24
  const I2C_OPEN_FAILED: int32 := -71

  const KnownCodes: set<int32> := {BAD_I2C_BUS, BAD_I2C_ADDR, BAD_I2C_FLAGS, NO_I2C_HANDLE, I2C_OPEN_FAILED}

  datatype I2CError = BadI2CBus | BadI2CAddr | BadFlags | NoHandle | I2COpenFailed | UnknownError

  /** The code a known error case stands for. */
  function CodeOf(e: I2CError): Option<int32>
  {
    match e
    case BadI2CBus => Some(BAD_I2C_BUS)
    case BadI2CAddr => Some(BAD_I2C_ADDR)
    case BadFlags => Some(BAD_I2C_FLAGS)
    case NoHandle => Some(NO_I2C_HANDLE)
    case I2COpenFailed => Some(I2C_OPEN_FAILED)
    case UnknownError => None
  }

  /** `I2CError(cValue:)`: a known code gives the case standing for it, every other code `unknownError`. */
  function ErrorOf(code: int32): (e: I2CError)
    ensures e != UnknownError ==> CodeOf(e) == Some(code)
    ensures e == UnknownError <==> code !in KnownCodes
  {
    if code == BAD_I2C_BUS then BadI2CBus
    else if code == BAD_I2C_ADDR then BadI2CAddr
    else if code == BAD_I2C_FLAGS then BadFlags
    else if code == NO_I2C_HANDLE then NoHandle
    else if code == I2C_OPEN_FAILED then I2COpenFailed
    else UnknownError
  }

  /** Every known case is recovered from its own code. */
  lemma ErrorRoundTrip(e: I2CError)
    requires e != UnknownError
    ensures ErrorOf(CodeOf(e).value) == e
  {
  }

  /** One call on route `r` whose non-negative code is its value and whose negative code is thrown. */
  function Checked(r: Route, op: Op, o: Oracle, t: seq<Call>): (s: Step<uint32, I2CError>)
    ensures s.calls == [Peripheral(r, op)]
    ensures s.result.Success? <==> o(t + s.calls) >= 0
    ensures s.result.Success? ==> s.result.value == o(t + s.calls)
    ensures s.result.Failure? ==> s.result.error == ErrorOf(o(t + s.calls))
  {
    var c := Peripheral(r, op);
    var rc := o(t + [c]);
    Step([c], if rc >= 0 then Success(rc as uint32) else Failure(ErrorOf(rc)))
  }

  /** The same call when its value is discarded. */
  function Unit(s: Step<uint32, I2CError>): (u: Step<(), I2CError>)
    ensures u.calls == s.calls && (u.result.Success? <==> s.result.Success?)
    ensures u.result.Failure? ==> u.result.error == s.result.error
  {
    Step(s.calls, match s.result case Success(_) => Success(()) case Failure(e) => Failure(e))
  }

  /** `i2cOpen` / `i2c_open` in the initializer: the handle on a non-negative code. */
  function Open(r: Route, bus: uint32, address: uint32, flags: uint32, o: Oracle, t: seq<Call>): Step<uint32, I2CError>
  {
    Checked(r, I2COpen(bus, address, flags), o, t)
  }

  /** `writeByte(_:)`. */
  function WriteByte(r: Route, handle: uint32, value: uint32, o: Oracle, t: seq<Call>): Step<(), I2CError>
  {
    Unit(Checked(r, I2CWriteByte(handle, value), o, t))
  }

  /** `writeByte(register:value:)`. */
  function WriteByteData(r: Route, handle: uint32, register: uint32, value: uint32, o: Oracle, t: seq<Call>): Step<(), I2CError>
  {
    Unit(Checked(r, I2CWriteByteData(handle, register, value), o, t))
  }

  /** `readByte()`. */
  function ReadByte(r: Route, handle: uint32, o: Oracle, t: seq<Call>): Step<uint32, I2CError>
  {
    Checked(r, I2CReadByte(handle), o, t)
  }

  /** `readByte(register:)`. */
  function ReadByteData(r: Route, handle: uint32, register: uint32, o: Oracle, t: seq<Call>): Step<uint32, I2CError>
  {
    Checked(r, I2CReadByteData(handle, register), o, t)
  }
}
