/**
 * SPIHandler.swift as pure functions: the error classification, and what opening and
 * a full-duplex transfer issue and return. The class `Handlers.SPIHandler` is proved
 * to do exactly this.
 */
module SPI {
  import opened Base
  import opened Clib

  // pigpio's PI_BAD_SPI_CHANNEL, PI_BAD_SPI_SPEED, PI_BAD_FLAGS, PI_NO_AUX_SPI,
  // PI_SPI_OPEN_FAILED, PI_BAD_HANDLE, PI_BAD_SPI_COUNT, PI_SPI_XFER_FAILED
  const BAD_SPI_CHANNEL: int32 := -76
  const BAD_SPI_SPEED: int32 := -78
  const BAD_SPI_FLAGS: int32 := -77
  const NO_AUX_SPI: int32 := -91
  const SPI_OPEN_FAILED: int32 := -73
  const BAD_SPI_HANDLE: int32 := -25
  const BAD_SPI_COUNT: int32 := -84
  const SPI_XFER_FAILED: int32 := -89

  const KnownCodes: set<int32> :=
    {BAD_SPI_CHANNEL, BAD_SPI_SPEED, BAD_SPI_FLAGS, NO_AUX_SPI, SPI_OPEN_FAILED, BAD_SPI_HANDLE, BAD_SPI_COUNT, SPI_XFER_FAILED}

  datatype SPIError =
    | BadSPIChannel | BadSPISpeed | BadFlags | NoAuxSPI | SPIOpenFailed
    | BadSPIHandle | BadSPICount | SPIXferFailed | UnknownError

  /** The code a known error case stands for. */
  function CodeOf(e: SPIError): Option<int32>
  {
    match e
    case BadSPIChannel => Some(BAD_SPI_CHANNEL)
    case BadSPISpeed => Some(BAD_SPI_SPEED)
    case BadFlags => Some(BAD_SPI_FLAGS)
    case NoAuxSPI => Some(NO_AUX_SPI)
    case SPIOpenFailed => Some(SPI_OPEN_FAILED)
    case BadSPIHandle => Some(BAD_SPI_HANDLE)
    case BadSPICount => Some(BAD_SPI_COUNT)
    case SPIXferFailed => Some(SPI_XFER_FAILED)
    case UnknownError => None
  }

  /** `SPIError(cValue:)`: a known code gives the case standing for it, every other code `unknownError`. */
  function ErrorOf(code: int32): (e: SPIError)
    ensures e != UnknownError ==> CodeOf(e) == Some(code)
    ensures e == UnknownError <==> code !in KnownCodes
  {
    if code == BAD_SPI_CHANNEL then BadSPIChannel
    else if code == BAD_SPI_SPEED then BadSPISpeed
    else if code == BAD_SPI_FLAGS then BadFlags
    else if code == NO_AUX_SPI then NoAuxSPI
    else if code == SPI_OPEN_FAILED then SPIOpenFailed
    else if code == BAD_SPI_HANDLE then BadSPIHandle
    else if code == BAD_SPI_COUNT then BadSPICount
    else if code == SPI_XFER_FAILED then SPIXferFailed
    else UnknownError
  }

  /** Every known case is recovered from its own code. */
  lemma ErrorRoundTrip(e: SPIError)
    requires e != UnknownError
    ensures ErrorOf(CodeOf(e).value) == e
  {
  }

  /** `spiOpen` / `spi_open` in the initializer: the handle on a non-negative code. */
  function Open(r: Route, channel: uint32, baud: uint32, flags: uint32, o: Oracle, t: seq<Call>): (s: Step<uint32, SPIError>)
    ensures s.calls == [Peripheral(r, SPIOpen(channel, baud, flags))]
    ensures s.result.Success? <==> o(t + s.calls) >= 0
    ensures s.result.Success? ==> s.result.value == o(t + s.calls)
    ensures s.result.Failure? ==> s.result.error == ErrorOf(o(t + s.calls))
  {
    var c := Peripheral(r, SPIOpen(channel, baud, flags));
    var h := o(t + [c]);
    Step([c], if h >= 0 then Success(h as uint32) else Failure(ErrorOf(h)))
  }

  /** `transfer(_:)`: sends `data` with its own length as the count; on success returns
      the receive buffer the driver filled, exactly as long as `data`. */
  function Transfer(r: Route, handle: uint32, data: seq<uint8>, o: Oracle, fill: Filler, t: seq<Call>): (s: Step<seq<uint8>, SPIError>)
    requires |data| <= UINT32_MAX
    ensures s.calls == [Peripheral(r, SPIXfer(handle, data, |data|))]
    ensures s.result.Success? <==> o(t + s.calls) >= 0
    ensures s.result.Success? ==> s.result.value == Received(fill, t + s.calls, |data|)
    ensures s.result.Success? ==> |s.result.value| == |data|
    ensures s.result.Failure? ==> s.result.error == ErrorOf(o(t + s.calls))
  {
    var c := Peripheral(r, SPIXfer(handle, data, |data|));
    var rc := o(t + [c]);
    Step([c], if rc < 0 then Failure(ErrorOf(rc)) else Success(Received(fill, t + [c], |data|)))
  }
}
