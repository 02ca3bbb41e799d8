/**
 * The boundary to the pigpio C library (the `Clibpigpio` shims). Every entry point
 * is one `Call` appended to the driver's trace; the status code it returns is
 * whatever the `reply` oracle answers for the trace that ends with that call.
 */
module Clib {
  import opened Base

  /** Which family of entry points a call goes to: the in-process library, or the
      daemon-suffixed entry point with the connection handle as first argument. */
  datatype Route = Direct | Daemon(pi: int32)

  /** A peripheral entry point and its arguments. */
  datatype Op =
    | SetMode(pin: uint32, mode: uint32)
    | SetPullUpDown(pin: uint32, pud: uint32)
    | Write(pin: uint32, level: uint32)
    | Read(pin: uint32)
    | HardwarePWM(pin: uint32, freq: uint32, duty: uint32)
    | SetPWMFrequency(pin: uint32, freq: uint32)
    | SetPWMDutycycle(pin: uint32, duty: uint32)
    | Servo(pin: uint32, width: uint32)
    | I2COpen(bus: uint32, address: uint32, flags: uint32)
    | I2CClose(handle: uint32)
    | I2CWriteByte(handle: uint32, value: uint32)
    | I2CWriteByteData(handle: uint32, register: uint32, value: uint32)
    | I2CReadByte(handle: uint32)
    | I2CReadByteData(handle: uint32, register: uint32)
    | SPIOpen(channel: uint32, baud: uint32, flags: uint32)
    | SPIClose(handle: uint32)
    | SPIXfer(handle: uint32, tx: seq<uint8>, count: uint32)

  /** One event of the trace: a peripheral call, the four lifecycle entry points
      (`gpioInitialise`, `gpioTerminate`, `pigpio_start`, `pigpio_stop`), or a
      `usleep` of the calling thread. */
  datatype Call =
    | Peripheral(route: Route, op: Op)
    | Initialise
    | Terminate
    | Start(address: Option<string>, port: Option<string>)
    | Stop(pi: int32)
    | Sleep(micros: uint32)

  /** The status code the driver answers; its argument is the trace ending with the call answered. */
  type Oracle = seq<Call> -> int32

  /** The byte the driver writes at a position of a receive buffer, for the trace ending with the transfer. */
  type Filler = (seq<Call>, nat) -> uint8

  /** The handle a handler derives from `resourceId()`: daemon entry points iff it is non-negative. */
  function RouteOf(resourceId: int32): (r: Route)
    ensures r.Daemon? <==> resourceId >= 0
    ensures r.Daemon? ==> r.pi == resourceId
  {
    if resourceId >= 0 then Daemon(resourceId) else Direct
  }

  /** The receive buffer of `count` bytes the driver fills for the transfer that ends trace `t`. */
  function Received(fill: Filler, t: seq<Call>, count: nat): (rx: seq<uint8>)
    ensures |rx| == count
  {
    seq(count, j requires 0 <= j => fill(t, j))
  }

  /** What one wrapper operation does: the calls it issues, in order, and what it returns or throws. */
  datatype Step<+T, +E> = Step(calls: seq<Call>, result: Result<T, E>)

  /** `s` run after the calls `prefix`. */
  function Then<T, E>(prefix: seq<Call>, s: Step<T, E>): Step<T, E>
  {
    Step(prefix + s.calls, s.result)
  }

  lemma AppendAssociates<T>(a: seq<T>, b: seq<T>, c: seq<T>)
    ensures a + (b + c) == (a + b) + c
  {
  }

  /** The pigpio library as the wrapper sees it: a log of the calls made so far and
      the oracles that decide their answers. */
  class Driver {
    var trace: seq<Call>
    const reply: Oracle
    const fill: Filler

    constructor (reply: Oracle, fill: Filler)
      ensures trace == [] && this.reply == reply && this.fill == fill
    {
      trace := [];
      this.reply := reply;
      this.fill := fill;
    }

    /** Calls one entry point and returns its status code. */
    method Invoke(c: Call) returns (rc: int32)
      modifies this
      ensures trace == old(trace) + [c]
      ensures rc == reply(trace)
    {
      trace := trace + [c];
      rc := reply(trace);
    }

    /** `usleep(micros)`. */
    method Pause(micros: uint32)
      modifies this
      ensures trace == old(trace) + [Sleep(micros)]
    {
      trace := trace + [Sleep(micros)];
    }

    /** `spiXfer` / `spi_xfer`: sends `tx`, fills `rx` in place, returns the status code. */
    method Transfer(route: Route, handle: uint32, tx: array<uint8>, rx: array<uint8>, count: uint32) returns (rc: int32)
      requires tx.Length == count && rx.Length == count && tx != rx
      modifies this, rx
      ensures trace == old(trace) + [Peripheral(route, SPIXfer(handle, old(tx[..]), count))]
      ensures rc == reply(trace)
      ensures rx[..] == Received(fill, trace, count)
      ensures tx[..] == old(tx[..])
    {
      trace := trace + [Peripheral(route, SPIXfer(handle, tx[..], count))];
      rc := reply(trace);
      forall j | 0 <= j < rx.Length {
        rx[j] := fill(trace, j);
      }
    }
  }
}
