/**
 * The objects of the wrapper: `PigpioLibrary`, `PigpioFactory`, `RegistrableToken`
 * and the three handlers. They share one `Driver`, and every method is proved to
 * issue exactly the calls, and return exactly the result, of the corresponding pure
 * function in `Pigpio`, `GPIO`, `I2C` or `SPI`.
 *
 * Swift releases an object when its last strong reference goes; here that moment is
 * an explicit method: `Destroy` on a handler (its `deinit`, then its token's), and
 * `Discard` on the factory. A weak reference to a released factory reads as nil,
 * which is when `alive` is false.
 */
module Handlers {
  import opened Base
  import opened Clib
  import Pigpio
  import Definitions
  import GPIO
  import I2C
  import SPI

  /** `PigpioLibrary`: the mode and the daemon connection handle `pi`. */
  class Library {
    const mode: Pigpio.PigpioMode
    const driver: Driver
    var pi: int32

    /** In direct mode nothing assigns `pi`, so it keeps its initial `Int32.min`. */
    ghost predicate Valid()
      reads this
    {
      mode.DirectMode? ==> pi == INT32_MIN
    }

    constructor (mode: Pigpio.PigpioMode, driver: Driver)
      ensures this.mode == mode && this.driver == driver && pi == INT32_MIN && Valid()
    {
      this.mode := mode;
      this.driver := driver;
      pi := INT32_MIN;
    }

    /** `initialize()`. */
    method Initialize() returns (ok: bool)
      requires Valid()
      modifies this, driver
      ensures var s := Pigpio.Initialize(mode, old(pi), driver.reply, old(driver.trace));
              driver.trace == old(driver.trace) + s.calls && ok == s.ok && pi == s.pi
      ensures Valid()
    {
      match mode
      case DirectMode =>
        var rc := driver.Invoke(Initialise);
        ok := rc >= 0;
      case DaemonMode(address, port) =>
        var rc := driver.Invoke(Start(address, port));
        if rc < 0 {
          ok := false;
        } else {
          pi := rc;
          ok := true;
        }
    }

    /** `isInitialized`. */
    method IsInitialized() returns (active: bool)
      modifies driver
      ensures var (a, calls) := Pigpio.IsInitialized(mode, pi, driver.reply, old(driver.trace));
              driver.trace == old(driver.trace) + calls && active == a
    {
      match mode
      case DirectMode =>
        var rc := driver.Invoke(Initialise);
        active := rc >= 0;
      case DaemonMode(_, _) =>
        active := pi != 0;
    }

    /** `shutdown()`. */
    method Shutdown()
      modifies driver
      ensures driver.trace == old(driver.trace) + Pigpio.Shutdown(mode, pi, driver.reply, old(driver.trace))
    {
      var active := IsInitialized();
      if active {
        var rc;
        if mode.DirectMode? {
          rc := driver.Invoke(Terminate);
        } else {
          rc := driver.Invoke(Stop(pi));
        }
      }
    }
  }

  /** A cache entry: the handler a `WeakRegistrableBox` points to. */
  datatype Box = GpioBox(gpio: GPIOHandler) | I2CBox(i2c: I2CHandler) | SPIBox(spi: SPIHandler)

  function Owner(b: Box): Factory
  {
    match b
    case GpioBox(h) => h.factory
    case I2CBox(h) => h.factory
    case SPIBox(h) => h.factory
  }

  function IdOf(b: Box): Uuid
  {
    match b
    case GpioBox(h) => h.id
    case I2CBox(h) => h.id
    case SPIBox(h) => h.id
  }

  ghost predicate BoxWired(b: Box)
  {
    match b
    case GpioBox(h) => h.Wired()
    case I2CBox(h) => h.Wired()
    case SPIBox(h) => h.Wired()
  }

  /** The `resourceId()` closure of every handler: the factory's `pi`, or `Int32.min` once the factory is gone. */
  function ResourceIdOf(f: Factory): int32
    reads f, f.resource
  {
    if f.alive then f.ResourceId() else INT32_MIN
  }

  /** Which entry points a handler of `f` calls: the daemon ones iff the factory is still
      there and its `pi` is non-negative, so never in direct mode. */
  function RouteFor(f: Factory): (r: Route)
    reads f, f.resource
    ensures r.Daemon? <==> f.alive && f.resource.pi >= 0
    ensures r.Daemon? ==> r.pi == f.resource.pi
    ensures f.resource.Valid() && f.resource.mode.DirectMode? ==> r == Direct
  {
    RouteOf(ResourceIdOf(f))
  }

  /** `PigpioFactory`. */
  class Factory {
    const resource: Library
    var cache: map<Uuid, Box>
    var alive: bool

    /** The library keeps its invariant; every entry is keyed by its handler's id, belongs
        to this factory and shares its driver; and at most one entry is a GPIO handler. */
    ghost predicate Valid()
      reads this, resource
    {
      && resource.Valid()
      && (forall k :: k in cache ==> IdOf(cache[k]) == k && Owner(cache[k]) == this && BoxWired(cache[k]))
      && (forall a, b :: a in cache && b in cache && cache[a].GpioBox? && cache[b].GpioBox? ==> a == b)
    }

    ghost predicate HasGpio()
      reads this
    {
      exists k :: k in cache && cache[k].GpioBox?
    }

    constructor (resource: Library)
      requires resource.Valid()
      ensures this.resource == resource && cache == map[] && alive && Valid()
    {
      this.resource := resource;
      cache := map[];
      alive := true;
    }

    /** `isDaemon`: decided by the mode alone, unlike a handler's `isDaemon`. */
    predicate IsDaemon()
    {
      Pigpio.IsDaemon(resource.mode)
    }

    /** `resourceId`. */
    function ResourceId(): int32
      reads resource
    {
      resource.pi
    }

    /** The state after `register` of `box` under `id`, from cache `c0`, `pi0` and trace `t0`. */
    ghost predicate Registered(c0: map<Uuid, Box>, pi0: int32, t0: seq<Call>, id: Uuid, box: Box)
      reads this, resource, resource.driver
    {
      var (c, start) := Pigpio.Register(c0, id, box);
      && cache == c
      && if start then
           var i := Pigpio.Initialize(resource.mode, pi0, resource.driver.reply, t0);
           resource.pi == i.pi && resource.driver.trace == t0 + i.calls
         else resource.pi == pi0 && resource.driver.trace == t0
    }

    /** The state after `unregister` of `id`, from cache `c0`, `pi0` and trace `t0`. */
    ghost predicate Unregistered(c0: map<Uuid, Box>, pi0: int32, t0: seq<Call>, id: Uuid)
      reads this, resource, resource.driver
    {
      var (c, stop) := Pigpio.Unregister(c0, id);
      && cache == c
      && resource.pi == pi0
      && resource.driver.trace == t0 + (if stop then Pigpio.Shutdown(resource.mode, pi0, resource.driver.reply, t0) else [])
    }

    /** `register(_:)`. */
    method Register(id: Uuid, box: Box)
      requires alive && Valid()
      requires IdOf(box) == id && Owner(box) == this && BoxWired(box)
      requires box.GpioBox? ==> !HasGpio()
      modifies this, resource, resource.driver
      ensures alive && Valid()
      ensures Registered(old(cache), old(resource.pi), old(resource.driver.trace), id, box)
    {
      cache := cache[id := box];
      if |cache| == 1 {
        var ok := resource.Initialize();
      }
    }

    /** `unregister(_:)`. */
    method Unregister(id: Uuid)
      requires alive && Valid()
      modifies this, resource.driver
      ensures alive && Valid()
      ensures Unregistered(old(cache), old(resource.pi), old(resource.driver.trace), id)
    {
      cache := cache - {id};
      if |cache| == 0 {
        resource.Shutdown();
      }
    }

    /** `buildGPIOHandler()`: the cached GPIO handler if there is one, and nothing else
        happens; otherwise a new handler under `id`, registered. Either way it is then the
        only GPIO handler in the cache. */
    method BuildGPIOHandler(id: Uuid) returns (h: GPIOHandler)
      requires alive && Valid()
      modifies this, resource, resource.driver
      ensures alive && Valid()
      ensures h.factory == this && h.Wired()
      ensures forall k :: k in cache && cache[k].GpioBox? ==> cache[k].gpio == h
      ensures HasGpio()
      ensures old(HasGpio()) ==> GpioBox(h) in old(cache).Values && unchanged(this, resource, resource.driver)
      ensures !old(HasGpio()) ==>
                fresh(h) && fresh(h.token) && h.id == id && !h.token.released &&
                Registered(old(cache), old(resource.pi), old(resource.driver.trace), id, GpioBox(h))
    {
      if exists k :: k in cache && cache[k].GpioBox? {
        var k :| k in cache && cache[k].GpioBox?;
        h := cache[k].gpio;
      } else {
        h := new GPIOHandler(this, id);
        Register(id, GpioBox(h));
      }
    }

    /** `buildI2C(bus:address:)`: opens with flags 0, and registers the handler only if the open succeeded. */
    method BuildI2C(id: Uuid, bus: uint32, address: uint32) returns (r: Result<I2CHandler, I2C.I2CError>)
      requires alive && Valid()
      modifies this, resource, resource.driver
      ensures alive && Valid()
      ensures var open := I2C.Open(old(RouteFor(this)), bus, address, 0, resource.driver.reply, old(resource.driver.trace));
              var t1 := old(resource.driver.trace) + open.calls;
              && (open.result.Failure? ==>
                    r == Failure(open.result.error) && Unregistered(old(cache), old(resource.pi), t1, id))
              && (open.result.Success? ==>
                    r.Success? && fresh(r.value) && r.value.handle == open.result.value &&
                    r.value.factory == this && r.value.id == id && r.value.Wired() && !r.value.token.released &&
                    Registered(old(cache), old(resource.pi), t1, id, I2CBox(r.value)))
    {
      r := I2CHandler.Open(this, id, bus, address, 0);
      if r.Success? {
        Register(id, I2CBox(r.value));
      }
    }

    /** `buildSPI(channel:baudRate:flags:)`: registers the handler only if the open succeeded. */
    method BuildSPI(id: Uuid, channel: uint32, baudRate: uint32, flags: uint32) returns (r: Result<SPIHandler, SPI.SPIError>)
      requires alive && Valid()
      modifies this, resource, resource.driver
      ensures alive && Valid()
      ensures var open := SPI.Open(old(RouteFor(this)), channel, baudRate, flags, resource.driver.reply, old(resource.driver.trace));
              var t1 := old(resource.driver.trace) + open.calls;
              && (open.result.Failure? ==>
                    r == Failure(open.result.error) && Unregistered(old(cache), old(resource.pi), t1, id))
              && (open.result.Success? ==>
                    r.Success? && fresh(r.value) && r.value.handle == open.result.value &&
                    r.value.factory == this && r.value.id == id && r.value.Wired() && !r.value.token.released &&
                    Registered(old(cache), old(resource.pi), t1, id, SPIBox(r.value)))
    {
      r := SPIHandler.Open(this, id, channel, baudRate, flags);
      if r.Success? {
        Register(id, SPIBox(r.value));
      }
    }

    /** The last strong reference to the factory goes: weak references to it read nil from now on. */
    method Discard()
      requires alive
      modifies this
      ensures !alive && cache == old(cache)
    {
      alive := false;
    }
  }

  /** Two calls of `buildGPIOHandler()` give the same handler: the second finds the first in
      the cache and changes nothing. */
  method BuildGPIOHandlerTwice(f: Factory, id1: Uuid, id2: Uuid) returns (h1: GPIOHandler, h2: GPIOHandler)
    requires f.alive && f.Valid()
    modifies f, f.resource, f.resource.driver
    ensures h1 == h2
  {
    h1 := f.BuildGPIOHandler(id1);
    h2 := f.BuildGPIOHandler(id2);
  }

  /** A handler built on a fresh daemon factory opens through the direct entry point: the
      route is read before `register` starts the library, while `pi` is still `Int32.min`. */
  method FirstI2COpenIsDirect(driver: Driver, address: Option<string>, port: Option<string>, id: Uuid, bus: uint32, device: uint32)
    returns (r: Result<I2CHandler, I2C.I2CError>)
    modifies driver
    ensures |old(driver.trace)| < |driver.trace|
    ensures driver.trace[|old(driver.trace)|] == Peripheral(Direct, Op.I2COpen(bus, device, 0))
  {
    var library := new Library(Pigpio.DaemonMode(address, port), driver);
    var factory := new Factory(library);
    ghost var t0 := driver.trace;
    r := factory.BuildI2C(id, bus, device);
    Pigpio.UnstartedDaemonRoutesDirect(address, port);
    assert driver.trace[..|t0| + 1] == t0 + [Peripheral(Direct, Op.I2COpen(bus, device, 0))];
  }

  /** The same for SPI. */
  method FirstSPIOpenIsDirect(driver: Driver, address: Option<string>, port: Option<string>, id: Uuid,
                              channel: uint32, baudRate: uint32, flags: uint32)
    returns (r: Result<SPIHandler, SPI.SPIError>)
    modifies driver
    ensures |old(driver.trace)| < |driver.trace|
    ensures driver.trace[|old(driver.trace)|] == Peripheral(Direct, Op.SPIOpen(channel, baudRate, flags))
  {
    var library := new Library(Pigpio.DaemonMode(address, port), driver);
    var factory := new Factory(library);
    ghost var t0 := driver.trace;
    r := factory.BuildSPI(id, channel, baudRate, flags);
    Pigpio.UnstartedDaemonRoutesDirect(address, port);
    assert driver.trace[..|t0| + 1] == t0 + [Peripheral(Direct, Op.SPIOpen(channel, baudRate, flags))];
  }

  /** What releasing the token of `id` leaves: an `unregister` if the factory is still there, nothing otherwise. */
  ghost predicate ReleasedAfter(f: Factory, c0: map<Uuid, Box>, pi0: int32, t0: seq<Call>, id: Uuid)
    reads f, f.resource, f.resource.driver
  {
    if f.alive then f.Unregistered(c0, pi0, t0, id)
    else f.cache == c0 && f.resource.pi == pi0 && f.resource.driver.trace == t0
  }

  /** `RegistrableToken`: unregisters its id when it is released. */
  class Token {
    const factory: Factory
    const id: Uuid
    var released: bool

    constructor (factory: Factory, id: Uuid)
      ensures this.factory == factory && this.id == id && !released
    {
      this.factory := factory;
      this.id := id;
      released := false;
    }

    /** `deinit`: `factory?.unregister(id)`. */
    method Release()
      requires !released && factory.Valid()
      modifies this, factory, factory.resource.driver
      ensures released && factory.Valid() && factory.alive == old(factory.alive)
      ensures ReleasedAfter(factory, old(factory.cache), old(factory.resource.pi), old(factory.resource.driver.trace), id)
    {
      released := true;
      if factory.alive {
        factory.Unregister(id);
      }
    }
  }

  /** `GPIOHandler`. */
  class GPIOHandler {
    const factory: Factory
    const id: Uuid
    const token: Token
    const driver: Driver

    ghost predicate Wired()
    {
      driver == factory.resource.driver && token.factory == factory && token.id == id
    }

    constructor (factory: Factory, id: Uuid)
      ensures this.factory == factory && this.id == id && Wired() && fresh(token) && !token.released
    {
      this.factory := factory;
      this.id := id;
      var t := new Token(factory, id);
      token := t;
      driver := factory.resource.driver;
    }

    /** One call whose code must be exactly 0. */
    method ZeroChecked(r: Route, op: Op) returns (res: Result<(), GPIO.GPIOError>)
      modifies driver
      ensures var s := GPIO.ZeroChecked(r, op, driver.reply, old(driver.trace));
              driver.trace == old(driver.trace) + s.calls && res == s.result
    {
      var rc := driver.Invoke(Peripheral(r, op));
      if rc != 0 {
        res := Failure(GPIO.ErrorOf(rc));
      } else {
        res := Success(());
      }
    }

    /** `setMode(pin:modality:)`. */
    method SetMode(pin: uint32, modality: GPIO.GPIOModality) returns (res: Result<(), GPIO.GPIOError>)
      modifies driver
      ensures var s := GPIO.SetMode(RouteFor(factory), pin, modality, driver.reply, old(driver.trace));
              driver.trace == old(driver.trace) + s.calls && res == s.result
    {
      var r := RouteFor(factory);
      match modality
      case Direction(mode, pull) =>
        var rc := driver.Invoke(Peripheral(r, Op.SetMode(pin, Definitions.ModeValue(mode))));
        rc := driver.Invoke(Peripheral(r, Op.SetPullUpDown(pin, Definitions.PullValue(pull))));
        res := Success(());
      case PwmHardware(freq, duty) =>
        res := ZeroChecked(r, Op.HardwarePWM(pin, freq, duty));
      case PwmSoftware(freq, duty) =>
        if r.Daemon? {
          res := ZeroChecked(r, Op.SetPWMFrequency(pin, freq));
          if res.Success? {
            res := ZeroChecked(r, Op.SetPWMDutycycle(pin, duty));
          }
        } else {
          var rc := driver.Invoke(Peripheral(Direct, Op.SetMode(pin, Definitions.ModeValue(Definitions.Output))));
          rc := driver.Invoke(Peripheral(Direct, Op.SetPWMFrequency(pin, freq)));
          rc := driver.Invoke(Peripheral(Direct, Op.SetPWMDutycycle(pin, duty)));
          res := Success(());
        }
    }

    /** `write(pin:value:)`. */
    method Write(pin: uint32, value: bool) returns (res: Result<(), GPIO.GPIOError>)
      modifies driver
      ensures var s := GPIO.Write(RouteFor(factory), pin, value, driver.reply, old(driver.trace));
              driver.trace == old(driver.trace) + s.calls && res == s.result
    {
      res := ZeroChecked(RouteFor(factory), Op.Write(pin, GPIO.Bit(value)));
    }

    /** `read(pin:)`. */
    method Read(pin: uint32) returns (res: Result<bool, GPIO.GPIOError>)
      modifies driver
      ensures var s := GPIO.Read(RouteFor(factory), pin, driver.reply, old(driver.trace));
              driver.trace == old(driver.trace) + s.calls && res == s.result
    {
      var rc := driver.Invoke(Peripheral(RouteFor(factory), Op.Read(pin)));
      if rc < 0 {
        res := Failure(GPIO.ErrorOf(rc));
      } else {
        res := Success(rc != 0);
      }
    }

    /** `toggle(pin:)`. */
    method Toggle(pin: uint32) returns (res: Result<(), GPIO.GPIOError>)
      modifies driver
      ensures var s := GPIO.Toggle(RouteFor(factory), pin, driver.reply, old(driver.trace));
              driver.trace == old(driver.trace) + s.calls && res == s.result
    {
      var current := Read(pin);
      if current.Failure? {
        res := Failure(current.error);
      } else {
        res := Write(pin, !current.value);
      }
    }

    /** `pulse(pin:durationMicroseconds:)`. */
    method Pulse(pin: uint32, durationMicroseconds: uint32) returns (res: Result<(), GPIO.GPIOError>)
      modifies driver
      ensures var s := GPIO.Pulse(RouteFor(factory), pin, durationMicroseconds, driver.reply, old(driver.trace));
              driver.trace == old(driver.trace) + s.calls && res == s.result
    {
      res := Write(pin, true);
      if res.Success? {
        driver.Pause(durationMicroseconds);
        res := Write(pin, false);
      }
    }

    /** One iteration of the blink loop on route `r`, with `n` iterations left: either it
        throws, and that is how the remaining blink ends, or it issues a whole cycle after
        which the remaining `n - 1` iterations follow. */
    method BlinkCycle(r: Route, pin: uint32, onDuration: uint32, offDuration: uint32, ghost n: nat)
      returns (res: Result<(), GPIO.GPIOError>)
      requires n > 0
      modifies driver
      ensures var s := GPIO.Blink(r, pin, onDuration, offDuration, n, driver.reply, old(driver.trace));
              if res.Failure? then driver.trace == old(driver.trace) + s.calls && res == s.result
              else driver.trace == old(driver.trace) + GPIO.Cycle(r, pin, onDuration, offDuration) &&
                   s == Then(GPIO.Cycle(r, pin, onDuration, offDuration),
                             GPIO.Blink(r, pin, onDuration, offDuration, n - 1, driver.reply, driver.trace))
    {
      ghost var t := driver.trace;
      ghost var C := GPIO.Cycle(r, pin, onDuration, offDuration);
      GPIO.BlinkUnfold(r, pin, onDuration, offDuration, n, driver.reply, t);
      res := ZeroChecked(r, Op.Write(pin, 1));
      assert driver.trace == t + C[..1];
      if res.Failure? {
        return;
      }
      driver.Pause(onDuration);
      res := ZeroChecked(r, Op.Write(pin, 0));
      assert driver.trace == t + C[..3];
      if res.Failure? {
        return;
      }
      driver.Pause(offDuration);
      assert driver.trace == t + C;
    }

    /** `blink(pin:onDuration:offDuration:count:)`. */
    method Blink(pin: uint32, onDuration: uint32, offDuration: uint32, count: uint32) returns (res: Result<(), GPIO.GPIOError>)
      modifies driver
      ensures var s := GPIO.Blink(RouteFor(factory), pin, onDuration, offDuration, count as nat, driver.reply, old(driver.trace));
              driver.trace == old(driver.trace) + s.calls && res == s.result
    {
      var r := RouteFor(factory);
      ghost var t0 := driver.trace;
      ghost var whole := GPIO.Blink(r, pin, onDuration, offDuration, count as nat, driver.reply, t0);
      var left: nat := count as nat;
      while left > 0
        invariant t0 + whole.calls == driver.trace + GPIO.Blink(r, pin, onDuration, offDuration, left, driver.reply, driver.trace).calls
        invariant whole.result == GPIO.Blink(r, pin, onDuration, offDuration, left, driver.reply, driver.trace).result
      {
        ghost var t := driver.trace;
        res := BlinkCycle(r, pin, onDuration, offDuration, left);
        if res.Failure? {
          return;
        }
        ghost var C := GPIO.Cycle(r, pin, onDuration, offDuration);
        AppendAssociates(t, C, GPIO.Blink(r, pin, onDuration, offDuration, left - 1, driver.reply, driver.trace).calls);
        left := left - 1;
      }
      assert driver.trace + [] == driver.trace;
      res := Success(());
    }

    /** `setServoPulsewidth(pin:width:)`. */
    method SetServoPulsewidth(pin: uint32, width: uint32) returns (res: Result<(), GPIO.GPIOError>)
      modifies driver
      ensures var s := GPIO.SetServoPulsewidth(RouteFor(factory), pin, width, driver.reply, old(driver.trace));
              driver.trace == old(driver.trace) + s.calls && res == s.result
    {
      var rc := driver.Invoke(Peripheral(RouteFor(factory), Op.Servo(pin, width)));
      if rc < 0 {
        res := Failure(GPIO.ErrorOf(rc));
      } else {
        res := Success(());
      }
    }

    /** Releasing the handler: it has no `deinit` of its own, so only its token goes. */
    method Destroy()
      requires Wired() && !token.released && factory.Valid()
      modifies token, factory, driver
      ensures token.released && factory.Valid() && factory.alive == old(factory.alive)
      ensures ReleasedAfter(factory, old(factory.cache), old(factory.resource.pi), old(driver.trace), id)
    {
      token.Release();
    }
  }

  /** `I2CHandler`. */
  class I2CHandler {
    const factory: Factory
    const id: Uuid
    const token: Token
    const driver: Driver
    const handle: uint32

    ghost predicate Wired()
    {
      driver == factory.resource.driver && token.factory == factory && token.id == id
    }

    constructor (factory: Factory, id: Uuid, token: Token, handle: uint32)
      requires token.factory == factory && token.id == id
      ensures this.factory == factory && this.id == id && this.token == token && this.handle == handle && Wired()
    {
      this.factory := factory;
      this.id := id;
      this.token := token;
      this.handle := handle;
      driver := factory.resource.driver;
    }

    /** `init(bus:address:flags:factory:)`: the token is created first, so when the open
        fails and the initializer throws, releasing it unregisters `id`. */
    static method Open(factory: Factory, id: Uuid, bus: uint32, address: uint32, flags: uint32)
      returns (r: Result<I2CHandler, I2C.I2CError>)
      requires factory.alive && factory.Valid()
      modifies factory, factory.resource.driver
      ensures factory.alive && factory.Valid()
      ensures var open := I2C.Open(old(RouteFor(factory)), bus, address, flags, factory.resource.driver.reply, old(factory.resource.driver.trace));
              var t1 := old(factory.resource.driver.trace) + open.calls;
              && (open.result.Failure? ==>
                    r == Failure(open.result.error) && factory.Unregistered(old(factory.cache), old(factory.resource.pi), t1, id))
              && (open.result.Success? ==>
                    r.Success? && fresh(r.value) && fresh(r.value.token) && r.value.handle == open.result.value &&
                    r.value.factory == factory && r.value.id == id && r.value.Wired() && !r.value.token.released &&
                    factory.cache == old(factory.cache) && factory.resource.driver.trace == t1)
    {
      var route := RouteFor(factory);
      var token := new Token(factory, id);
      var h := factory.resource.driver.Invoke(Peripheral(route, Op.I2COpen(bus, address, flags)));
      if h < 0 {
        token.Release();
        r := Failure(I2C.ErrorOf(h));
      } else {
        var handler := new I2CHandler(factory, id, token, h as uint32);
        r := Success(handler);
      }
    }

    /** `writeByte(_:)`. */
    method WriteByte(value: uint32) returns (res: Result<(), I2C.I2CError>)
      modifies driver
      ensures var s := I2C.WriteByte(RouteFor(factory), handle, value, driver.reply, old(driver.trace));
              driver.trace == old(driver.trace) + s.calls && res == s.result
    {
      var rc := driver.Invoke(Peripheral(RouteFor(factory), Op.I2CWriteByte(handle, value)));
      if rc < 0 {
        res := Failure(I2C.ErrorOf(rc));
      } else {
        res := Success(());
      }
    }

    /** `writeByte(register:value:)`. */
    method WriteByteData(register: uint32, value: uint32) returns (res: Result<(), I2C.I2CError>)
      modifies driver
      ensures var s := I2C.WriteByteData(RouteFor(factory), handle, register, value, driver.reply, old(driver.trace));
              driver.trace == old(driver.trace) + s.calls && res == s.result
    {
      var rc := driver.Invoke(Peripheral(RouteFor(factory), Op.I2CWriteByteData(handle, register, value)));
      if rc < 0 {
        res := Failure(I2C.ErrorOf(rc));
      } else {
        res := Success(());
      }
    }

    /** `readByte()`. */
    method ReadByte() returns (res: Result<uint32, I2C.I2CError>)
      modifies driver
      ensures var s := I2C.ReadByte(RouteFor(factory), handle, driver.reply, old(driver.trace));
              driver.trace == old(driver.trace) + s.calls && res == s.result
    {
      var rc := driver.Invoke(Peripheral(RouteFor(factory), Op.I2CReadByte(handle)));
      if rc < 0 {
        res := Failure(I2C.ErrorOf(rc));
      } else {
        res := Success(rc as uint32);
      }
    }

    /** `readByte(register:)`. */
    method ReadByteData(register: uint32) returns (res: Result<uint32, I2C.I2CError>)
      modifies driver
      ensures var s := I2C.ReadByteData(RouteFor(factory), handle, register, driver.reply, old(driver.trace));
              driver.trace == old(driver.trace) + s.calls && res == s.result
    {
      var rc := driver.Invoke(Peripheral(RouteFor(factory), Op.I2CReadByteData(handle, register)));
      if rc < 0 {
        res := Failure(I2C.ErrorOf(rc));
      } else {
        res := Success(rc as uint32);
      }
    }

    /** Releasing the handler: `deinit` closes the handle, then the token goes. */
    method Destroy()
      requires Wired() && !token.released && factory.Valid()
      modifies token, factory, driver
      ensures token.released && factory.Valid() && factory.alive == old(factory.alive)
      ensures ReleasedAfter(factory, old(factory.cache), old(factory.resource.pi),
                            old(driver.trace) + [Peripheral(old(RouteFor(factory)), Op.I2CClose(handle))], id)
    {
      var rc := driver.Invoke(Peripheral(RouteFor(factory), Op.I2CClose(handle)));
      token.Release();
    }
  }

  /** `SPIHandler`. */
  class SPIHandler {
    const factory: Factory
    const id: Uuid
    const token: Token
    const driver: Driver
    const handle: uint32

    ghost predicate Wired()
    {
      driver == factory.resource.driver && token.factory == factory && token.id == id
    }

    constructor (factory: Factory, id: Uuid, token: Token, handle: uint32)
      requires token.factory == factory && token.id == id
      ensures this.factory == factory && this.id == id && this.token == token && this.handle == handle && Wired()
    {
      this.factory := factory;
      this.id := id;
      this.token := token;
      this.handle := handle;
      driver := factory.resource.driver;
    }

    /** `init(channel:baudRate:flags:factory:)`: as for I2C, a failed open releases the token. */
    static method Open(factory: Factory, id: Uuid, channel: uint32, baudRate: uint32, flags: uint32)
      returns (r: Result<SPIHandler, SPI.SPIError>)
      requires factory.alive && factory.Valid()
      modifies factory, factory.resource.driver
      ensures factory.alive && factory.Valid()
      ensures var open := SPI.Open(old(RouteFor(factory)), channel, baudRate, flags, factory.resource.driver.reply, old(factory.resource.driver.trace));
              var t1 := old(factory.resource.driver.trace) + open.calls;
              && (open.result.Failure? ==>
                    r == Failure(open.result.error) && factory.Unregistered(old(factory.cache), old(factory.resource.pi), t1, id))
              && (open.result.Success? ==>
                    r.Success? && fresh(r.value) && fresh(r.value.token) && r.value.handle == open.result.value &&
                    r.value.factory == factory && r.value.id == id && r.value.Wired() && !r.value.token.released &&
                    factory.cache == old(factory.cache) && factory.resource.driver.trace == t1)
    {
      var route := RouteFor(factory);
      var token := new Token(factory, id);
      var h := factory.resource.driver.Invoke(Peripheral(route, Op.SPIOpen(channel, baudRate, flags)));
      if h < 0 {
        token.Release();
        r := Failure(SPI.ErrorOf(h));
      } else {
        var handler := new SPIHandler(factory, id, token, h as uint32);
        r := Success(handler);
      }
    }

    /** `transfer(_:)`: copies `data` into a transmit buffer and a zeroed receive buffer of the same length. */
    method Transfer(data: seq<uint8>) returns (res: Result<seq<uint8>, SPI.SPIError>)
      requires |data| <= UINT32_MAX
      modifies driver
      ensures var s := SPI.Transfer(RouteFor(factory), handle, data, driver.reply, driver.fill, old(driver.trace));
              driver.trace == old(driver.trace) + s.calls && res == s.result
    {
      var tx := new uint8[|data|](j requires 0 <= j < |data| => data[j]);
      var rx := new uint8[|data|](j => 0);
      assert tx[..] == data;
      var rc := driver.Transfer(RouteFor(factory), handle, tx, rx, |data| as uint32);
      if rc < 0 {
        res := Failure(SPI.ErrorOf(rc));
      } else {
        res := Success(rx[..]);
      }
    }

    /** Releasing the handler: `deinit` closes the handle, then the token goes. */
    method Destroy()
      requires Wired() && !token.released && factory.Valid()
      modifies token, factory, driver
      ensures token.released && factory.Valid() && factory.alive == old(factory.alive)
      ensures ReleasedAfter(factory, old(factory.cache), old(factory.resource.pi),
                            old(driver.trace) + [Peripheral(old(RouteFor(factory)), Op.SPIClose(handle))], id)
    {
      var rc := driver.Invoke(Peripheral(RouteFor(factory), Op.SPIClose(handle)));
      token.Release();
    }
  }
}
