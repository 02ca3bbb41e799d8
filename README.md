# SwiftPigpioWrapper, modelled in Dafny

SwiftPigpioWrapper is a Swift wrapper over the pigpio C library for Raspberry Pi GPIO, I2C and SPI.
This project models its core and proves properties of that model.

- **`PigpioLibrary`** starts and stops pigpio. It works either in process (`gpioInitialise` / `gpioTerminate`) or through the `pigpiod` daemon (`pigpio_start` / `pigpio_stop`). It keeps the daemon connection handle in `pi`.
- **`PigpioFactory`** hands out handlers. It keeps a cache from handler id to handler. The first entry added starts the library, and the cache becoming empty shuts it down.
- **`RegistrableToken`** unregisters its handler's id when it is released.
- **`GPIOHandler`, `I2CHandler` and `SPIHandler`** forward each operation to the daemon entry point when the factory's `pi` is non-negative, and to the direct entry point otherwise. They turn negative or non-zero status codes into the error enums of the wrapper.
- **`Definitions.swift`** maps the GPIO mode, pull and level enums to pigpio's constants and back.

How the model is built:

- **The driver.** pigpio itself is a `Clib.Driver`. Each call into the C library is one `Call` appended to its `trace`. The status code a call returns is whatever the oracle `reply` answers for the trace that ends with that call. The bytes an SPI transfer receives come from a second oracle, `fill`. A `usleep` is recorded in the trace as a `Sleep` event.
- **Pure functions, one per operation.** Every operation of the wrapper is first a pure function (`Pigpio`, `GPIO`, `I2C`, `SPI`). It gives the calls issued, in order, and the value returned or the error thrown.
- **Classes proved against them.** The classes of `Handlers` are then proved to append exactly those calls and to return exactly that result, so the lemmas about one operation's function hold of one call of the matching method. The lemmas about sequences of registrations (`Pigpio.Run`) are about a pure event model built from the same `Register`, `Unregister`, `Initialize` and `Shutdown` functions the factory methods are proved against.
- **Error constants.** The values of pigpio's error and mode constants are the ones pigpio publishes. The proofs only use the fact that they are pairwise distinct.

Files:

- **`base.dfy`**: integer widths, `Option` and `Result`.
- **`clib.dfy`**: the driver, calls and routes.
- **`definitions.dfy`**: `Definitions.swift`.
- **`pigpio.dfy`**: the library lifecycle and the cache arithmetic of `Pigpio.swift`, as functions, plus a model of sequences of registrations.
- **`gpio.dfy`, `i2c.dfy`, `spi.dfy`**: the handler operations and error classifications, as functions.
- **`handlers.dfy`**: all the classes. They sit in one module because the factory and its handlers refer to each other.

## Model

| member | source | states |
|---|---|---|
| Definitions.ModeOf | Sources/SwiftPigpioWrapper/Definitions.swift:22-34 | a mode is returned only for a value that is that mode's constant; nil exactly when no mode has the value |
| Definitions.ModeRoundTrip | Sources/SwiftPigpioWrapper/Definitions.swift:9-34 | converting any of the eight modes to its constant and back gives the same mode |
| Definitions.PullOf | Sources/SwiftPigpioWrapper/Definitions.swift:49-56 | a pull is returned only for its own constant; nil exactly for values outside {PUD_OFF, PUD_DOWN, PUD_UP} |
| Definitions.PullRoundTrip | Sources/SwiftPigpioWrapper/Definitions.swift:41-56 | converting off, down or up to its constant and back gives the same pull |
| Definitions.LevelOf | Sources/SwiftPigpioWrapper/Definitions.swift:70-76 | a level is returned only for its own constant; nil for every other value |
| Definitions.LevelRoundTrip | Sources/SwiftPigpioWrapper/Definitions.swift:63-76 | converting low or high to its constant and back gives the same level |
| GPIO.ErrorOf | Sources/SwiftPigpioWrapper/GPIO.swift:36-45 | a known case is produced only from its own code; the code is unknown exactly when it is none of the five GPIO codes |
| GPIO.ErrorRoundTrip | Sources/SwiftPigpioWrapper/GPIO.swift:36-45 | classifying the code of any known GPIO error gives that error back |
| GPIO.DirectionNeverThrows | Sources/SwiftPigpioWrapper/GPIO.swift:79-105 | a direction setting issues set-mode then set-pull on the chosen route and succeeds whatever they answer |
| GPIO.SoftwarePwmDaemonStopsAtFrequency | Sources/SwiftPigpioWrapper/GPIO.swift:116-120 | through the daemon, any frequency answer other than 0, positive included, throws its error with no duty call; otherwise the duty call follows and its answer decides the outcome |
| GPIO.SoftwarePwmDirectUnchecked | Sources/SwiftPigpioWrapper/GPIO.swift:121-125 | in direct mode, software PWM issues set-mode(output), frequency and duty, and always succeeds |
| GPIO.ToggleWritesNegation | Sources/SwiftPigpioWrapper/GPIO.swift:171-174 | toggle reads, then writes the negation of the level read; a failed read throws its error and writes nothing |
| GPIO.PulseHighSleepLow | Sources/SwiftPigpioWrapper/GPIO.swift:181-188 | pulse writes high, sleeps, writes low; a failed high write stops before the sleep; the outcome is the low write's |
| GPIO.ServoFailsOnlyWhenNegative | Sources/SwiftPigpioWrapper/GPIO.swift:216-224 | the servo call fails exactly on a negative code, with that code's error |
| GPIO.BlinkFollowsCycle | Sources/SwiftPigpioWrapper/GPIO.swift:197-209 | blink issues a prefix of `count` repetitions of write-high, sleep-on, write-low, sleep-off |
| GPIO.BlinkSuccess | Sources/SwiftPigpioWrapper/GPIO.swift:197-209 | a successful blink issued all `4 * count` events, so `2 * count` writes, each answered 0 |
| GPIO.BlinkFailure | Sources/SwiftPigpioWrapper/GPIO.swift:203-206 | a failed blink ends on a write answered non-zero, throws that write's error, and every earlier write succeeded |
| GPIO.WriteThenRead | Sources/SwiftPigpioWrapper/GPIO.swift:137-163 | with a driver that stores levels, a write succeeds and a read right after it returns the value written |
| GPIO.ToggleAfterWrite | Sources/SwiftPigpioWrapper/GPIO.swift:137-174 | with a driver that stores levels, write, toggle and read give back the negated value |
| I2C.ErrorOf | Sources/SwiftPigpioWrapper/I2CHandler.swift:16-25 | a known case is produced only from its own code; unknown exactly for codes outside the five I2C codes |
| I2C.ErrorRoundTrip | Sources/SwiftPigpioWrapper/I2CHandler.swift:16-25 | classifying the code of any known I2C error gives that error back |
| I2C.Checked | Sources/SwiftPigpioWrapper/I2CHandler.swift:63-108 | an I2C call issues exactly one call, succeeds iff the code is non-negative, returns the code unchanged, and otherwise throws its error |
| SPI.ErrorOf | Sources/SwiftPigpioWrapper/SPIHandler.swift:20-32 | a known case is produced only from its own code; unknown exactly for codes outside the eight SPI codes |
| SPI.ErrorRoundTrip | Sources/SwiftPigpioWrapper/SPIHandler.swift:20-32 | classifying the code of any known SPI error gives that error back |
| SPI.Open | Sources/SwiftPigpioWrapper/SPIHandler.swift:60-68 | the open issues one call; the handle is its code iff non-negative, otherwise that code's error is thrown |
| SPI.Transfer | Sources/SwiftPigpioWrapper/SPIHandler.swift:79-93 | the transfer sends `data` with its length as the count, throws iff the code is negative, and otherwise returns the filled receive buffer, exactly as long as `data` |
| Clib.RouteOf | Sources/SwiftPigpioWrapper/GPIO.swift:57-59 | daemon entry points are used iff the resource id is non-negative, and they are passed that id |
| Clib.Driver.Transfer | Sources/SwiftPigpioWrapper/SPIHandler.swift:82-90 | the transfer records `tx` as sent, fills `rx` in place with the received bytes, and leaves `tx` unchanged |
| Pigpio.DaemonInitialize | Sources/SwiftPigpioWrapper/Pigpio.swift:95-101 | daemon initialize succeeds iff the connect answers non-negative, and sets `pi` to that answer only then |
| Pigpio.DaemonShutdown | Sources/SwiftPigpioWrapper/Pigpio.swift:65-75 | daemon shutdown stops `pi` iff `pi != 0`; the initial `Int32.min` counts as initialized |
| Pigpio.DirectShutdown | Sources/SwiftPigpioWrapper/Pigpio.swift:106-111 | direct shutdown calls `gpioInitialise` and then terminates iff that answered non-negative |
| Pigpio.Register | Sources/SwiftPigpioWrapper/Pigpio.swift:171-179 | after register the id maps to the handler, other entries are unchanged, the size grows only for a new id, and initialize runs iff no other id was cached |
| Pigpio.Unregister | Sources/SwiftPigpioWrapper/Pigpio.swift:183-191 | after unregister the id is absent, the others are unchanged, and shutdown runs iff no other id was cached, absent id included |
| Pigpio.StartsAndStopsAlternate | Sources/SwiftPigpioWrapper/Pigpio.swift:171-191 | when each id is registered once while absent and removed while cached or while some other id is, starts minus stops always equals whether the cache is non-empty |
| Pigpio.PiComesFromSuccessfulStart | Sources/SwiftPigpioWrapper/Pigpio.swift:88-117 | over any events the trace only grows, and `pi` keeps its value or is a non-negative answer to a daemon connect |
| Pigpio.UnstartedDaemonRoutesDirect | Sources/SwiftPigpioWrapper/Pigpio.swift:149-161 | before the first connect the factory reports daemon mode, yet its `pi` routes handlers to the direct entry points |
| Handlers.FirstI2COpenIsDirect | Sources/SwiftPigpioWrapper/Pigpio.swift:239-250 | on a fresh daemon factory, the first call buildI2C makes is the direct `i2cOpen` with flags 0, before register connects to the daemon |
| Handlers.FirstSPIOpenIsDirect | Sources/SwiftPigpioWrapper/Pigpio.swift:218-231 | on a fresh daemon factory, the first call buildSPI makes is the direct `spiOpen` |
| Pigpio.ReRegisteringSoleIdStartsAgain | Sources/SwiftPigpioWrapper/Pigpio.swift:174-178 | registering the only cached id a second time calls initialize a second time |
| Pigpio.RemovingAbsentIdStops | Sources/SwiftPigpioWrapper/Pigpio.swift:183-191 | unregistering an id never registered, on an empty cache, calls shutdown |
| Pigpio.HandleZeroIsNeverStopped | Sources/SwiftPigpioWrapper/Pigpio.swift:73 | in one register and unregister of a single id in daemon mode, with every call answered 0, the connection (handle 0) is opened and never stopped |
| Pigpio.FailedStartIsStillStopped | Sources/SwiftPigpioWrapper/Pigpio.swift:98-99 | when the first connect of a fresh factory fails, the shutdown that follows sends a stop for `Int32.min` |
| Handlers.RouteFor | Sources/SwiftPigpioWrapper/GPIO.swift:57-65 | a handler uses daemon entry points iff its factory still exists with non-negative `pi`, never in direct mode |
| Handlers.Library.constructor | Sources/SwiftPigpioWrapper/Pigpio.swift:62-81 | a new library has `pi == Int32.min` |
| Handlers.Library.Initialize | Sources/SwiftPigpioWrapper/Pigpio.swift:88-103 | issues the calls of `Pigpio.Initialize`, returns its outcome and sets `pi` as it says |
| Handlers.Library.IsInitialized | Sources/SwiftPigpioWrapper/Pigpio.swift:68-75 | issues the calls of `Pigpio.IsInitialized` and returns its answer |
| Handlers.Library.Shutdown | Sources/SwiftPigpioWrapper/Pigpio.swift:106-117 | issues the calls of `Pigpio.Shutdown` and leaves `pi` as it is |
| Handlers.Factory.constructor | Sources/SwiftPigpioWrapper/Pigpio.swift:165-167 | a new factory has an empty cache |
| Handlers.Factory.Register | Sources/SwiftPigpioWrapper/Pigpio.swift:171-179 | the cache and library change as `Pigpio.Register` and `Pigpio.Initialize` say, keeping the factory invariant |
| Handlers.Factory.Unregister | Sources/SwiftPigpioWrapper/Pigpio.swift:183-191 | the cache and library change as `Pigpio.Unregister` and `Pigpio.Shutdown` say, keeping the factory invariant |
| Handlers.Factory.BuildGPIOHandler | Sources/SwiftPigpioWrapper/Pigpio.swift:199-209 | returns the cached GPIO handler and changes nothing, or creates and registers one; afterwards it is the only GPIO handler in the cache |
| Handlers.BuildGPIOHandlerTwice | Sources/SwiftPigpioWrapper/Pigpio.swift:199-209 | two calls of buildGPIOHandler give the same handler |
| Handlers.Factory.BuildI2C | Sources/SwiftPigpioWrapper/Pigpio.swift:239-250 | opens with flags 0 on the route in force before registration; on failure only the token's unregister follows, on success the handler is registered |
| Handlers.Factory.BuildSPI | Sources/SwiftPigpioWrapper/Pigpio.swift:218-231 | as for I2C, with the SPI open |
| Handlers.Factory.Discard | Sources/SwiftPigpioWrapper/Pigpio.swift:259 | once the factory is gone, weak references to it read nil |
| Handlers.Token.constructor | Sources/SwiftPigpioWrapper/Pigpio.swift:266-269 | a token holds its factory and id |
| Handlers.Token.Release | Sources/SwiftPigpioWrapper/Pigpio.swift:271-273 | unregisters its id exactly once if the factory still exists, and otherwise changes nothing |
| Handlers.GPIOHandler.constructor | Sources/SwiftPigpioWrapper/GPIO.swift:61-66 | a new handler owns a fresh token for its id |
| Handlers.GPIOHandler.SetMode | Sources/SwiftPigpioWrapper/GPIO.swift:77-127 | issues exactly the calls of `GPIO.SetMode` on the handler's route and returns its result |
| Handlers.GPIOHandler.Write | Sources/SwiftPigpioWrapper/GPIO.swift:137-145 | issues the call of `GPIO.Write`; succeeds iff the code is 0 |
| Handlers.GPIOHandler.Read | Sources/SwiftPigpioWrapper/GPIO.swift:154-163 | issues the call of `GPIO.Read`; returns `rc != 0` when `rc >= 0` |
| Handlers.GPIOHandler.Toggle | Sources/SwiftPigpioWrapper/GPIO.swift:171-174 | issues the calls of `GPIO.Toggle` and returns its result |
| Handlers.GPIOHandler.Pulse | Sources/SwiftPigpioWrapper/GPIO.swift:181-188 | issues the calls of `GPIO.Pulse` and returns its result |
| Handlers.GPIOHandler.Blink | Sources/SwiftPigpioWrapper/GPIO.swift:197-209 | the loop issues exactly the calls of `GPIO.Blink` with `count` iterations and returns its result |
| Handlers.GPIOHandler.SetServoPulsewidth | Sources/SwiftPigpioWrapper/GPIO.swift:216-224 | issues the call of `GPIO.SetServoPulsewidth` and returns its result |
| Handlers.GPIOHandler.Destroy | Sources/SwiftPigpioWrapper/GPIO.swift:52-66 | releasing the handler releases only its token and leaves the factory alive as it was |
| Handlers.I2CHandler.constructor | Sources/SwiftPigpioWrapper/I2CHandler.swift:43-58 | the handler stores the handle it is given |
| Handlers.I2CHandler.Open | Sources/SwiftPigpioWrapper/I2CHandler.swift:43-58 | creates the token, opens on the route in force, stores the handle on success; on failure throws and the released token unregisters the id |
| Handlers.I2CHandler.WriteByte | Sources/SwiftPigpioWrapper/I2CHandler.swift:63-68 | issues the call of `I2C.WriteByte` with its own handle; throws iff the code is negative |
| Handlers.I2CHandler.WriteByteData | Sources/SwiftPigpioWrapper/I2CHandler.swift:76-85 | passes handle, register and value; throws iff the code is negative |
| Handlers.I2CHandler.ReadByte | Sources/SwiftPigpioWrapper/I2CHandler.swift:91-95 | returns the code unchanged when non-negative, throws otherwise |
| Handlers.I2CHandler.ReadByteData | Sources/SwiftPigpioWrapper/I2CHandler.swift:102-109 | returns the code unchanged when non-negative, throws otherwise |
| Handlers.I2CHandler.Destroy | Sources/SwiftPigpioWrapper/I2CHandler.swift:111-117 | closes exactly its own handle on the route in force, then releases the token; the factory stays alive as it was |
| Handlers.SPIHandler.constructor | Sources/SwiftPigpioWrapper/SPIHandler.swift:50-69 | the handler stores the handle it is given |
| Handlers.SPIHandler.Open | Sources/SwiftPigpioWrapper/SPIHandler.swift:50-69 | creates the token, opens on the route in force, stores the handle on success; on failure throws and the released token unregisters the id |
| Handlers.SPIHandler.Transfer | Sources/SwiftPigpioWrapper/SPIHandler.swift:79-93 | sends a copy of `data` and returns the buffer the driver filled, as `SPI.Transfer` says |
| Handlers.SPIHandler.Destroy | Sources/SwiftPigpioWrapper/SPIHandler.swift:95-101 | closes exactly its own handle on the route in force, then releases the token; the factory stays alive as it was |

## Left out

- Concurrency is not modelled. `NSLock`, `Sendable` and the unlocked cache read in `buildGPIOHandler` are absent; register and unregister are atomic sequential methods.
- Automatic reference counting is not modelled. ARC releases happen through explicit `Destroy`, `Release` and `Discard` calls. Three consequences:
  - a cached box whose weak reference has already become nil is not represented, and neither is the crash of `as!` on it;
  - the model does not track whether a handler has been destroyed, so a destroyed handler's methods can still be called;
  - only the token's `released` flag keeps a handler from being destroyed twice.
- Timing is not modelled. `usleep` is recorded as a `Sleep` event.
- `UUID()` generation is a parameter of the build methods. Its uniqueness appears only in the lemmas of `Pigpio` that assume well-behaved ids.
- Direct-mode `isInitialized` calls `gpioInitialise()` again. Its answer is an oracle value like every other call.
- Re-reading `resourceId()` per C call is not modelled; a handler computes its route once per operation. Sequentially the value cannot change in between, because no operation of a handler registers, unregisters or starts the library.
- pigpio itself, the constant `pigpio.h` and the shim header `Sources/Clibpigpio/include/pigpio_shims.h` are not part of this model. They become the `Driver` oracles and named constants.
- `Sources/SwiftPigpioWrapper/PIN.swift`, `Examples/Example/main.swift`, `Package.swift` and the test target are not part of this model. They hold a pin table, a demo, build settings and tests against APIs that do not exist.
- `SPIMode` in `Definitions.swift` is left out. Its conversions are commented out in the source.
- The default arguments of the Swift API are written out at the call sites. These are `PigpioFactory(with:)` defaulting to direct mode, `.daemon` with address and port nil, `.direction` with pull `.off`, the I2C flags 0, and the SPI baud rate 1,000,000 and flags 0.
- `PigpioFactory` accepts any `PigpioResource`. The model fixes the resource to `Handlers.Library`, the only conforming type in the source.
- Handlers.SPIHandler.Transfer: requires `data.count <= UInt32.max`, because the source's `UInt32(data.count)` traps beyond that.
- Factory.IsDaemon and Factory.ResourceId are plain getters without a contract of their own. `Pigpio.UnstartedDaemonRoutesDirect` and `Handlers.RouteFor` state what they mean for routing.
