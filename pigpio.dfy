/**
 * Pigpio.swift as pure functions: what `PigpioLibrary.initialize`, `isInitialized`
 * and `shutdown` issue and how they change `pi`, and what `PigpioFactory.register`
 * and `unregister` do to the cache and when they start or stop the library. The
 * classes `Handlers.Library` and `Handlers.Factory` are proved to do exactly this.
 */
module Pigpio {
  import opened Base
  import opened Clib

  /** `PigpioMode`: in-process, or through the pigpiod daemon at an optional address and port. */
  datatype PigpioMode = DirectMode | DaemonMode(address: Option<string>, port: Option<string>)

  /** `PigpioFactory.isDaemon`. */
  predicate IsDaemon(mode: PigpioMode)
  {
    mode.DaemonMode?
  }

  /** What `initialize()` returned, the new `pi`, and the calls it issued. */
  datatype Started = Started(ok: bool, pi: int32, calls: seq<Call>)

  /** `PigpioLibrary.initialize()`. It never checks whether the library is already started. */
  function Initialize(mode: PigpioMode, pi: int32, o: Oracle, t: seq<Call>): Started
  {
    match mode
    case DirectMode =>
      Started(o(t + [Initialise]) >= 0, pi, [Initialise])
    case DaemonMode(address, port) =>
      var rc := o(t + [Start(address, port)]);
      if rc < 0 then Started(false, pi, [Start(address, port)])
      else Started(true, rc, [Start(address, port)])
  }

  /** `PigpioLibrary.isInitialized`: in direct mode it calls `gpioInitialise()` again;
      through the daemon it is `pi != 0`. */
  function IsInitialized(mode: PigpioMode, pi: int32, o: Oracle, t: seq<Call>): (bool, seq<Call>)
  {
    match mode
    case DirectMode => (o(t + [Initialise]) >= 0, [Initialise])
    case DaemonMode(_, _) => (pi != 0, [])
  }

  /** `PigpioLibrary.shutdown()`: terminates or stops if `isInitialized`; `pi` is left as it is. */
  function Shutdown(mode: PigpioMode, pi: int32, o: Oracle, t: seq<Call>): seq<Call>
  {
    var (active, probe) := IsInitialized(mode, pi, o, t);
    if !active then probe
    else probe + [if mode.DirectMode? then Terminate else Stop(pi)]
  }

  /** Through the daemon, `initialize()` succeeds iff the connect answers a non-negative
      handle, stores it in `pi` only then, and leaves `pi` unchanged on failure. */
  lemma DaemonInitialize(address: Option<string>, port: Option<string>, pi: int32, o: Oracle, t: seq<Call>)
    ensures var s := Initialize(DaemonMode(address, port), pi, o, t);
            var rc := o(t + [Start(address, port)]);
            && s.calls == [Start(address, port)]
            && (s.ok <==> rc >= 0)
            && s.pi == (if rc >= 0 then rc else pi)
  {
  }

  /** Through the daemon, `shutdown()` stops the connection `pi` iff `pi != 0`. So the sentinel
      `Int32.min` that `pi` starts with counts as started, and a connection whose handle is 0 is
      never stopped. */
  lemma DaemonShutdown(address: Option<string>, port: Option<string>, pi: int32, o: Oracle, t: seq<Call>)
    ensures Shutdown(DaemonMode(address, port), pi, o, t) == if pi != 0 then [Stop(pi)] else []
    ensures IsInitialized(DaemonMode(address, port), INT32_MIN, o, t).0
  {
  }

  /** In direct mode, `shutdown()` calls `gpioInitialise()` and then terminates iff that answered non-negative. */
  lemma DirectShutdown(pi: int32, o: Oracle, t: seq<Call>)
    ensures Shutdown(DirectMode, pi, o, t)
         == if o(t + [Initialise]) >= 0 then [Initialise, Terminate] else [Initialise]
  {
  }

  /** `register`: store the handler under `id` (overwriting any entry) and report whether the
      cache now has exactly one entry, which is when `initialize()` is called. That is the case
      iff the cache held no other id before: on the first handler, and again whenever the sole
      id is registered a second time. */
  function Register<V>(cache: map<Uuid, V>, id: Uuid, v: V): (r: (map<Uuid, V>, bool))
    ensures id in r.0 && r.0[id] == v
    ensures r.0.Keys == cache.Keys + {id}
    ensures forall k :: k in cache && k != id ==> k in r.0 && r.0[k] == cache[k]
    ensures |r.0| == if id in cache then |cache| else |cache| + 1
    ensures r.1 <==> |r.0| == 1
    ensures r.1 <==> cache.Keys <= {id}
  {
    var c := cache[id := v];
    SoleKey(c.Keys, id);
    (c, |c| == 1)
  }

  /** `unregister`: remove `id` if present and report whether the cache is now empty, which
      is when `shutdown()` is called, also when `id` was never there. */
  function Unregister<V>(cache: map<Uuid, V>, id: Uuid): (r: (map<Uuid, V>, bool))
    ensures id !in r.0
    ensures r.0.Keys == cache.Keys - {id}
    ensures forall k :: k in r.0 ==> r.0[k] == cache[k]
    ensures |r.0| == if id in cache then |cache| - 1 else |cache|
    ensures r.1 <==> r.0 == map[]
    ensures r.1 <==> cache.Keys <= {id}
  {
    var c := cache - {id};
    assert c == map[] <==> c.Keys == {};
    (c, |c| == 0)
  }

  /** A set that holds `x` has one element iff it holds nothing else. */
  lemma SoleKey<T>(keys: set<T>, x: T)
    requires x in keys
    ensures |keys| == 1 <==> keys <= {x}
  {
    if keys <= {x} {
      assert keys == {x};
    } else {
      var k :| k in keys && k != x;
      assert {k, x} <= keys;
      assert |{k, x}| == 2;
      assert keys == {k, x} + (keys - {k, x});
    }
  }

  // ---------------------------------------------------------------------------
  // Sequences of registrations and unregistrations

  datatype Event = Add(id: Uuid) | Remove(id: Uuid)

  /** A factory and its library after some events: the cache, `pi`, every call issued so far,
      and how many times `initialize()` and `shutdown()` were called. */
  datatype System = System(cache: map<Uuid, ()>, pi: int32, trace: seq<Call>, starts: nat, stops: nat)

  /** A fresh factory over a fresh library. */
  const Fresh: System := System(map[], INT32_MIN, [], 0, 0)

  function Apply(mode: PigpioMode, s: System, e: Event, o: Oracle): System
  {
    match e
    case Add(id) =>
      var (c, start) := Register(s.cache, id, ());
      if start then
        var i := Initialize(mode, s.pi, o, s.trace);
        System(c, i.pi, s.trace + i.calls, s.starts + 1, s.stops)
      else s.(cache := c)
    case Remove(id) =>
      var (c, stop) := Unregister(s.cache, id);
      if stop then System(c, s.pi, s.trace + Shutdown(mode, s.pi, o, s.trace), s.starts, s.stops + 1)
      else s.(cache := c)
  }

  function Run(mode: PigpioMode, s: System, evs: seq<Event>, o: Oracle): System
    decreases |evs|
  {
    if evs == [] then s else Run(mode, Apply(mode, s, evs[0], o), evs[1..], o)
  }

  /** Each handler registers under a fresh id and unregisters once, while registered; an id
      that was never registered (a failed I2C or SPI open) is only removed while the cache
      holds some other handler. */
  ghost predicate WellBehaved(cache: map<Uuid, ()>, evs: seq<Event>)
    decreases |evs|
  {
    evs == [] ||
    match evs[0]
    case Add(id) => id !in cache && WellBehaved(Register(cache, id, ()).0, evs[1..])
    case Remove(id) => (id in cache || cache != map[]) && WellBehaved(Unregister(cache, id).0, evs[1..])
  }

  function Occupied(cache: map<Uuid, ()>): int
  {
    if cache == map[] then 0 else 1
  }

  /** When each id is registered once and unregistered once, `initialize()` and `shutdown()`
      alternate: `initialize()` runs exactly on the empty-to-non-empty edges and `shutdown()`
      exactly on the non-empty-to-empty edges. */
  lemma {:induction false} StartsAndStopsAlternate(mode: PigpioMode, s: System, evs: seq<Event>, o: Oracle)
    requires WellBehaved(s.cache, evs)
    ensures var f := Run(mode, s, evs, o);
            f.starts - f.stops - Occupied(f.cache) == s.starts - s.stops - Occupied(s.cache)
    decreases |evs|
  {
    if evs != [] {
      var s1 := Apply(mode, s, evs[0], o);
      if evs[0].Add? {
        var id := evs[0].id;
        assert s1.cache == Register(s.cache, id, ()).0;
        assert s.cache == map[] <==> s.cache.Keys <= {id};
        assert s1.starts == s.starts + (if s.cache == map[] then 1 else 0) && s1.stops == s.stops;
        assert Occupied(s1.cache) == 1;
      } else {
        var id := evs[0].id;
        assert s1.cache == Unregister(s.cache, id).0;
        assert s1.stops == s.stops + (if s1.cache == map[] then 1 else 0) && s1.starts == s.starts;
        assert Occupied(s.cache) == 1;
      }
      StartsAndStopsAlternate(mode, s1, evs[1..], o);
    }
  }

  /** Some call in `trace` at or after `from` is the daemon connect of `mode`, answered with `pi`. */
  ghost predicate ConnectAnswered(mode: PigpioMode, o: Oracle, trace: seq<Call>, from: nat, pi: int32)
  {
    mode.DaemonMode? && pi >= 0 &&
    exists j :: from <= j < |trace| && trace[j] == Start(mode.address, mode.port) && o(trace[..j + 1]) == pi
  }

  /** One event only appends calls, and changes `pi` only to a non-negative answer to a connect. */
  lemma ApplyExtends(mode: PigpioMode, s: System, e: Event, o: Oracle)
    ensures var s1 := Apply(mode, s, e, o);
            && |s.trace| <= |s1.trace| && s1.trace[..|s.trace|] == s.trace
            && (s1.pi == s.pi || ConnectAnswered(mode, o, s1.trace, |s.trace|, s1.pi))
  {
    var s1 := Apply(mode, s, e, o);
    if s1.pi != s.pi {
      var j := |s.trace|;
      assert s1.trace == s.trace + [Start(mode.address, mode.port)];
      assert s1.trace[..j + 1] == s1.trace;
      assert s1.trace[j] == Start(mode.address, mode.port);
    }
  }

  /** A connect found in a later part of a trace is still there once the trace grows. */
  lemma ConnectAnsweredExtends(mode: PigpioMode, o: Oracle, t1: seq<Call>, t2: seq<Call>, from1: nat, from: nat, pi: int32)
    requires ConnectAnswered(mode, o, t1, from1, pi)
    requires |t1| <= |t2| && t2[..|t1|] == t1 && from <= from1
    ensures ConnectAnswered(mode, o, t2, from, pi)
  {
    var j :| from1 <= j < |t1| && t1[j] == Start(mode.address, mode.port) && o(t1[..j + 1]) == pi;
    assert t2[j] == t1[j];
    assert t2[..j + 1] == t1[..j + 1];
  }

  /** Over any events, the calls issued only grow, and `pi` either keeps its value or is a
      handle that the daemon answered, non-negative, to a connect among the new calls. */
  lemma {:induction false} PiComesFromSuccessfulStart(mode: PigpioMode, s: System, evs: seq<Event>, o: Oracle)
    ensures var f := Run(mode, s, evs, o);
            && |s.trace| <= |f.trace| && f.trace[..|s.trace|] == s.trace
            && (f.pi == s.pi || ConnectAnswered(mode, o, f.trace, |s.trace|, f.pi))
    decreases |evs|
  {
    if evs != [] {
      var s1 := Apply(mode, s, evs[0], o);
      var f := Run(mode, s1, evs[1..], o);
      ApplyExtends(mode, s, evs[0], o);
      PiComesFromSuccessfulStart(mode, s1, evs[1..], o);
      assert f.trace[..|s.trace|] == f.trace[..|s1.trace|][..|s.trace|];
      if f.pi != s1.pi {
        ConnectAnsweredExtends(mode, o, f.trace, f.trace, |s1.trace|, |s.trace|, f.pi);
      } else if s1.pi != s.pi {
        ConnectAnsweredExtends(mode, o, s1.trace, f.trace, |s.trace|, |s.trace|, f.pi);
      }
    }
  }

  /** An oracle that answers every call with 0. */
  function AnswerZero(t: seq<Call>): int32
  {
    0
  }

  /** An oracle that answers every call with -1. */
  function AnswerFailure(t: seq<Call>): int32
  {
    -1
  }

  /** The factory's `isDaemon` and a handler's disagree until the first connect: in daemon
      mode `pi` is still `Int32.min`, so a handler built then (an I2C or SPI open runs before
      `register`) calls the direct entry points. */
  lemma UnstartedDaemonRoutesDirect(address: Option<string>, port: Option<string>)
    ensures IsDaemon(DaemonMode(address, port))
    ensures RouteOf(Fresh.pi) == Direct
  {
  }

  /** Registering the sole id a second time calls `initialize()` a second time. */
  lemma ReRegisteringSoleIdStartsAgain(mode: PigpioMode, id: Uuid, o: Oracle)
    ensures Run(mode, Fresh, [Add(id), Add(id)], o).starts == 2
  {
    var s1 := Apply(mode, Fresh, Add(id), o);
    assert s1.cache.Keys == {id};
    assert Run(mode, Fresh, [Add(id), Add(id)], o) == Run(mode, s1, [Add(id)], o);
  }

  /** Unregistering an id that was never registered, on an empty cache, calls `shutdown()`:
      the path a failed I2C or SPI open takes when it is the first handler. */
  lemma RemovingAbsentIdStops(mode: PigpioMode, id: Uuid, o: Oracle)
    ensures Run(mode, Fresh, [Remove(id)], o).stops == 1
  {
  }

  /** A daemon connection whose handle is 0 is never stopped: with every call answered 0,
      registering and unregistering one handler issues a connect and no stop. */
  lemma HandleZeroIsNeverStopped(address: Option<string>, port: Option<string>, id: Uuid)
    ensures Run(DaemonMode(address, port), Fresh, [Add(id), Remove(id)], AnswerZero).trace == [Start(address, port)]
  {
    var mode := DaemonMode(address, port);
    var o: Oracle := AnswerZero;
    var s1 := Apply(mode, Fresh, Add(id), o);
    assert s1.pi == 0 && s1.cache.Keys == {id};
    assert Run(mode, Fresh, [Add(id), Remove(id)], o) == Run(mode, s1, [Remove(id)], o);
  }

  /** A failed connect leaves `pi` at `Int32.min`, which counts as started, so the next
      `shutdown()` sends a stop for the sentinel. */
  lemma FailedStartIsStillStopped(address: Option<string>, port: Option<string>, id: Uuid)
    ensures Run(DaemonMode(address, port), Fresh, [Add(id), Remove(id)], AnswerFailure).trace
         == [Start(address, port), Stop(INT32_MIN)]
  {
    var mode := DaemonMode(address, port);
    var o: Oracle := AnswerFailure;
    var s1 := Apply(mode, Fresh, Add(id), o);
    assert s1.pi == INT32_MIN && s1.cache.Keys == {id};
    assert Run(mode, Fresh, [Add(id), Remove(id)], o) == Run(mode, s1, [Remove(id)], o);
  }
}
