/**
 * GPIO.swift as pure functions: the error classification, and for each operation of
 * `GPIOHandler` the calls it issues on a route and what it returns or throws, given
 * the driver's answers. The class `Handlers.GPIOHandler` is proved to do exactly this.
 */
module GPIO {
  import opened Base
  import opened Clib
  import opened Definitions

  // pigpio's PI_BAD_GPIO, PI_NOT_HPWM_GPIO, PI_BAD_HPWM_DUTY, PI_BAD_HPWM_FREQ, PI_HPWM_ILLEGAL
  const BAD_GPIO: int32 := -3
  const NOT_HPWM_GPIO: int32 := -95
  const BAD_HPWM_DUTY: int32 := -97
  const BAD_HPWM_FREQ: int32 := -96
  const HPWM_ILLEGAL: int32 := -100

  const KnownCodes: set<int32> := {BAD_GPIO, NOT_HPWM_GPIO, BAD_HPWM_DUTY, BAD_HPWM_FREQ, HPWM_ILLEGAL}

  datatype GPIOError = BadGPIOPin | NotHPWMGPIO | BadHPWMDuty | BadHPWMFreq | HPWMIllegal | UnknownError

  /** The code a known error case stands for. */
  function CodeOf(e: GPIOError): Option<int32>
  {
    match e
    case BadGPIOPin => Some(BAD_GPIO)
    case NotHPWMGPIO => Some(NOT_HPWM_GPIO)
    case BadHPWMDuty => Some(BAD_HPWM_DUTY)
    case BadHPWMFreq => Some(BAD_HPWM_FREQ)
    case HPWMIllegal => Some(HPWM_ILLEGAL)
    case UnknownError => None
  }

  /** `GPIOError(cValue:)`: a known code gives the case standing for it, every other code `unknownError`. */
  function ErrorOf(code: int32): (e: GPIOError)
    ensures e != UnknownError ==> CodeOf(e) == Some(code)
    ensures e == UnknownError <==> code !in KnownCodes
  {
    if code == BAD_GPIO then BadGPIOPin
    else if code == NOT_HPWM_GPIO then NotHPWMGPIO
    else if code == BAD_HPWM_DUTY then BadHPWMDuty
    else if code == BAD_HPWM_FREQ then BadHPWMFreq
    else if code == HPWM_ILLEGAL then HPWMIllegal
    else UnknownError
  }

  /** Every known case is recovered from its own code. */
  lemma ErrorRoundTrip(e: GPIOError)
    requires e != UnknownError
    ensures ErrorOf(CodeOf(e).value) == e
  {
  }

  datatype GPIOModality =
    | Direction(mode: GPIOMode, pull: Pull)
    | PwmHardware(freq: uint32, duty: uint32)
    | PwmSoftware(freq: uint32, duty: uint32)

  /** The level argument of a write: `value ? 1 : 0`. */
  function Bit(value: bool): uint32
  {
    if value then 1 else 0
  }

  /** One call on route `r` that fails unless its code is exactly 0. */
  function ZeroChecked(r: Route, op: Op, o: Oracle, t: seq<Call>): Step<(), GPIOError>
  {
    var c := Peripheral(r, op);
    var rc := o(t + [c]);
    Step([c], if rc == 0 then Success(()) else Failure(ErrorOf(rc)))
  }

  /** One call on route `r` that fails iff its code is negative. */
  function SignChecked(r: Route, op: Op, o: Oracle, t: seq<Call>): Step<(), GPIOError>
  {
    var c := Peripheral(r, op);
    var rc := o(t + [c]);
    Step([c], if rc >= 0 then Success(()) else Failure(ErrorOf(rc)))
  }

  /** `setMode(pin:modality:)`. */
  function SetMode(r: Route, pin: uint32, m: GPIOModality, o: Oracle, t: seq<Call>): Step<(), GPIOError>
  {
    match m
    case Direction(mode, pull) =>
      Step([Peripheral(r, Op.SetMode(pin, ModeValue(mode))), Peripheral(r, SetPullUpDown(pin, PullValue(pull)))], Success(()))
    case PwmHardware(freq, duty) =>
      ZeroChecked(r, HardwarePWM(pin, freq, duty), o, t)
    case PwmSoftware(freq, duty) =>
      if r.Daemon? then
        var f := ZeroChecked(r, SetPWMFrequency(pin, freq), o, t);
        if f.result.Failure? then f
        else Then(f.calls, ZeroChecked(r, SetPWMDutycycle(pin, duty), o, t + f.calls))
      else
        Step([Peripheral(Direct, Op.SetMode(pin, ModeValue(Output))),
              Peripheral(Direct, SetPWMFrequency(pin, freq)),
              Peripheral(Direct, SetPWMDutycycle(pin, duty))], Success(()))
  }

  /** `write(pin:value:)`. */
  function Write(r: Route, pin: uint32, value: bool, o: Oracle, t: seq<Call>): Step<(), GPIOError>
  {
    ZeroChecked(r, Op.Write(pin, Bit(value)), o, t)
  }

  /** `read(pin:)`. */
  function Read(r: Route, pin: uint32, o: Oracle, t: seq<Call>): Step<bool, GPIOError>
  {
    var c := Peripheral(r, Op.Read(pin));
    var rc := o(t + [c]);
    Step([c], if rc >= 0 then Success(rc != 0) else Failure(ErrorOf(rc)))
  }

  /** `toggle(pin:)`. */
  function Toggle(r: Route, pin: uint32, o: Oracle, t: seq<Call>): Step<(), GPIOError>
  {
    var rd := Read(r, pin, o, t);
    match rd.result
    case Failure(e) => Step(rd.calls, Failure(e))
    case Success(v) => Then(rd.calls, Write(r, pin, !v, o, t + rd.calls))
  }

  /** `pulse(pin:durationMicroseconds:)`. */
  function Pulse(r: Route, pin: uint32, micros: uint32, o: Oracle, t: seq<Call>): Step<(), GPIOError>
  {
    var hi := Write(r, pin, true, o, t);
    if hi.result.Failure? then hi
    else Then(hi.calls + [Sleep(micros)], Write(r, pin, false, o, t + hi.calls + [Sleep(micros)]))
  }

  /** `blink(pin:onDuration:offDuration:count:)` with `n` iterations left. */
  function Blink(r: Route, pin: uint32, on: uint32, off: uint32, n: nat, o: Oracle, t: seq<Call>): Step<(), GPIOError>
    decreases n
  {
    if n == 0 then Step([], Success(()))
    else
      var hi := Write(r, pin, true, o, t);
      if hi.result.Failure? then hi
      else
        var t1 := t + hi.calls + [Sleep(on)];
        var lo := Write(r, pin, false, o, t1);
        if lo.result.Failure? then Then(hi.calls + [Sleep(on)], lo)
        else Then(hi.calls + [Sleep(on)] + lo.calls + [Sleep(off)],
                  Blink(r, pin, on, off, n - 1, o, t1 + lo.calls + [Sleep(off)]))
  }

  /** `setServoPulsewidth(pin:width:)`. */
  function SetServoPulsewidth(r: Route, pin: uint32, width: uint32, o: Oracle, t: seq<Call>): Step<(), GPIOError>
  {
    SignChecked(r, Servo(pin, width), o, t)
  }

  // ---------------------------------------------------------------------------
  // Properties of the operations

  /** A direction setting issues set-mode then set-pull, and never throws whatever they answer. */
  lemma DirectionNeverThrows(r: Route, pin: uint32, mode: GPIOMode, pull: Pull, o: Oracle, t: seq<Call>)
    ensures SetMode(r, pin, Direction(mode, pull), o, t).calls
         == [Peripheral(r, Op.SetMode(pin, ModeValue(mode))), Peripheral(r, SetPullUpDown(pin, PullValue(pull)))]
    ensures SetMode(r, pin, Direction(mode, pull), o, t).result.Success?
  {
  }

  /** Software PWM through the daemon: if setting the frequency answers anything but 0
      (including a positive value), the call throws and the duty cycle is never set;
      otherwise the duty call follows and decides the outcome. */
  lemma SoftwarePwmDaemonStopsAtFrequency(pi: int32, pin: uint32, freq: uint32, duty: uint32, o: Oracle, t: seq<Call>)
    ensures var s := SetMode(Daemon(pi), pin, PwmSoftware(freq, duty), o, t);
            var f := Peripheral(Daemon(pi), SetPWMFrequency(pin, freq));
            var d := Peripheral(Daemon(pi), SetPWMDutycycle(pin, duty));
            if o(t + [f]) != 0 then s == Step([f], Failure(ErrorOf(o(t + [f]))))
            else s.calls == [f, d] && (s.result.Success? <==> o(t + [f, d]) == 0)
                 && (s.result.Failure? ==> s.result.error == ErrorOf(o(t + [f, d])))
  {
    var f := Peripheral(Daemon(pi), SetPWMFrequency(pin, freq));
    var d := Peripheral(Daemon(pi), SetPWMDutycycle(pin, duty));
    assert t + [f] + [d] == t + [f, d];
  }

  /** Software PWM without the daemon: output mode, frequency, duty, unchecked. */
  lemma SoftwarePwmDirectUnchecked(pin: uint32, freq: uint32, duty: uint32, o: Oracle, t: seq<Call>)
    ensures SetMode(Direct, pin, PwmSoftware(freq, duty), o, t)
         == Step([Peripheral(Direct, Op.SetMode(pin, MODE_OUTPUT)),
                  Peripheral(Direct, SetPWMFrequency(pin, freq)),
                  Peripheral(Direct, SetPWMDutycycle(pin, duty))], Success(()))
  {
  }

  /** Toggle writes the negation of the level it read; a failed read issues no write. */
  lemma ToggleWritesNegation(r: Route, pin: uint32, o: Oracle, t: seq<Call>)
    ensures var rd := Peripheral(r, Op.Read(pin));
            var rc := o(t + [rd]);
            var s := Toggle(r, pin, o, t);
            if rc < 0 then s == Step([rd], Failure(ErrorOf(rc)))
            else s == Then([rd], Write(r, pin, rc == 0, o, t + [rd]))
  {
  }

  /** Pulse writes high, sleeps, writes low; a failed high write issues neither the sleep nor the low write. */
  lemma PulseHighSleepLow(r: Route, pin: uint32, micros: uint32, o: Oracle, t: seq<Call>)
    ensures var hi := Peripheral(r, Op.Write(pin, 1));
            var lo := Peripheral(r, Op.Write(pin, 0));
            var s := Pulse(r, pin, micros, o, t);
            if o(t + [hi]) != 0 then s == Step([hi], Failure(ErrorOf(o(t + [hi]))))
            else s.calls == [hi, Sleep(micros), lo]
                 && (s.result.Success? <==> o(t + [hi, Sleep(micros), lo]) == 0)
                 && (s.result.Failure? ==> s.result.error == ErrorOf(o(t + [hi, Sleep(micros), lo])))
  {
    var hi := Peripheral(r, Op.Write(pin, 1));
    var lo := Peripheral(r, Op.Write(pin, 0));
    assert t + [hi] + [Sleep(micros)] + [lo] == t + [hi, Sleep(micros), lo];
  }

  /** A servo call, unlike a write, fails only on a negative code. */
  lemma ServoFailsOnlyWhenNegative(r: Route, pin: uint32, width: uint32, o: Oracle, t: seq<Call>)
    ensures var c := Peripheral(r, Servo(pin, width));
            var s := SetServoPulsewidth(r, pin, width, o, t);
            s.calls == [c] && (s.result.Success? <==> o(t + [c]) >= 0)
            && (s.result.Failure? ==> s.result.error == ErrorOf(o(t + [c])))
  {
  }

  /** The four events of one blink iteration. */
  function Cycle(r: Route, pin: uint32, on: uint32, off: uint32): seq<Call>
  {
    [Peripheral(r, Op.Write(pin, 1)), Sleep(on), Peripheral(r, Op.Write(pin, 0)), Sleep(off)]
  }

  /** Every write among `calls` before position `upto` was answered 0. */
  ghost predicate WritesSucceeded(o: Oracle, t: seq<Call>, calls: seq<Call>, upto: nat)
    requires upto <= |calls|
  {
    forall j | 0 <= j < upto && calls[j].Peripheral? && calls[j].op.Write? :: o(t + calls[..j + 1]) == 0
  }

  /** One iteration of blink, stated on the pattern: the first write, then the second,
      each checked for exactly 0, then the remaining iterations after the whole cycle. */
  lemma BlinkUnfold(r: Route, pin: uint32, on: uint32, off: uint32, n: nat, o: Oracle, t: seq<Call>)
    requires n > 0
    ensures var C := Cycle(r, pin, on, off);
            var s := Blink(r, pin, on, off, n, o, t);
            if o(t + C[..1]) != 0 then s == Step(C[..1], Failure(ErrorOf(o(t + C[..1]))))
            else if o(t + C[..3]) != 0 then s == Step(C[..3], Failure(ErrorOf(o(t + C[..3]))))
            else s == Then(C, Blink(r, pin, on, off, n - 1, o, t + C))
  {
    var C := Cycle(r, pin, on, off);
    assert t + C[..1] == t + [C[0]];
    assert t + C[..3] == t + [C[0]] + [Sleep(on)] + [C[2]];
    assert t + C == t + [C[0]] + [Sleep(on)] + [C[2]] + [Sleep(off)];
  }

  /** Blink issues a prefix of `count` repetitions of the on/off cycle. */
  lemma {:induction false} BlinkFollowsCycle(r: Route, pin: uint32, on: uint32, off: uint32, n: nat, o: Oracle, t: seq<Call>)
    ensures var s := Blink(r, pin, on, off, n, o, t);
            && |s.calls| <= 4 * n
            && forall j | 0 <= j < |s.calls| :: s.calls[j] == Cycle(r, pin, on, off)[j % 4]
    decreases n
  {
    if n > 0 {
      var C := Cycle(r, pin, on, off);
      var s := Blink(r, pin, on, off, n, o, t);
      BlinkUnfold(r, pin, on, off, n, o, t);
      if o(t + C[..1]) == 0 && o(t + C[..3]) == 0 {
        var rest := Blink(r, pin, on, off, n - 1, o, t + C);
        BlinkFollowsCycle(r, pin, on, off, n - 1, o, t + C);
        forall j | 0 <= j < |s.calls|
          ensures s.calls[j] == C[j % 4]
        {
          if j >= 4 {
            assert s.calls[j] == rest.calls[j - 4];
          }
        }
      }
    }
  }

  /** The two writes of a cycle answered 0 is what `WritesSucceeded` asks of the cycle. */
  lemma CycleWritesSucceeded(r: Route, pin: uint32, on: uint32, off: uint32, o: Oracle, t: seq<Call>, upto: nat)
    requires upto <= 4
    requires upto > 0 ==> o(t + Cycle(r, pin, on, off)[..1]) == 0
    requires upto > 2 ==> o(t + Cycle(r, pin, on, off)[..3]) == 0
    ensures WritesSucceeded(o, t, Cycle(r, pin, on, off), upto)
  {
    var C := Cycle(r, pin, on, off);
    forall j | 0 <= j < upto && C[j].Peripheral? && C[j].op.Write?
      ensures o(t + C[..j + 1]) == 0
    {
      assert j == 0 || j == 2;
    }
  }

  /** Writes answered 0 in a prefix and in what follows it are writes answered 0 in the whole. */
  lemma WritesSucceededAppend(o: Oracle, t: seq<Call>, a: seq<Call>, b: seq<Call>, upto: nat)
    requires upto <= |b|
    requires WritesSucceeded(o, t, a, |a|) && WritesSucceeded(o, t + a, b, upto)
    ensures WritesSucceeded(o, t, a + b, |a| + upto)
  {
    var s := a + b;
    forall j | 0 <= j < |a| + upto && s[j].Peripheral? && s[j].op.Write?
      ensures o(t + s[..j + 1]) == 0
    {
      if j >= |a| {
        assert s[j] == b[j - |a|];
        assert t + s[..j + 1] == t + a + b[..j - |a| + 1];
      } else {
        assert s[j] == a[j];
        assert s[..j + 1] == a[..j + 1];
      }
    }
  }

  /** When blink succeeds it issued all `2 * count` writes, each answered 0. */
  lemma {:induction false} BlinkSuccess(r: Route, pin: uint32, on: uint32, off: uint32, n: nat, o: Oracle, t: seq<Call>)
    ensures var s := Blink(r, pin, on, off, n, o, t);
            s.result.Success? ==> |s.calls| == 4 * n && WritesSucceeded(o, t, s.calls, |s.calls|)
    decreases n
  {
    if n > 0 {
      var C := Cycle(r, pin, on, off);
      BlinkUnfold(r, pin, on, off, n, o, t);
      if o(t + C[..1]) == 0 && o(t + C[..3]) == 0 {
        var rest := Blink(r, pin, on, off, n - 1, o, t + C);
        BlinkSuccess(r, pin, on, off, n - 1, o, t + C);
        if rest.result.Success? {
          CycleWritesSucceeded(r, pin, on, off, o, t, 4);
          WritesSucceededAppend(o, t, C, rest.calls, |rest.calls|);
        }
      }
    }
  }

  /** A throwing step stopped right after a write answered non-zero, throwing that write's
      error, and every earlier write was answered 0. */
  ghost predicate StopsAtFailedWrite(o: Oracle, t: seq<Call>, s: Step<(), GPIOError>)
  {
    s.result.Failure? ==>
      && |s.calls| > 0
      && s.calls[|s.calls| - 1].Peripheral? && s.calls[|s.calls| - 1].op.Write?
      && o(t + s.calls) != 0
      && s.result.error == ErrorOf(o(t + s.calls))
      && WritesSucceeded(o, t, s.calls, |s.calls| - 1)
  }

  lemma StopsAtFailedWriteAfter(o: Oracle, t: seq<Call>, prefix: seq<Call>, rest: Step<(), GPIOError>)
    requires WritesSucceeded(o, t, prefix, |prefix|) && StopsAtFailedWrite(o, t + prefix, rest)
    ensures StopsAtFailedWrite(o, t, Then(prefix, rest))
  {
    if rest.result.Failure? {
      var s := Then(prefix, rest);
      WritesSucceededAppend(o, t, prefix, rest.calls, |rest.calls| - 1);
      assert t + s.calls == t + prefix + rest.calls;
      assert s.calls[|s.calls| - 1] == rest.calls[|rest.calls| - 1];
    }
  }

  /** When blink throws, the last call it issued is a write answered non-zero, the error
      is that write's, and every earlier write was answered 0: no write follows a failed one. */
  lemma {:induction false} BlinkFailure(r: Route, pin: uint32, on: uint32, off: uint32, n: nat, o: Oracle, t: seq<Call>)
    ensures StopsAtFailedWrite(o, t, Blink(r, pin, on, off, n, o, t))
    decreases n
  {
    if n > 0 {
      var C := Cycle(r, pin, on, off);
      BlinkUnfold(r, pin, on, off, n, o, t);
      if o(t + C[..1]) != 0 {
        assert WritesSucceeded(o, t, C[..1], 0);
      } else if o(t + C[..3]) != 0 {
        CycleWritesSucceeded(r, pin, on, off, o, t, 2);
        assert WritesSucceeded(o, t, C[..3], 2) by {
          assert C[..3][..1] == C[..1];
          assert C[..3][..2] == C[..2];
        }
      } else {
        BlinkFailure(r, pin, on, off, n - 1, o, t + C);
        CycleWritesSucceeded(r, pin, on, off, o, t, 4);
        StopsAtFailedWriteAfter(o, t, C, Blink(r, pin, on, off, n - 1, o, t + C));
      }
    }
  }

  // ---------------------------------------------------------------------------
  // A driver double that stores levels, for the round trips of write, read and toggle

  /** The level last written to `pin` in `t`, as 0 or 1 (0 if none). */
  function LastLevel(t: seq<Call>, pin: uint32): int32
  {
    if |t| == 0 then 0
    else
      var c := t[|t| - 1];
      if c.Peripheral? && c.op.Write? && c.op.pin == pin then (if c.op.level == 0 then 0 else 1)
      else LastLevel(t[..|t| - 1], pin)
  }

  /** Answers a read with the level last written to that pin, and every other call with 0. */
  function Echo(t: seq<Call>): int32
  {
    if |t| == 0 then 0
    else
      var c := t[|t| - 1];
      if c.Peripheral? && c.op.Read? then LastLevel(t[..|t| - 1], c.op.pin) else 0
  }

  /** With a driver that stores levels, a write succeeds and a read right after it returns the value written. */
  lemma WriteThenRead(r: Route, pin: uint32, value: bool, t: seq<Call>)
    ensures var w := Write(r, pin, value, Echo, t);
            w.result.Success? && Read(r, pin, Echo, t + w.calls).result == Success(value)
  {
    var w := Write(r, pin, value, Echo, t);
    var rd := Peripheral(r, Op.Read(pin));
    assert (t + w.calls + [rd])[..|t| + 1] == t + w.calls;
  }

  /** With a driver that stores levels, writing `value`, toggling and reading back gives `!value`. */
  lemma ToggleAfterWrite(r: Route, pin: uint32, value: bool, t: seq<Call>)
    ensures var w := Write(r, pin, value, Echo, t);
            var g := Toggle(r, pin, Echo, t + w.calls);
            g.result.Success? && Read(r, pin, Echo, t + w.calls + g.calls).result == Success(!value)
  {
    var w := Write(r, pin, value, Echo, t);
    WriteThenRead(r, pin, value, t);
    var t1 := t + w.calls;
    var rd := Peripheral(r, Op.Read(pin));
    var w2 := Write(r, pin, !value, Echo, t1 + [rd]);
    assert (t1 + [rd] + w2.calls + [rd])[..|t1| + 2] == t1 + [rd] + w2.calls;
    assert t1 + ([rd] + w2.calls) == t1 + [rd] + w2.calls;
  }
}
