/**
 * The enums of Definitions.swift and their conversions to and from the C constants
 * of pigpio. The numeric values are those pigpio publishes for PI_INPUT ... PI_HIGH;
 * the proofs below use only that the constants of one enum are pairwise distinct.
 */
module Definitions {
  import opened Base

  const MODE_INPUT: uint32 := 0
  const MODE_OUTPUT: uint32 := 1
  const MODE_ALT0: uint32 := 4
  const MODE_ALT1: uint32 := 5
  const MODE_ALT2: uint32 := 6
  const MODE_ALT3: uint32 := 7
  const MODE_ALT4: uint32 := 3
  const MODE_ALT5: uint32 := 2

  const PUD_OFF: uint32 := 0
  const PUD_DOWN: uint32 := 1
  const PUD_UP: uint32 := 2

  const LEVEL_LOW: uint32 := 0
  const LEVEL_HIGH: uint32 := 1

  datatype GPIOMode = Input | Output | Alt0 | Alt1 | Alt2 | Alt3 | Alt4 | Alt5

  datatype Pull = Off | Down | Up

  datatype Level = Low | High

  /** `GPIOMode.cValue`. */
  function ModeValue(m: GPIOMode): uint32
  {
    match m
    case Input => MODE_INPUT
    case Output => MODE_OUTPUT
    case Alt0 => MODE_ALT0
    case Alt1 => MODE_ALT1
    case Alt2 => MODE_ALT2
    case Alt3 => MODE_ALT3
    case Alt4 => MODE_ALT4
    case Alt5 => MODE_ALT5
  }

  /** `GPIOMode(cValue:)`: the mode whose constant is `v`, and nil for any other value. */
  function ModeOf(v: uint32): (r: Option<GPIOMode>)
    ensures r.Some? ==> ModeValue(r.value) == v
    ensures r.None? <==> forall m :: ModeValue(m) != v
  {
    if v == MODE_INPUT then Some(Input)
    else if v == MODE_OUTPUT then Some(Output)
    else if v == MODE_ALT0 then Some(Alt0)
    else if v == MODE_ALT1 then Some(Alt1)
    else if v == MODE_ALT2 then Some(Alt2)
    else if v == MODE_ALT3 then Some(Alt3)
    else if v == MODE_ALT4 then Some(Alt4)
    else if v == MODE_ALT5 then Some(Alt5)
    else None
  }

  /** Converting a mode to its constant and back gives the mode again. */
  lemma ModeRoundTrip(m: GPIOMode)
    ensures ModeOf(ModeValue(m)) == Some(m)
  {
  }

  /** `Pull.cValue`. */
  function PullValue(p: Pull): uint32
  {
    match p
    case Off => PUD_OFF
    case Down => PUD_DOWN
    case Up => PUD_UP
  }

  /** `Pull(cValue:)`: the setting whose constant is `v`, and nil for any other value. */
  function PullOf(v: uint32): (r: Option<Pull>)
    ensures r.Some? ==> PullValue(r.value) == v
    ensures r.None? <==> v !in {PUD_OFF, PUD_DOWN, PUD_UP}
  {
    if v == PUD_OFF then Some(Off)
    else if v == PUD_DOWN then Some(Down)
    else if v == PUD_UP then Some(Up)
    else None
  }

  lemma PullRoundTrip(p: Pull)
    ensures PullOf(PullValue(p)) == Some(p)
  {
  }

  /** `Level.cValue`. */
  function LevelValue(l: Level): uint32
  {
    match l
    case Low => LEVEL_LOW
    case High => LEVEL_HIGH
  }

  /** `Level(cValue:)`: the level whose constant is `v`, and nil for any other value. */
  function LevelOf(v: uint32): (r: Option<Level>)
    ensures r.Some? ==> LevelValue(r.value) == v
    ensures r.None? <==> v != LEVEL_LOW && v != LEVEL_HIGH
  {
    if v == LEVEL_LOW then Some(Low)
    else if v == LEVEL_HIGH then Some(High)
    else None
  }

  lemma LevelRoundTrip(l: Level)
    ensures LevelOf(LevelValue(l)) == Some(l)
  {
  }
}
