/**
 * The sampling loop of arduinocode.cpp: an eight-slot array of running minima
 * over the inputs of two ADS1115 converters, a 50-second measuring phase and a
 * send phase that waits 10 seconds and then posts the eight voltages of the
 * minima. `millis()`, the converter readings and the outcome of the connect are
 * inputs of each pass.
 */
module Sampler {
  import opened Wrappers

  /** `int16_t` */
  type Int16 = x: int | -0x8000 <= x < 0x8000

  /** The width of `unsigned long` on the ESP8266: 32 bits. */
  const Modulus: int := 0x1_0000_0000

  /** `unsigned long` */
  type U32 = x: int | 0 <= x < 0x1_0000_0000

  /** `INT16_MAX`: the slot of a channel that has not been lowered since the last reset. */
  const NoReading: Int16 := 0x7FFF

  /** Length of the measuring phase, in milliseconds. */
  const MeasureWindow: int := 50000

  /** Pause before the send phase tries to post, in milliseconds. */
  const SendPause: int := 10000

  /**
   * `currentTime - measureStartTime` in unsigned 32-bit arithmetic: the number of
   * milliseconds that takes the start to now around the 32-bit clock.
   */
  function Elapsed(now: U32, start: U32): (e: U32)
    ensures (start + e) % Modulus == now
  {
    (now - start) % Modulus
  }

  /** Channels 0-3 are inputs 0-3 of the first converter, channels 4-7 inputs 0-3 of the second. */
  function ChannelReading(ads1: seq<Int16>, ads2: seq<Int16>, channel: int): (r: Int16)
    requires |ads1| == 4 && |ads2| == 4 && 0 <= channel < 8
    ensures r == [ads1, ads2][channel / 4][channel % 4]
  {
    if channel < 4 then ads1[channel] else ads2[channel - 4]
  }

  /** The minima after one measuring pass: each slot lowered to that pass's reading when it is smaller. */
  function Lowered(mins: seq<Int16>, ads1: seq<Int16>, ads2: seq<Int16>): (after: seq<Int16>)
    requires |mins| == 8 && |ads1| == 4 && |ads2| == 4
    ensures |after| == 8
    ensures forall c :: 0 <= c < 8 ==>
      && after[c] <= mins[c]
      && after[c] <= ChannelReading(ads1, ads2, c)
      && (after[c] == mins[c] || after[c] == ChannelReading(ads1, ads2, c))
  {
    seq(8, c requires 0 <= c < 8 =>
      var reading := ChannelReading(ads1, ads2, c);
      if reading < mins[c] then reading else mins[c])
  }

  function Abs(x: int): nat {
    if x < 0 then -x else x
  }

  /**
   * The voltage posted for a minimum, in millivolts: 0 for a slot still at
   * `INT16_MAX`, otherwise `abs(min) * 0.1875`. The factor is 3/16 exactly, and
   * every product is a multiple of 1/16 below 2^13, so the `float` of the source
   * holds it without rounding.
   */
  function Voltage(m: Int16): (v: real)
    ensures 0.0 <= v <= 6144.0
  {
    if m == NoReading then 0.0 else Abs(m) as real * 0.1875
  }

  /** The eight voltages X1, X2, Y1, Y2, D1, D2, Z1, Z2 in channel order. */
  function VoltagesOf(mins: seq<Int16>): seq<real>
    requires |mins| == 8
  {
    seq(8, i requires 0 <= i < 8 => Voltage(mins[i]))
  }

  /** All eight slots at `INT16_MAX`: the state after start-up and after each send. */
  function Unlowered(): (mins: seq<Int16>)
    ensures |mins| == 8 && forall c :: 0 <= c < 8 ==> mins[c] == NoReading
  {
    seq(8, _ => NoReading)
  }

  /** The variables `loop()` keeps from one call to the next. */
  datatype SamplerState = SamplerState(minAdc: seq<Int16>, measuring: bool, measureStartTime: U32)

  /** The state `setup()` leaves: measuring, timed from the `millis()` it read. */
  function Initial(millis: U32): (s: SamplerState)
    ensures s.measuring && s.measureStartTime == millis
    ensures |s.minAdc| == 8 && forall c :: 0 <= c < 8 ==> s.minAdc[c] == NoReading
  {
    SamplerState(Unlowered(), true, millis)
  }

  /**
   * One call of `loop()`: the new state, and the eight voltages when a send
   * reached the server.
   */
  function Step(s: SamplerState, now: U32, ads1: seq<Int16>, ads2: seq<Int16>, connected: bool)
    : (r: (SamplerState, Option<seq<real>>))
    requires |s.minAdc| == 8 && |ads1| == 4 && |ads2| == 4
    ensures |r.0.minAdc| == 8
  {
    var elapsed := Elapsed(now, s.measureStartTime);
    if s.measuring then
      if elapsed < MeasureWindow then (s.(minAdc := Lowered(s.minAdc, ads1, ads2)), None)
      else (s.(measuring := false, measureStartTime := now), None)
    else if elapsed < SendPause then (s, None)
    else if connected then (SamplerState(Unlowered(), true, now), Some(VoltagesOf(s.minAdc)))
    else (s, None)
  }

  /** The voltages of eight minima, computed slot by slot as the `for` loop of the send phase does. */
  method Voltages(mins: array<Int16>) returns (voltage: seq<real>)
    requires mins.Length == 8
    ensures voltage == VoltagesOf(mins[..])
  {
    voltage := [];
    for i := 0 to 8
      invariant |voltage| == i
      invariant forall k :: 0 <= k < i ==> voltage[k] == Voltage(mins[k])
    {
      voltage := voltage + [Voltage(mins[i])];
    }
  }

  /** The sampler: the static `minAdc` array of `loop()` and the globals `measuring` and `measureStartTime`. */
  class Sampler {
    var minAdc: array<Int16>
    var measuring: bool
    var measureStartTime: U32

    ghost predicate Valid()
      reads this
    {
      minAdc.Length == 8
    }

    function State(): SamplerState
      reads this, minAdc
    {
      SamplerState(minAdc[..], measuring, measureStartTime)
    }

    /** `setup()` after the converters started, with `millis()` as a parameter. */
    constructor Setup(millis: U32)
      ensures Valid() && fresh(minAdc)
      ensures State() == Initial(millis)
    {
      minAdc := new Int16[8](_ => NoReading);
      measureStartTime := millis;
      measuring := true;
    }

    /** One call of `loop()`. */
    method Loop(currentTime: U32, ads1: seq<Int16>, ads2: seq<Int16>, connected: bool)
      returns (posted: Option<seq<real>>)
      requires Valid() && |ads1| == 4 && |ads2| == 4
      modifies this, minAdc
      ensures Valid() && minAdc == old(minAdc)
      ensures (State(), posted) == Step(old(State()), currentTime, ads1, ads2, connected)
    {
      posted := None;
      if measuring {
        if Elapsed(currentTime, measureStartTime) < MeasureWindow {
          ghost var before := minAdc[..];
          for channel := 0 to 8
            modifies minAdc
            invariant forall c :: 0 <= c < channel ==> minAdc[c] == Lowered(before, ads1, ads2)[c]
            invariant forall c :: channel <= c < 8 ==> minAdc[c] == before[c]
          {
            var adcValue: Int16;
            if channel < 4 {
              adcValue := ads1[channel];
            } else {
              adcValue := ads2[channel - 4];
            }
            if adcValue < minAdc[channel] {
              minAdc[channel] := adcValue;
            }
          }
          assert minAdc[..] == Lowered(before, ads1, ads2);
        } else {
          measuring := false;
          measureStartTime := currentTime;
        }
      } else if Elapsed(currentTime, measureStartTime) >= SendPause {
        var voltage := Voltages(minAdc);
        if connected {
          for i := 0 to 8
            modifies minAdc
            invariant forall k :: 0 <= k < i ==> minAdc[k] == NoReading
          {
            minAdc[i] := NoReading;
          }
          assert minAdc[..] == Unlowered();
          measuring := true;
          measureStartTime := currentTime;
          posted := Some(voltage);
        }
      }
    }
  }

  // ---------------------------------------------------------------------------
  // Lemmas

  /**
   * Unsigned subtraction measures true time across a wrap of `millis()`: for
   * instants t0 <= t1 less than 2^32 ms apart, the elapsed time computed from
   * their 32-bit clock values is t1 - t0.
   */
  lemma ElapsedAcrossWrap(t0: nat, t1: nat)
    requires t0 <= t1 < t0 + Modulus
    ensures Elapsed(t1 % Modulus, t0 % Modulus) == t1 - t0
  {
    var q0, q1 := t0 / Modulus, t1 / Modulus;
    var d := t1 % Modulus - t0 % Modulus;
    assert d == (t1 - t0) - (q1 - q0) * Modulus;
    if d < 0 {
      assert q1 - q0 == 1;
      assert d + Modulus == t1 - t0;
    } else {
      assert q1 == q0;
    }
  }

  /**
   * A measuring phase that began at true time t0 ends on a pass at t1 exactly
   * when t1 - t0 has reached 50 seconds, whether or not the clock wrapped.
   */
  lemma MeasuringEndsAfterWindow(s: SamplerState, t0: nat, t1: nat, ads1: seq<Int16>, ads2: seq<Int16>, connected: bool)
    requires |s.minAdc| == 8 && |ads1| == 4 && |ads2| == 4
    requires s.measuring && s.measureStartTime == t0 % Modulus
    requires t0 <= t1 < t0 + Modulus
    ensures var r := Step(s, t1 % Modulus, ads1, ads2, connected).0;
      !r.measuring <==> t1 - t0 >= MeasureWindow
  {
    ElapsedAcrossWrap(t0, t1);
  }

  /**
   * A send phase that began at true time t0 posts, once the server accepts the
   * connection, exactly when t1 - t0 has reached 10 seconds.
   */
  lemma SendWaitsForPause(s: SamplerState, t0: nat, t1: nat, ads1: seq<Int16>, ads2: seq<Int16>)
    requires |s.minAdc| == 8 && |ads1| == 4 && |ads2| == 4
    requires !s.measuring && s.measureStartTime == t0 % Modulus
    requires t0 <= t1 < t0 + Modulus
    ensures Step(s, t1 % Modulus, ads1, ads2, true).1.Some? <==> t1 - t0 >= SendPause
  {
    ElapsedAcrossWrap(t0, t1);
  }

  /** A pass of the measuring phase lowers every slot to the smaller of its minimum and its reading. */
  lemma MeasuringPass(s: SamplerState, now: U32, ads1: seq<Int16>, ads2: seq<Int16>, connected: bool)
    requires |s.minAdc| == 8 && |ads1| == 4 && |ads2| == 4
    requires s.measuring && Elapsed(now, s.measureStartTime) < MeasureWindow
    ensures var (r, posted) := Step(s, now, ads1, ads2, connected);
      && r.measuring && r.measureStartTime == s.measureStartTime && posted == None
      && forall c :: 0 <= c < 8 ==>
           && r.minAdc[c] <= s.minAdc[c] && r.minAdc[c] <= ChannelReading(ads1, ads2, c)
           && (r.minAdc[c] == s.minAdc[c] || r.minAdc[c] == ChannelReading(ads1, ads2, c))
  {
  }

  /**
   * The pass that ends measuring takes no reading: whatever the converters would
   * give, the minima stay, `measuring` turns false and the timer restarts now.
   */
  lemma EndOfMeasuring(s: SamplerState, now: U32, ads1: seq<Int16>, ads2: seq<Int16>,
                       other1: seq<Int16>, other2: seq<Int16>, connected: bool)
    requires |s.minAdc| == 8 && |ads1| == 4 && |ads2| == 4 && |other1| == 4 && |other2| == 4
    requires s.measuring && Elapsed(now, s.measureStartTime) >= MeasureWindow
    ensures Step(s, now, ads1, ads2, connected) == Step(s, now, other1, other2, connected)
    ensures var (r, posted) := Step(s, now, ads1, ads2, connected);
      r == SamplerState(s.minAdc, false, now) && posted == None
  {
  }

  /** While the pause of the send phase runs, a pass changes nothing and posts nothing. */
  lemma PauseChangesNothing(s: SamplerState, now: U32, ads1: seq<Int16>, ads2: seq<Int16>, connected: bool)
    requires |s.minAdc| == 8 && |ads1| == 4 && |ads2| == 4
    requires !s.measuring && Elapsed(now, s.measureStartTime) < SendPause
    ensures Step(s, now, ads1, ads2, connected) == (s, None)
  {
  }

  /**
   * A send that reaches the server posts the voltages of the minima and starts a
   * new measuring phase from fresh minima, timed from now.
   */
  lemma SuccessfulSend(s: SamplerState, now: U32, ads1: seq<Int16>, ads2: seq<Int16>)
    requires |s.minAdc| == 8 && |ads1| == 4 && |ads2| == 4
    requires !s.measuring && Elapsed(now, s.measureStartTime) >= SendPause
    ensures var (r, posted) := Step(s, now, ads1, ads2, true);
      && r == Initial(now)
      && posted.Some? && |posted.value| == 8
      && forall c :: 0 <= c < 8 ==> posted.value[c] == Voltage(s.minAdc[c])
  {
  }

  /** A connect that fails keeps the minima and the timer, so the next pass tries to send again. */
  lemma FailedConnectRetries(s: SamplerState, now: U32, later: U32, ads1: seq<Int16>, ads2: seq<Int16>)
    requires |s.minAdc| == 8 && |ads1| == 4 && |ads2| == 4
    requires !s.measuring && Elapsed(now, s.measureStartTime) >= SendPause
    ensures Step(s, now, ads1, ads2, false) == (s, None)
    ensures Elapsed(later, s.measureStartTime) >= SendPause ==> Step(s, later, ads1, ads2, true).1.Some?
  {
  }

  /**
   * The voltage is 3/16 of the absolute minimum, it is 0 exactly for a minimum of
   * 0 or of `INT16_MAX`, and a genuine reading of 32767 reports the same 0 as a
   * channel that was never lowered.
   */
  lemma VoltageInSixteenths(m: Int16)
    ensures m != NoReading ==> Voltage(m) == (3 * Abs(m)) as real / 16.0
    ensures Voltage(m) == 0.0 <==> m == 0 || m == NoReading
    ensures m == NoReading ==> Voltage(m) == Voltage(Unlowered()[0])
  {
  }

  // ---------------------------------------------------------------------------
  // A run of passes

  /** The inputs of one pass: `millis()`, the two converters' four inputs, and the connect outcome. */
  datatype Inputs = Inputs(now: U32, ads1: seq<Int16>, ads2: seq<Int16>, connected: bool)

  predicate WellFormedInputs(ticks: seq<Inputs>) {
    forall k :: 0 <= k < |ticks| ==> |ticks[k].ads1| == 4 && |ticks[k].ads2| == 4
  }

  /** Repeated calls of `loop()`: the final state and every post, in order. */
  function Run(s: SamplerState, ticks: seq<Inputs>): (r: (SamplerState, seq<seq<real>>))
    requires |s.minAdc| == 8 && WellFormedInputs(ticks)
    ensures |r.0.minAdc| == 8
    decreases |ticks|
  {
    if ticks == [] then (s, [])
    else
      var (next, posted) := Step(s, ticks[0].now, ticks[0].ads1, ticks[0].ads2, ticks[0].connected);
      var (last, rest) := Run(next, ticks[1..]);
      (last, (if posted.Some? then [posted.value] else []) + rest)
  }

  /** The reading a pass gives for a channel. */
  function ReadingOf(t: Inputs, channel: int): Int16
    requires |t.ads1| == 4 && |t.ads2| == 4 && 0 <= channel < 8
  {
    ChannelReading(t.ads1, t.ads2, channel)
  }

  /**
   * Through a measuring phase, each slot holds the minimum of what it held at
   * the start and every reading of its channel since: no larger than any of
   * them, and equal to one of them. Nothing is posted and the timer stays.
   */
  lemma {:induction false} MeasuringKeepsMinimum(s: SamplerState, ticks: seq<Inputs>)
    requires |s.minAdc| == 8 && WellFormedInputs(ticks) && s.measuring
    requires forall k :: 0 <= k < |ticks| ==> Elapsed(ticks[k].now, s.measureStartTime) < MeasureWindow
    ensures var (r, posts) := Run(s, ticks);
      && r.measuring && r.measureStartTime == s.measureStartTime && posts == []
      && forall c :: 0 <= c < 8 ==>
           && r.minAdc[c] <= s.minAdc[c]
           && (forall k :: 0 <= k < |ticks| ==> r.minAdc[c] <= ReadingOf(ticks[k], c))
           && (r.minAdc[c] == s.minAdc[c] || exists k :: 0 <= k < |ticks| && r.minAdc[c] == ReadingOf(ticks[k], c))
    decreases |ticks|
  {
    if ticks != [] {
      var t := ticks[0];
      var next := Step(s, t.now, t.ads1, t.ads2, t.connected).0;
      MeasuringPass(s, t.now, t.ads1, t.ads2, t.connected);
      var rest := ticks[1..];
      assert forall k :: 0 <= k < |rest| ==> rest[k] == ticks[k + 1];
      MeasuringKeepsMinimum(next, rest);
      var r := Run(s, ticks).0;
      assert r == Run(next, rest).0;
      forall c | 0 <= c < 8
        ensures r.minAdc[c] == s.minAdc[c] || exists k :: 0 <= k < |ticks| && r.minAdc[c] == ReadingOf(ticks[k], c)
      {
        if r.minAdc[c] != s.minAdc[c] {
          if r.minAdc[c] == next.minAdc[c] {
            assert r.minAdc[c] == ReadingOf(ticks[0], c);
          } else {
            var k :| 0 <= k < |rest| && r.minAdc[c] == ReadingOf(rest[k], c);
            assert r.minAdc[c] == ReadingOf(ticks[k + 1], c);
          }
        }
      }
    }
  }

  /**
   * A channel whose every reading since the reset was 32767 reports 0, the
   * same as a channel that never saw a reading.
   */
  lemma {:induction false} FullScaleReadsAsZero(now0: U32, ticks: seq<Inputs>, c: int)
    requires WellFormedInputs(ticks) && 0 <= c < 8
    requires forall k :: 0 <= k < |ticks| ==> Elapsed(ticks[k].now, now0) < MeasureWindow
    requires forall k :: 0 <= k < |ticks| ==> ReadingOf(ticks[k], c) == NoReading
    ensures Run(Initial(now0), ticks).0.minAdc[c] == NoReading
    ensures Voltage(Run(Initial(now0), ticks).0.minAdc[c]) == 0.0
  {
    MeasuringKeepsMinimum(Initial(now0), ticks);
  }
}
