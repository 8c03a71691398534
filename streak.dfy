/**
 * The streak detector and the streak ramp, as pure step functions.
 *
 * A fixed-interval timer tick accumulates loudness above the detection
 * threshold into `stack` and drains it on quiet input; a streak starts when the
 * stack passes the streak threshold, at which point the stack is set to the
 * reserve so that the streak does not end at the next quiet sample. Every
 * display tick the published streak level moves one step towards 127 while a
 * streak is active and towards 0 otherwise.
 */
module Streak {

  const DetectionThreshold: real := 128.0
  const StreakThreshold: real := 860.0
  const StreakReserve: real := 3000.0
  const StreakGain: real := 1.0

  /** The top of the published streak level. */
  const RampTop: real := 127.0

  /** `stack` is the closure variable `streakStack`; the flags are `streakActive` and `streakWasActive`. */
  datatype StreakState = StreakState(stack: real, active: bool, wasActive: bool)

  const Initial: StreakState := StreakState(0.0, false, false)

  /** An amplitude digest: the mean of unsigned bytes. */
  predicate IsAmplitude(a: real)
  {
    0.0 <= a <= 255.0
  }

  /**
   * The accumulation step. Loud input adds its excess (times the gain) while the
   * stack is below the reserve; quiet input subtracts its shortfall while the
   * stack is above 0. Neither branch clamps, so one step can overshoot.
   */
  function Accumulate(stack: real, amplitude: real): (r: real)
    ensures amplitude > DetectionThreshold ==> stack <= r
    ensures amplitude <= DetectionThreshold ==> r <= stack
    ensures stack >= StreakReserve && amplitude > DetectionThreshold ==> r == stack
    ensures stack <= 0.0 && amplitude <= DetectionThreshold ==> r == stack
    ensures IsAmplitude(amplitude) ==> stack - DetectionThreshold <= r <= stack + (255.0 - DetectionThreshold) * StreakGain
  {
    if amplitude > DetectionThreshold then
      if stack < StreakReserve then stack + (amplitude - DetectionThreshold) * StreakGain else stack
    else
      if stack > 0.0 then stack - (DetectionThreshold - amplitude) else stack
  }

  /** The detection step applied to the accumulated stack: start, keep or stop a streak. */
  function Detect(s: StreakState, stack: real): StreakState
  {
    if stack > StreakThreshold then
      StreakState(if !s.active then StreakReserve else stack, true, s.active)
    else
      StreakState(stack, false, s.active)
  }

  /** One timer tick, reading the amplitude last published by the extractor. */
  function TimerTick(s: StreakState, amplitude: real): StreakState
  {
    Detect(s, Accumulate(s.stack, amplitude))
  }

  /** Timer ticks in order, the last amplitude read by the last tick. */
  function Run(s: StreakState, amplitudes: seq<real>): StreakState
    decreases |amplitudes|
  {
    if amplitudes == [] then s
    else TimerTick(Run(s, amplitudes[..|amplitudes| - 1]), amplitudes[|amplitudes| - 1])
  }

  /** What a tick does: the previous flag is saved, the flag follows the threshold, a rising edge resets to the reserve. */
  lemma TimerTickTransition(s: StreakState, amplitude: real)
    ensures TimerTick(s, amplitude).wasActive == s.active
    ensures TimerTick(s, amplitude).active <==> Accumulate(s.stack, amplitude) > StreakThreshold
    ensures TimerTick(s, amplitude).stack
            == if TimerTick(s, amplitude).active && !s.active then StreakReserve else Accumulate(s.stack, amplitude)
  {
  }

  /**
   * The states a detector can reach from `Initial` on amplitude digests: the
   * stack stays strictly between -128 and the reserve plus one loud step, and
   * an active streak always has its stack above the streak threshold.
   */
  predicate Reachable(s: StreakState)
  {
    && -DetectionThreshold < s.stack < StreakReserve + (255.0 - DetectionThreshold) * StreakGain
    && (s.active ==> s.stack > StreakThreshold)
  }

  lemma TimerTickPreservesReachable(s: StreakState, amplitude: real)
    requires Reachable(s) && IsAmplitude(amplitude)
    ensures Reachable(TimerTick(s, amplitude))
  {
  }

  lemma {:induction false} RunReachable(amplitudes: seq<real>)
    requires forall i :: 0 <= i < |amplitudes| ==> IsAmplitude(amplitudes[i])
    ensures Reachable(Run(Initial, amplitudes))
    decreases |amplitudes|
  {
    if amplitudes != [] {
      var prefix := amplitudes[..|amplitudes| - 1];
      RunReachable(prefix);
      TimerTickPreservesReachable(Run(Initial, prefix), amplitudes[|amplitudes| - 1]);
    }
  }

  /** The stack is not clamped: it can end a tick below 0 and above the reserve. */
  lemma StackOvershootsBothBounds()
    ensures TimerTick(StreakState(1.0, false, false), 0.0).stack == -127.0
    ensures TimerTick(StreakState(2999.0, true, true), 255.0).stack == 3126.0
  {
  }

  /**
   * Hysteresis: a running streak survives any `k` further ticks as long as the
   * stack had more than `128 * k` to spare above the streak threshold, because
   * one tick drains at most 128 and never resets a running streak.
   */
  lemma {:induction false} StreakHolds(s: StreakState, amplitudes: seq<real>)
    requires s.active
    requires forall i :: 0 <= i < |amplitudes| ==> IsAmplitude(amplitudes[i])
    requires s.stack - DetectionThreshold * |amplitudes| as real > StreakThreshold
    ensures Run(s, amplitudes).active
    ensures Run(s, amplitudes).stack >= s.stack - DetectionThreshold * |amplitudes| as real
    decreases |amplitudes|
  {
    if amplitudes != [] {
      var prefix := amplitudes[..|amplitudes| - 1];
      StreakHolds(s, prefix);
    }
  }

  /** A streak that has just started lasts through at least the next 16 ticks, whatever the input. */
  lemma StreakLastsSixteenTicks(s: StreakState, amplitude: real, later: seq<real>)
    requires !s.active && IsAmplitude(amplitude)
    requires TimerTick(s, amplitude).active
    requires |later| <= 16
    requires forall i :: 0 <= i < |later| ==> IsAmplitude(later[i])
    ensures Run(TimerTick(s, amplitude), later).active
  {
    StreakHolds(TimerTick(s, amplitude), later);
  }

  /**
   * Real silence: time-domain bytes sit at the zero line 128, so the digest is
   * 128 and a tick neither adds nor drains. A detector whose flag agrees with
   * its stack (as after every tick) keeps its stack and its flag for ever, so
   * silence neither ends a running streak nor starts one.
   */
  lemma {:induction false} SilenceHolds(s: StreakState, amplitudes: seq<real>)
    requires s.active <==> s.stack > StreakThreshold
    requires forall i :: 0 <= i < |amplitudes| ==> amplitudes[i] == DetectionThreshold
    ensures Run(s, amplitudes).stack == s.stack
    ensures Run(s, amplitudes).active == s.active
    ensures amplitudes != [] ==> Run(s, amplitudes).wasActive == s.active
    decreases |amplitudes|
  {
    if amplitudes != [] {
      SilenceHolds(s, amplitudes[..|amplitudes| - 1]);
    }
  }

  /**
   * An all-zero digest (every time-domain byte 0, a full-scale negative signal)
   * drains the stack of a fresh streak by 128 per tick.
   */
  lemma {:induction false} ZeroDigestRun(amplitudes: seq<real>)
    requires |amplitudes| <= 17
    requires forall i :: 0 <= i < |amplitudes| ==> amplitudes[i] == 0.0
    ensures Run(StreakState(StreakReserve, true, false), amplitudes).stack
            == StreakReserve - DetectionThreshold * |amplitudes| as real
    ensures Run(StreakState(StreakReserve, true, false), amplitudes).active <==> |amplitudes| <= 16
    decreases |amplitudes|
  {
    if amplitudes != [] {
      ZeroDigestRun(amplitudes[..|amplitudes| - 1]);
    }
  }

  /**
   * Constant full-scale input from the initial state: the stack grows by 127 per
   * tick, the streak starts on the 7th tick (7 * 127 = 889 > 860), and from then
   * on the stack stays at the reserve.
   */
  lemma {:induction false} LoudRun(amplitudes: seq<real>)
    requires forall i :: 0 <= i < |amplitudes| ==> amplitudes[i] == 255.0
    ensures |amplitudes| <= 6 ==> Run(Initial, amplitudes) == StreakState(127.0 * |amplitudes| as real, false, false)
    ensures |amplitudes| >= 7 ==> Run(Initial, amplitudes).stack == StreakReserve && Run(Initial, amplitudes).active
    ensures Run(Initial, amplitudes).active && !Run(Initial, amplitudes).wasActive <==> |amplitudes| == 7
    decreases |amplitudes|
  {
    if amplitudes != [] {
      LoudRun(amplitudes[..|amplitudes| - 1]);
    }
  }

  /** A whole-number streak level between 0 and 127, as the ramp publishes it. */
  predicate IsLevel(v: real)
  {
    v == v.Floor as real && 0.0 <= v <= RampTop
  }

  /** The per-frame ramp of the streak level: one step towards 127 while active, towards 0 otherwise. */
  function Ramp(v: real, active: bool): (r: real)
    ensures active ==> v <= r <= v + 1.0
    ensures !active ==> v - 1.0 <= r <= v
    ensures active && v >= RampTop ==> r == v
    ensures !active && v <= 0.0 ==> r == v
    ensures active && v < RampTop ==> r == v + 1.0
    ensures !active && v > 0.0 ==> r == v - 1.0
  {
    if active then (if v < RampTop then v + 1.0 else v)
    else (if v > 0.0 then v - 1.0 else v)
  }

  /** The ramp keeps a whole-number level between 0 and 127. */
  lemma RampKeepsLevel(v: real, active: bool)
    requires IsLevel(v)
    ensures IsLevel(Ramp(v, active))
  {
    var n := v.Floor;
    assert v == n as real;
    assert (n + 1) as real == v + 1.0 && (n - 1) as real == v - 1.0;
  }

  /** `n` frames of the ramp in one direction. */
  function Ramps(v: real, active: bool, n: nat): real
  {
    if n == 0 then v else Ramp(Ramps(v, active, n - 1), active)
  }

  /** Holding the direction for `n` frames moves a whole-number level `n` steps, stopping at the bound. */
  lemma {:induction false} RampsRise(level: int, n: nat)
    requires 0 <= level <= 127
    ensures Ramps(level as real, true, n) == if level + n < 127 then (level + n) as real else RampTop
  {
    if n > 0 {
      RampsRise(level, n - 1);
    }
  }

  lemma {:induction false} RampsFall(level: int, n: nat)
    requires 0 <= level <= 127
    ensures Ramps(level as real, false, n) == if level - n > 0 then (level - n) as real else 0.0
  {
    if n > 0 {
      RampsFall(level, n - 1);
    }
  }
}
