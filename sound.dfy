/**
 * The audio side of the program: the uniform cells it publishes, the
 * per-frame analysis tick (means, band arrays, streak ramp) and the
 * fixed-interval streak detector tick. The analyser node is outside the model:
 * the two byte buffers it fills before each analysis tick are inputs.
 */
module AudioAnalysis {
  import opened Uniforms
  import opened Features
  import opened Streak

  /**
   * `Float32Array.prototype.set(source)` at offset 0: copies the source into
   * the first slots of the target in place; later slots are untouched.
   */
  method SetBands(target: array<real>, source: seq<Byte>)
    requires |source| <= target.Length
    modifies target
    ensures target[..] == Overlay(old(target[..]), source)
  {
    var i := 0;
    while i < |source|
      invariant 0 <= i <= |source|
      invariant forall j :: 0 <= j < i ==> target[j] == source[j] as real
      invariant forall j :: i <= j < target.Length ==> target[j] == old(target[j])
    {
      target[i] := source[i] as real;
      i := i + 1;
    }
  }

  class Sound {
    /** The analysis window handed to `startAnalysis` (the program passes 256). */
    const fftSize: nat

    const amplitudeUniform: Cell
    const amplitudesUniform: array<real>
    const frequencyUniform: Cell
    const frequenciesUniform: array<real>
    const streakUniform: Cell

    /** The timer closure's `streakStack`. */
    var streakStack: real
    var streakActive: bool
    var streakWasActive: bool

    /** The detector's state as one value. */
    function Detector(): StreakState
      reads this
    {
      StreakState(streakStack, streakActive, streakWasActive)
    }

    /**
     * Five distinct cells with fixed shapes, an amplitude digest in the
     * amplitude cell, a reachable detector and a whole-number streak level.
     */
    ghost predicate Valid()
      reads this, amplitudeUniform, frequencyUniform, streakUniform
    {
      && ValidFftSize(fftSize)
      && amplitudesUniform.Length == UseBins && frequenciesUniform.Length == UseBins
      && amplitudesUniform != frequenciesUniform
      && amplitudeUniform != frequencyUniform && amplitudeUniform != streakUniform && frequencyUniform != streakUniform
      && IsAmplitude(amplitudeUniform.value) && IsAmplitude(frequencyUniform.value)
      && Reachable(Detector())
      && IsLevel(streakUniform.value)
    }

    /** Every cell starts at 0, the band arrays hold 32 zeros, and no streak is running. */
    constructor (fftSize: nat)
      requires ValidFftSize(fftSize)
      ensures Valid()
      ensures this.fftSize == fftSize
      ensures fresh(amplitudeUniform) && fresh(amplitudesUniform) && fresh(frequencyUniform)
      ensures fresh(frequenciesUniform) && fresh(streakUniform)
      ensures amplitudeUniform.value == 0.0 && frequencyUniform.value == 0.0 && streakUniform.value == 0.0
      ensures amplitudesUniform[..] == seq(UseBins, _ => 0.0) && frequenciesUniform[..] == seq(UseBins, _ => 0.0)
      ensures Detector() == Initial
    {
      this.fftSize := fftSize;
      amplitudeUniform := new Cell(0.0);
      amplitudesUniform := new real[UseBins](_ => 0.0);
      frequencyUniform := new Cell(0.0);
      frequenciesUniform := new real[UseBins](_ => 0.0);
      streakUniform := new Cell(0.0);
      streakStack := 0.0;
      streakActive := false;
      streakWasActive := false;
    }

    /**
     * One analysis frame: publish both means and both band arrays from the
     * freshly filled buffers, then ramp the streak level. The streak flag is read,
     * never written, here.
     */
    method AnalysisTick(timeBuffer: seq<Byte>, freqBuffer: seq<Byte>)
      requires Valid()
      requires |timeBuffer| == BufferLength(fftSize) && |freqBuffer| == BufferLength(fftSize)
      modifies amplitudeUniform, amplitudesUniform, frequencyUniform, frequenciesUniform, streakUniform
      ensures Valid()
      ensures amplitudeUniform.value == Mean(timeBuffer)
      ensures frequencyUniform.value == Mean(freqBuffer)
      ensures amplitudesUniform[..] == AmplitudeBands(old(amplitudesUniform[..]), timeBuffer)
      ensures frequenciesUniform[..] == FrequencyBands(old(frequenciesUniform[..]), freqBuffer, fftSize)
      ensures streakUniform.value == Ramp(old(streakUniform.value), streakActive)
    {
      assert fftSize / 2 == |timeBuffer| == |freqBuffer|;
      amplitudeUniform.value := Sum(timeBuffer) as real / (fftSize / 2) as real;
      assert amplitudeUniform.value == Mean(timeBuffer);
      SetBands(amplitudesUniform, Slice(timeBuffer, 0, UseBins));
      frequencyUniform.value := Sum(freqBuffer) as real / (fftSize / 2) as real;
      assert frequencyUniform.value == Mean(freqBuffer);
      var cutOffFreqBins := fftSize / 64;
      SetBands(frequenciesUniform, Slice(freqBuffer, cutOffFreqBins, cutOffFreqBins + UseBins));
      RampStreak();
    }

    /** The ramp at the end of an analysis frame; the published level stays a whole number in [0, 127]. */
    method RampStreak()
      requires Valid()
      modifies streakUniform
      ensures Valid()
      ensures streakUniform.value == Ramp(old(streakUniform.value), streakActive)
    {
      RampKeepsLevel(streakUniform.value, streakActive);
      if streakActive {
        streakUniform.value := if streakUniform.value < 127.0 then streakUniform.value + 1.0 else streakUniform.value;
      } else {
        streakUniform.value := if streakUniform.value > 0.0 then streakUniform.value - 1.0 else streakUniform.value;
      }
    }

    /** One timer tick of the streak detector, reading the published amplitude. */
    method StreakTick()
      requires Valid()
      modifies this
      ensures Valid()
      ensures Detector() == TimerTick(old(Detector()), amplitudeUniform.value)
    {
      var amplitude := amplitudeUniform.value;
      if amplitude > DetectionThreshold {
        streakStack := if streakStack < StreakReserve then streakStack + (amplitude - DetectionThreshold) * StreakGain else streakStack;
      } else {
        streakStack := if streakStack > 0.0 then streakStack - (DetectionThreshold - amplitude) else streakStack;
      }
      streakWasActive := streakActive;
      if streakStack > StreakThreshold {
        streakActive := true;
        streakStack := if !streakWasActive then StreakReserve else streakStack;
      } else {
        streakActive := false;
      }
      TimerTickPreservesReachable(old(Detector()), amplitude);
    }
  }

  /**
   * Full-scale input end to end: ten analysis frames of all-255 buffers publish
   * an amplitude of 255; seven timer ticks reading it then start a streak with
   * the stack at the reserve, and an eighth keeps it there.
   */
  method LoudSession() returns (amplitude: real, active: bool, stack: real)
    ensures amplitude == 255.0 && active && stack == StreakReserve
  {
    var sound := new Sound(DefaultFftSize);
    var loud: seq<Byte> := seq(BufferLength(DefaultFftSize), _ => 255);
    var frame := 0;
    while frame < 10
      invariant 0 <= frame <= 10
      invariant sound.Valid() && sound.fftSize == DefaultFftSize
      invariant sound.Detector() == Initial
      invariant frame > 0 ==> sound.amplitudeUniform.value == 255.0
      modifies sound.amplitudeUniform, sound.amplitudesUniform, sound.frequencyUniform, sound.frequenciesUniform, sound.streakUniform
    {
      sound.AnalysisTick(loud, loud);
      MeanOfConstant(loud, 255);
      frame := frame + 1;
    }
    ghost var amplitudes: seq<real> := [];
    var tick := 0;
    while tick < 8
      invariant 0 <= tick <= 8 && |amplitudes| == tick
      invariant sound.Valid() && sound.amplitudeUniform.value == 255.0
      invariant forall i :: 0 <= i < |amplitudes| ==> amplitudes[i] == 255.0
      invariant sound.Detector() == Run(Initial, amplitudes)
      modifies sound
    {
      ghost var before := amplitudes;
      sound.StreakTick();
      amplitudes := amplitudes + [255.0];
      assert amplitudes[..|amplitudes| - 1] == before;
      tick := tick + 1;
    }
    LoudRun(amplitudes);
    amplitude, active, stack := sound.amplitudeUniform.value, sound.streakActive, sound.streakStack;
  }
}
