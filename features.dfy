/**
 * The pure part of the audio feature extractor: how one analysis tick reduces
 * the analyser's two byte buffers to a mean and to a 32-slot band array.
 */
module Features {

  /** One unsigned 8-bit sample of a `Uint8Array`. */
  type Byte = x: int | 0 <= x < 256

  /** Number of band slots published per buffer (`useBins`). */
  const UseBins: nat := 32

  /** The analysis window the program asks for. */
  const DefaultFftSize: nat := 256

  predicate IsPowerOfTwo(n: nat)
    decreases n
  {
    if n <= 1 then n == 1 else n % 2 == 0 && IsPowerOfTwo(n / 2)
  }

  /** The window sizes an analyser node accepts: powers of two from 32 to 32768. */
  predicate ValidFftSize(n: nat)
  {
    32 <= n <= 32768 && IsPowerOfTwo(n)
  }

  /** Both buffers hold `fftSize / 2` samples (`frequencyBinCount` is half the window). */
  function BufferLength(fftSize: nat): nat
  {
    fftSize / 2
  }

  /** Number of low frequency bins skipped before the frequency bands. */
  function CutOff(fftSize: nat): nat
  {
    fftSize / 64
  }

  /** `reduce(sum)`: the left fold of `+` over the buffer. */
  function Sum(s: seq<Byte>): (r: int)
    ensures 0 <= r <= 255 * |s|
  {
    if s == [] then 0 else Sum(s[..|s| - 1]) + s[|s| - 1]
  }

  /** The published digest: the sum divided by the buffer length `fftSize / 2`. */
  function Mean(s: seq<Byte>): (r: real)
    requires |s| > 0
    ensures 0.0 <= r <= 255.0
    ensures r * |s| as real == Sum(s) as real
  {
    MeanBounds(Sum(s), |s|);
    Sum(s) as real / |s| as real
  }

  /** A buffer holding one value throughout has that value as its mean. */
  lemma {:induction false} SumOfConstant(s: seq<Byte>, c: Byte)
    requires forall i :: 0 <= i < |s| ==> s[i] == c
    ensures Sum(s) == c * |s|
  {
    if s != [] {
      SumOfConstant(s[..|s| - 1], c);
    }
  }

  lemma MeanOfConstant(s: seq<Byte>, c: Byte)
    requires |s| > 0
    requires forall i :: 0 <= i < |s| ==> s[i] == c
    ensures Mean(s) == c as real
  {
    SumOfConstant(s, c);
  }

  lemma MeanBounds(total: int, n: nat)
    requires n > 0 && 0 <= total <= 255 * n
    ensures 0.0 <= total as real / n as real <= 255.0
  {
    var q := total as real / n as real;
    assert q * n as real == total as real;
    if q > 255.0 {
      assert q * n as real > 255.0 * n as real;
    }
  }

  /** JavaScript `slice(start, end)`: `end` is clipped to the length, and an empty range yields `[]`. */
  function Slice(s: seq<Byte>, start: nat, end: nat): (r: seq<Byte>)
    ensures forall i :: 0 <= i < |r| ==> start + i < |s| && r[i] == s[start + i]
    ensures start < end && start < |s| ==> start + |r| == if end < |s| then end else |s|
    ensures end <= start || |s| <= start ==> r == []
  {
    var e := if end < |s| then end else |s|;
    if start < e then s[start..e] else []
  }

  /**
   * `Float32Array.set(source)`: the first `|source|` slots take the source's
   * values, every later slot keeps the value it had.
   */
  function Overlay(prev: seq<real>, source: seq<Byte>): (r: seq<real>)
    requires |source| <= |prev|
  {
    seq(|prev|, i requires 0 <= i < |prev| => if i < |source| then source[i] as real else prev[i])
  }

  /** The amplitude bands published after a tick: the first 32 time-domain samples. */
  function AmplitudeBands(prev: seq<real>, timeBuffer: seq<Byte>): seq<real>
    requires |prev| == UseBins
  {
    Overlay(prev, Slice(timeBuffer, 0, UseBins))
  }

  /** The frequency bands published after a tick: 32 bins starting at `CutOff(fftSize)`. */
  function FrequencyBands(prev: seq<real>, freqBuffer: seq<Byte>, fftSize: nat): seq<real>
    requires |prev| == UseBins
  {
    Overlay(prev, Slice(freqBuffer, CutOff(fftSize), CutOff(fftSize) + UseBins))
  }

  /** Slot `i` of a band array after a tick: the buffer's sample, or the old value past the buffer's end. */
  lemma BandSlot(prev: seq<real>, buffer: seq<Byte>, start: nat, i: nat)
    requires |prev| == UseBins && i < UseBins
    ensures |Overlay(prev, Slice(buffer, start, start + UseBins))| == UseBins
    ensures Overlay(prev, Slice(buffer, start, start + UseBins))[i]
            == if start + i < |buffer| then buffer[start + i] as real else prev[i]
  {
  }

  lemma AmplitudeBandsSpec(prev: seq<real>, timeBuffer: seq<Byte>)
    requires |prev| == UseBins
    ensures |AmplitudeBands(prev, timeBuffer)| == UseBins
    ensures forall i :: 0 <= i < UseBins && i < |timeBuffer| ==> AmplitudeBands(prev, timeBuffer)[i] == timeBuffer[i] as real
    ensures forall i :: |timeBuffer| <= i < UseBins ==> AmplitudeBands(prev, timeBuffer)[i] == prev[i]
  {
    forall i | 0 <= i < UseBins {
      BandSlot(prev, timeBuffer, 0, i);
    }
  }

  lemma FrequencyBandsSpec(prev: seq<real>, freqBuffer: seq<Byte>, fftSize: nat)
    requires |prev| == UseBins
    ensures |FrequencyBands(prev, freqBuffer, fftSize)| == UseBins
    ensures forall i :: 0 <= i < UseBins && CutOff(fftSize) + i < |freqBuffer| ==>
              FrequencyBands(prev, freqBuffer, fftSize)[i] == freqBuffer[CutOff(fftSize) + i] as real
    ensures forall i :: 0 <= i < UseBins && CutOff(fftSize) + i >= |freqBuffer| ==>
              FrequencyBands(prev, freqBuffer, fftSize)[i] == prev[i]
  {
    forall i | 0 <= i < UseBins {
      BandSlot(prev, freqBuffer, CutOff(fftSize), i);
    }
  }

  /**
   * With the program's window of 256 the cut-off is 4 and bins 4..35 all lie in
   * the 128-bin buffer: every slot is overwritten, none keeps an old value.
   */
  lemma DefaultWindowFillsAllBands(prev: seq<real>, timeBuffer: seq<Byte>, freqBuffer: seq<Byte>)
    requires |prev| == UseBins
    requires |timeBuffer| == BufferLength(DefaultFftSize) && |freqBuffer| == BufferLength(DefaultFftSize)
    ensures CutOff(DefaultFftSize) == 4 && ValidFftSize(DefaultFftSize)
    ensures forall i :: 0 <= i < UseBins ==> AmplitudeBands(prev, timeBuffer)[i] == timeBuffer[i] as real
    ensures forall i :: 0 <= i < UseBins ==> FrequencyBands(prev, freqBuffer, DefaultFftSize)[i] == freqBuffer[4 + i] as real
  {
    AmplitudeBandsSpec(prev, timeBuffer);
    FrequencyBandsSpec(prev, freqBuffer, DefaultFftSize);
  }

  /**
   * With the smallest window, 32, each buffer holds only 16 samples: slots 16..31
   * of both band arrays keep their previous values instead of being cleared.
   */
  lemma SmallestWindowKeepsUpperBands(prev: seq<real>, timeBuffer: seq<Byte>, freqBuffer: seq<Byte>)
    requires |prev| == UseBins
    requires |timeBuffer| == BufferLength(32) && |freqBuffer| == BufferLength(32)
    ensures ValidFftSize(32) && CutOff(32) == 0
    ensures forall i :: 16 <= i < UseBins ==> AmplitudeBands(prev, timeBuffer)[i] == prev[i]
    ensures forall i :: 16 <= i < UseBins ==> FrequencyBands(prev, freqBuffer, 32)[i] == prev[i]
  {
    AmplitudeBandsSpec(prev, timeBuffer);
    FrequencyBandsSpec(prev, freqBuffer, 32);
  }
}
