/**
 * Sine synthesis (`create_sin_arr`, `create_sin_arr2`): the sample count,
 * the early returns, the sampling-theorem warning and the index arithmetic.
 * The sine itself is a parameter `sin`; nothing is assumed about it except,
 * where stated, that it stays within [-1, 1].
 */
module SineSynthesis {
  import opened CArith

  /** `M_PI`. */
  const Pi: real := 3.14159265358979323846

  /** The console messages the generators print, in the order printed. */
  datatype Diagnostic =
    | TooFewSamples            // sample count <= 1: nothing is generated
    | ZeroCycle                // create_sin_arr2 only: fewer than one sample per period
    | SamplingTheoremViolated  // freq * 2 >= sample_rate: a warning, output still produced

  /** Samples in `timeMs` milliseconds at `sampleRate` samples per second, in C++ int arithmetic. */
  function SampleCount(sampleRate: int, timeMs: int): (n: int)
    ensures n > 1 ==> sampleRate != 0 && 1000 * n <= sampleRate * timeMs < 1000 * (n + 1)
  {
    Div(sampleRate * timeMs, 1000)
  }

  /** The warning both generators print when the tone is at or above half the sample rate. */
  function AliasingWarning(freq: real, sampleRate: int): seq<Diagnostic>
  {
    if freq * 2.0 >= sampleRate as real then [SamplingTheoremViolated] else []
  }

  /** The angle of sample `i` of `create_sin_arr`: `2*pi*freq*t + phase*pi/180` at `t = i * (1 / sampleRate)`. */
  function SineAngle(freq: real, phase: real, sampleRate: int, i: int): real
    requires sampleRate != 0
  {
    var deltaT := 1.0 / sampleRate as real;
    var t := i as real * deltaT;
    2.0 * Pi * freq * t + phase * Pi / 180.0
  }

  /** Sample `i` of `create_sin_arr`. */
  function SineSample(sin: real -> real, amp: real, freq: real, phase: real, sampleRate: int, i: int): real
    requires sampleRate != 0
  {
    amp * sin(SineAngle(freq, phase, sampleRate, i))
  }

  /**
   * `create_sin_arr`: too few samples gives an empty sequence and one message;
   * otherwise exactly `SampleCount` samples, with the sampling-theorem warning
   * when it applies but the full output regardless.
   */
  method CreateSinArr(sin: real -> real, amp: real, freq: real, phase: real, sampleRate: int, timeMs: int)
    returns (samples: seq<real>, diagnostics: seq<Diagnostic>)
    ensures SampleCount(sampleRate, timeMs) <= 1 ==> samples == [] && diagnostics == [TooFewSamples]
    ensures SampleCount(sampleRate, timeMs) > 1 ==>
              |samples| == SampleCount(sampleRate, timeMs) &&
              diagnostics == AliasingWarning(freq, sampleRate) &&
              forall i :: 0 <= i < |samples| ==> samples[i] == SineSample(sin, amp, freq, phase, sampleRate, i)
  {
    var sampleNum := SampleCount(sampleRate, timeMs);
    if sampleNum <= 1 {
      return [], [TooFewSamples];
    }
    var sinArr := new real[sampleNum](_ => 0.0);
    diagnostics := [];
    if freq * 2.0 >= sampleRate as real {
      diagnostics := [SamplingTheoremViolated];
    }
    var deltaT := 1.0 / sampleRate as real;
    for i := 0 to sampleNum
      invariant forall k :: 0 <= k < i ==> sinArr[k] == SineSample(sin, amp, freq, phase, sampleRate, k)
    {
      var t := i as real * deltaT;
      var angle := 2.0 * Pi * freq * t + phase * Pi / 180.0;
      assert angle == SineAngle(freq, phase, sampleRate, i);
      sinArr[i] := amp * sin(angle);
    }
    samples := sinArr[..];
  }

  /** Every sample of `create_sin_arr` lies within the amplitude when `sin` does within [-1, 1]. */
  lemma SineSampleBounded(sin: real -> real, amp: real, freq: real, phase: real, sampleRate: int, i: int)
    requires sampleRate != 0
    requires forall x :: -1.0 <= sin(x) <= 1.0
    ensures -RealAbs(amp) <= SineSample(sin, amp, freq, phase, sampleRate, i) <= RealAbs(amp)
  {
    ScaledUnitBounded(amp, sin(SineAngle(freq, phase, sampleRate, i)));
  }

  function RealAbs(x: real): real
  {
    if x < 0.0 then -x else x
  }

  lemma ScaledUnitBounded(amp: real, v: real)
    requires -1.0 <= v <= 1.0
    ensures -RealAbs(amp) <= amp * v <= RealAbs(amp)
  {
    var w := RealAbs(amp);
    NonNegativeProduct(w, 1.0 - v);
    NonNegativeProduct(w, 1.0 + v);
    if 0.0 <= amp {
      assert w * (1.0 - v) == w - amp * v;
      assert w * (1.0 + v) == w + amp * v;
    } else {
      assert w * (1.0 - v) == w + amp * v;
      assert w * (1.0 + v) == w - amp * v;
    }
  }

  /** `sin_cycle` of `create_sin_arr2`: `sample_rate / freq` converted to int. */
  function SinCycle(freq: real, sampleRate: int): int
    requires freq != 0.0
  {
    Trunc(sampleRate as real / freq)
  }

  /** The angle of sample `i` of `create_sin_arr2`: `2*pi*(i % cycle) / cycle`. */
  function CycleAngle(cycle: int, i: int): real
    requires cycle != 0
  {
    2.0 * Pi * Rem(i, cycle) as real / cycle as real
  }

  /** Sample `i` of `create_sin_arr2`. */
  function PeriodicSample(sin: real -> real, amp: real, cycle: int, i: int): real
    requires cycle != 0
  {
    amp * sin(CycleAngle(cycle, i))
  }

  /**
   * `create_sin_arr2`: too few samples or a zero cycle gives an empty sequence
   * and the matching message; otherwise exactly `SampleCount` samples, each a
   * function of its index modulo the cycle.
   */
  method CreateSinArr2(sin: real -> real, amp: real, freq: real, sampleRate: int, timeMs: int)
    returns (samples: seq<real>, diagnostics: seq<Diagnostic>)
    requires freq != 0.0
    ensures SampleCount(sampleRate, timeMs) <= 1 ==> samples == [] && diagnostics == [TooFewSamples]
    ensures SampleCount(sampleRate, timeMs) > 1 && SinCycle(freq, sampleRate) == 0 ==>
              samples == [] && diagnostics == [ZeroCycle]
    ensures SampleCount(sampleRate, timeMs) > 1 && SinCycle(freq, sampleRate) != 0 ==>
              |samples| == SampleCount(sampleRate, timeMs) &&
              diagnostics == AliasingWarning(freq, sampleRate) &&
              (forall i :: 0 <= i < |samples| ==> samples[i] == PeriodicSample(sin, amp, SinCycle(freq, sampleRate), i)) &&
              forall i :: 0 <= i < |samples| && 0 <= i + SinCycle(freq, sampleRate) < |samples| ==>
                samples[i + SinCycle(freq, sampleRate)] == samples[i]
  {
    var sampleNum := SampleCount(sampleRate, timeMs);
    var sinCycle := Trunc(sampleRate as real / freq);
    if sampleNum <= 1 {
      return [], [TooFewSamples];
    }
    if sinCycle == 0 {
      return [], [ZeroCycle];
    }
    var sinArr := new real[sampleNum](_ => 0.0);
    diagnostics := [];
    if freq * 2.0 >= sampleRate as real {
      diagnostics := [SamplingTheoremViolated];
    }
    for i := 0 to sampleNum
      invariant forall k :: 0 <= k < i ==> sinArr[k] == PeriodicSample(sin, amp, sinCycle, k)
    {
      var angle := 2.0 * Pi * Rem(i, sinCycle) as real / sinCycle as real;
      assert angle == CycleAngle(sinCycle, i);
      sinArr[i] := amp * sin(angle);
    }
    samples := sinArr[..];
    forall i | 0 <= i < |samples| && 0 <= i + sinCycle < |samples|
      ensures samples[i + sinCycle] == samples[i]
    {
      PeriodicSampleRepeats(sin, amp, sinCycle, i);
    }
  }

  /**
   * The periodic generator repeats exactly: sample `i` and sample `i + cycle`
   * coincide (for either sign of `cycle`), whatever `sin` is.
   */
  lemma {:induction false} PeriodicSampleRepeats(sin: real -> real, amp: real, cycle: int, i: int)
    requires cycle != 0 && 0 <= i && 0 <= i + cycle
    ensures PeriodicSample(sin, amp, cycle, i + cycle) == PeriodicSample(sin, amp, cycle, i)
  {
    RemShift(i, cycle);
  }

  /** With an integer frequency the cast of the real quotient is C++ integer division. */
  lemma SinCycleOfIntegerFrequency(f: int, sampleRate: int)
    requires f != 0
    ensures SinCycle(f as real, sampleRate) == Div(sampleRate, f)
  {
    TruncOfQuotient(sampleRate, f);
  }
}
