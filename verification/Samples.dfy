/** 16-bit quantisation, as the microphone worklet and the WAV encoder do it, and the
    conversion back to floats of AudioStreamer.enqueue. Exact reals stand for floats. */
module Samples {

  /** Conversion of a number to Int16: truncate toward zero, then wrap modulo 2^16. */
  function ToInt16(r: real): int {
    var t := if r >= 0.0 then r.Floor else -((-r).Floor);
    (t + 0x8000) % 0x1_0000 - 0x8000
  }

  function Clip(x: real): real { if x < -1.0 then -1.0 else if x > 1.0 then 1.0 else x }

  /** mic-processor.js, lines 22-24; wav.ts, lines 37-39. */
  function Quantise(x: real): int {
    var s := Clip(x);
    ToInt16(if s < 0.0 then s * 32768.0 else s * 32767.0)
  }

  function QuantiseAll(xs: seq<real>): (r: seq<int>)
    ensures |r| == |xs|
  {
    seq(|xs|, i requires 0 <= i < |xs| => Quantise(xs[i]))
  }

  /** AudioStreamer.ts, line 39. */
  function ToFloat(p: int): real { p as real / 32768.0 }

  method ToFloats(int16: seq<int>) returns (float32: seq<real>)
    ensures |float32| == |int16|
    ensures forall i :: 0 <= i < |int16| ==> float32[i] == ToFloat(int16[i])
  {
    float32 := [];
    for i := 0 to |int16|
      invariant |float32| == i
      invariant forall j :: 0 <= j < i ==> float32[j] == ToFloat(int16[j])
    {
      float32 := float32 + [int16[i] as real / 32768.0];
    }
  }

  predicate IsInt16(p: int) { -0x8000 <= p <= 0x7FFF }

  /** Quantisation never wraps: it is the truncation of the scaled sample. */
  lemma QuantiseInRange(x: real)
    ensures IsInt16(Quantise(x))
    ensures x >= 0.0 ==> Quantise(x) == (Clip(x) * 32767.0).Floor >= 0
    ensures x < 0.0 ==> Quantise(x) == -((Clip(x) * -32768.0).Floor) <= 0
  {
  }

  lemma QuantiseMonotone(x: real, y: real)
    requires x <= y
    ensures Quantise(x) <= Quantise(y)
  {
    QuantiseInRange(x);
    QuantiseInRange(y);
  }

  /** A sample taken to float and back: exact up to zero, one less above it, because
      decoding divides by 32768 and encoding multiplies by 32767. */
  lemma Requantise(p: int)
    requires IsInt16(p)
    ensures Quantise(ToFloat(p)) == if p <= 0 then p else p - 1
  {
    QuantiseInRange(ToFloat(p));
    var x := ToFloat(p);
    if p > 0 {
      assert x * 32767.0 == p as real - x && 0.0 < x < 1.0;
      assert (p as real - x).Floor == p - 1;
    } else {
      assert x * -32768.0 == (-p) as real;
    }
  }

  /** Both ends of the scale, from 1 and -1 outwards, and in between the sample times the
      end of its side, without its fraction. */
  lemma Scaled(x: real)
    ensures x >= 1.0 ==> Quantise(x) == 32767
    ensures x <= -1.0 ==> Quantise(x) == -32768
    ensures 0.0 <= x < 1.0 ==> Quantise(x) as real <= 32767.0 * x < Quantise(x) as real + 1.0
    ensures -1.0 < x < 0.0 ==> Quantise(x) as real - 1.0 < 32768.0 * x <= Quantise(x) as real
  {
    QuantiseInRange(x);
  }
}
