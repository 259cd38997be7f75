/** What the breathing analysis computes, without its own formulas: the mean does not
    matter, a constant envelope is no breathing, the verdict is unique, and the band and the
    scale of its bins (SleepSentinelAgent, lines 176-221). */
module BreathingLaws {
  import opened Common
  import opened ComplexNumbers
  import opened Fourier
  import opened Stages
  import opened Fft
  import opened Breathing

  /** Every sample raised by `d`. */
  function Shifted(s: seq<real>, d: real): (r: seq<real>)
    ensures |r| == |s|
  {
    seq(|s|, i requires 0 <= i < |s| => s[i] + d)
  }

  ghost predicate Constant(s: seq<real>) {
    forall i, j :: 0 <= i < |s| && 0 <= j < |s| ==> s[i] == s[j]
  }

  lemma {:induction false} SumShifted(s: seq<real>, d: real)
    ensures Sum(Shifted(s, d)) == Sum(s) + |s| as real * d
  {
    if s != [] {
      var n := |s| - 1;
      SumShifted(s[..n], d);
      assert Shifted(s, d)[..n] == Shifted(s[..n], d);
      assert |s| as real * d == n as real * d + d;
    }
  }

  lemma SameFactor(a: real, b: real, m: real)
    requires m > 0.0 && a * m == b * m
    ensures a == b
  {
    if a < b {
      ProductPositive(m, b - a);
    } else if b < a {
      ProductPositive(m, a - b);
    }
  }

  lemma QuotientOf(x: real, y: real, n: real)
    requires n > 0.0 && x == y * n
    ensures x / n == y
  {
    SameFactor(x / n, y, n);
  }

  lemma MeanShifted(s: seq<real>, d: real)
    requires |s| > 0
    ensures Sum(Shifted(s, d)) / |s| as real == Sum(s) / |s| as real + d
  {
    SumShifted(s, d);
    hide Sum, Shifted;
    var n, mean := |s| as real, Sum(s) / |s| as real;
    assert (mean + d) * n == Sum(s) + n * d;
    QuotientOf(Sum(Shifted(s, d)), mean + d, n);
  }

  /** Raising every sample changes nothing: the mean is taken off. */
  lemma ShiftInvisible(s: seq<real>, d: real, hann: nat -> real)
    requires |s| > 0
    ensures Windowed(Shifted(s, d), hann) == Windowed(s, hann)
  {
    hide Sum;
    MeanShifted(s, d);
    var mean := Sum(s) / |s| as real;
    forall i | 0 <= i < |s| ensures Windowed(Shifted(s, d), hann)[i] == Windowed(s, hann)[i] {
      assert s[i] + d - (mean + d) == s[i] - mean;
    }
  }

  /** Samples with mean zero are only weighted; with the shift law this is all of it. */
  lemma ZeroMeanWeighted(s: seq<real>, hann: nat -> real)
    requires |s| > 0 && Sum(s) == 0.0
    ensures forall i :: 0 <= i < |s| ==> Windowed(s, hann)[i] == s[i] * hann(i)
  {
    hide Sum;
    assert Sum(s) / |s| as real == 0.0;
  }

  /** Without weights the input of the transform sums to zero. */
  lemma UnweightedSumsToZero(s: seq<real>, hann: nat -> real)
    requires |s| > 0 && forall i :: 0 <= i < |s| ==> hann(i) == 1.0
    ensures Sum(Windowed(s, hann)) == 0.0
  {
    hide Sum;
    var mean := Sum(s) / |s| as real;
    assert Windowed(s, hann) == Shifted(s, -mean);
    SumShifted(s, -mean);
    assert |s| as real * -mean == -Sum(s);
  }

  ghost predicate Zeros(s: seq<real>) {
    forall i :: 0 <= i < |s| ==> s[i] == 0.0
  }

  lemma {:induction false} SumConstant(s: seq<real>, c: real)
    requires forall i :: 0 <= i < |s| ==> s[i] == c
    ensures Sum(s) == |s| as real * c
  {
    if s != [] {
      var n := |s| - 1;
      SumConstant(s[..n], c);
      assert |s| as real * c == n as real * c + c;
    }
  }

  lemma ConstantWindowsToZeros(s: seq<real>, hann: nat -> real)
    requires |s| > 0 && Constant(s)
    ensures Zeros(Windowed(s, hann))
  {
    SumConstant(s, s[0]);
    hide Sum;
    var n, c := |s| as real, s[0];
    assert n * c / n == c;
  }

  lemma {:induction false} SpectrumOfZeros(s: seq<real>, root: Complex, k: nat, n: nat)
    requires Zeros(s) && n <= |s|
    ensures PartialDft(Reals(s), root, k, n) == ZERO
  {
    hide Mul, Pow;
    if n > 0 {
      SpectrumOfZeros(s, root, k, n - 1);
      MulUnit(Pow(root, k * (n - 1)));
    }
  }

  lemma SilentBins(s: seq<real>, root: Complex, k: nat)
    requires |s| > 0 && Zeros(s)
    ensures BinPower(s, root, k) == 0.0
  {
    SpectrumOfZeros(s, root, k, |s|);
    hide PartialDft, Reals;
    assert NormSq(ZERO) == 0.0;
    var n := |s| as real;
    QuotientOf(0.0, 0.0, n);
  }

  lemma ZerosAreUnstable(cadence: Cadence, input: seq<real>, root: Complex, binHz: real)
    requires |input| > 0 && binHz > 0.0 && Zeros(input) && Describes(cadence, input, root, binHz)
    ensures cadence == Unstable
  {
    hide StartBin, EndBin, BinPower, Sorted;
    var lo, hi := StartBin(binHz), EndBin(binHz, |input| / 2 + 1);
    if hi > lo {
      var band := BandPowers(input, root, lo, hi);
      forall i | 0 <= i < |band| ensures band[i] == 0.0 {
        SilentBins(input, root, lo + i);
      }
    }
  }

  /** A constant envelope of any length, however loud, is not breathing. */
  lemma ConstantIsUnstable(
      cadence: Cadence, envelope: seq<real>, sampleRateHz: real, hann: nat -> real, w: Twiddles)
    requires sampleRateHz > 0.0 && Constant(envelope) && IsVerdictOn(cadence, envelope, sampleRateHz, hann, w)
    ensures cadence == Unstable
  {
    hide Describes, Windowed;
    if |envelope| >= 512 {
      var slice := envelope[|envelope| - 512..];
      ConstantWindowsToZeros(slice, hann);
      ZerosAreUnstable(cadence, Windowed(slice, hann), w(9), sampleRateHz / 512.0);
    } else if |envelope| == 256 {
      ConstantWindowsToZeros(envelope, hann);
      ZerosAreUnstable(cadence, Windowed(envelope, hann), w(8), sampleRateHz / 256.0);
    }
  }

  /** The spectrum leaves one verdict only. */
  lemma VerdictUnique(c: Cadence, d: Cadence, input: seq<real>, root: Complex, binHz: real)
    requires |input| > 0 && binHz > 0.0
    requires Describes(c, input, root, binHz) && Describes(d, input, root, binHz)
    ensures c == d
  {
    hide StartBin, EndBin, BinPower, BandPowers, Sorted, Verdict, DescribesPeak, IsFirstPeak, Frequency;
    var lo, hi := StartBin(binHz), EndBin(binHz, |input| / 2 + 1);
    if hi > lo {
      var band := BandPowers(input, root, lo, hi);
      var p := PeakOf(c, input, root, binHz);
      var q := PeakOf(d, input, root, binHz);
      FirstPeakUnique(band, p, q);
      OneVerdict(c, d, band, p, Frequency(lo + p, binHz));
    }
  }

  lemma PeakOf(c: Cadence, input: seq<real>, root: Complex, binHz: real) returns (p: nat)
    requires |input| > 0 && binHz > 0.0 && Describes(c, input, root, binHz)
    requires EndBin(binHz, |input| / 2 + 1) > StartBin(binHz)
    ensures
      var lo := StartBin(binHz);
      var band := BandPowers(input, root, lo, EndBin(binHz, |input| / 2 + 1));
      p < |band| && IsFirstPeak(band, p) && DescribesPeak(c, band, p, Frequency(lo + p, binHz))
  {
    hide StartBin, EndBin, BinPower, BandPowers, DescribesPeak, Frequency;
    var lo := StartBin(binHz);
    var band := BandPowers(input, root, lo, EndBin(binHz, |input| / 2 + 1));
    p :| IsFirstPeak(band, p) && DescribesPeak(c, band, p, Frequency(lo + p, binHz));
  }

  lemma OneVerdict(c: Cadence, d: Cadence, band: seq<real>, p: nat, frequencyHz: real)
    requires p < |band| && DescribesPeak(c, band, p, frequencyHz) && DescribesPeak(d, band, p, frequencyHz)
    ensures c == d
  {
    hide Sorted;
    if c.Stable? {
      SameFactor(c.strengthSq, d.strengthSq, Sorted(band)[|band| / 2]);
    }
  }

  lemma PeakAbove(band: seq<real>, p: nat, q: nat)
    requires IsFirstPeak(band, p) && q < |band|
    ensures band[q] <= band[p] && (q < p ==> band[q] < band[p])
  {
  }

  lemma FirstPeakUnique(band: seq<real>, p: nat, q: nat)
    requires IsFirstPeak(band, p) && IsFirstPeak(band, q)
    ensures p == q
  {
    PeakAbove(band, p, q);
    PeakAbove(band, q, p);
  }

  /** A stable verdict names a bin of the band that no bin of the band exceeds; it is loud. */
  lemma StableFrequency(c: Cadence, input: seq<real>, root: Complex, binHz: real) returns (bin: nat)
    requires |input| > 0 && binHz > 0.0 && Describes(c, input, root, binHz) && c.Stable?
    ensures StartBin(binHz) <= bin <= EndBin(binHz, |input| / 2 + 1) && c.frequencyHz == Frequency(bin, binHz)
    ensures forall k: nat :: StartBin(binHz) <= k <= EndBin(binHz, |input| / 2 + 1) ==>
      BinPower(input, root, k) <= BinPower(input, root, bin)
    ensures BinPower(input, root, bin) > 0.00000025 && c.strengthSq >= 36.0
  {
    hide StartBin, EndBin, BinPower, Sorted, Frequency;
    var lo, hi := StartBin(binHz), EndBin(binHz, |input| / 2 + 1);
    var band := BandPowers(input, root, lo, hi);
    var p := PeakOf(c, input, root, binHz);
    bin := lo + p;
    forall k: nat | lo <= k <= hi ensures BinPower(input, root, k) <= BinPower(input, root, bin) {
      PeakAbove(band, p, k - lo);
    }
  }

  /** Raising a whole envelope by a constant leaves the verdict on it as it is. */
  lemma VerdictIgnoresLevel(
      c: Cadence, d: Cadence, envelope: seq<real>, level: real, sampleRateHz: real, hann: nat -> real, w: Twiddles)
    requires sampleRateHz > 0.0
    requires IsVerdictOn(c, envelope, sampleRateHz, hann, w)
    requires IsVerdictOn(d, Shifted(envelope, level), sampleRateHz, hann, w)
    ensures c == d
  {
    hide Describes, Windowed;
    if |envelope| >= 512 {
      var slice := envelope[|envelope| - 512..];
      assert Shifted(envelope, level)[|envelope| - 512..] == Shifted(slice, level);
      ShiftInvisible(slice, level, hann);
      VerdictUnique(c, d, Windowed(slice, hann), w(9), sampleRateHz / 512.0);
    } else if |envelope| == 256 {
      ShiftInvisible(envelope, level, hann);
      VerdictUnique(c, d, Windowed(envelope, hann), w(8), sampleRateHz / 256.0);
    }
  }

  /** Only the newest 512 samples matter. */
  lemma OldSamplesIgnored(
      c: Cadence, older: seq<real>, newest: seq<real>, sampleRateHz: real, hann: nat -> real, w: Twiddles)
    requires sampleRateHz > 0.0 && |newest| == 512
    ensures IsVerdictOn(c, older + newest, sampleRateHz, hann, w) <==> IsVerdictOn(c, newest, sampleRateHz, hann, w)
  {
    hide Describes, Windowed;
    assert (older + newest)[|older|..] == newest && newest[0..] == newest;
  }

  /** Bin 0 of a constant is its square: magnitudes are per sample. */
  lemma PowerOfConstant(s: seq<real>, c: real, root: Complex)
    requires |s| > 0 && forall i :: 0 <= i < |s| ==> s[i] == c
    ensures BinPower(s, root, 0) == c * c
  {
    SumAtZero(s, c, root, |s|);
    SquareOfSum(|s| as real, c);
    hide PartialDft, NormSq;
    assert Dft(Reals(s), root, 0) == Complex(|s| as real * c, 0.0);
  }

  lemma SquareOfSum(n: real, c: real)
    requires n > 0.0
    ensures NormSq(Complex(n * c, 0.0)) / n / n == c * c
  {
    var x, d := n * c, c * c;
    var norm := NormSq(Complex(x, 0.0));
    assert norm == x * x == (n * d) * n;
    QuotientOf(norm, n * d, n);
    QuotientOf(norm / n, d, n);
  }

  lemma {:induction false} SumAtZero(s: seq<real>, c: real, root: Complex, n: nat)
    requires n <= |s| && forall i :: 0 <= i < |s| ==> s[i] == c
    ensures PartialDft(Reals(s), root, 0, n) == Complex(n as real * c, 0.0)
  {
    hide Mul;
    if n > 0 {
      SumAtZero(s, c, root, n - 1);
      MulUnit(Real(c));
      assert 0 * (n - 1) == 0 && Pow(root, 0) == ONE;
      assert n as real * c == (n - 1) as real * c + c;
    }
  }

  lemma Below(q: real, up: real, h: real, x: real)
    requires h > 0.0 && q * h == x
    ensures (q < up ==> x < up * h) && (q >= up ==> x >= up * h)
  {
    ScaledInOrder(q, up, h);
  }

  /** Bins compare with a frequency as they compare with its quotient. */
  lemma BinBelow(q: real, bin: int, binHz: real, x: real)
    requires binHz > 0.0 && q * binHz == x
    ensures q < bin as real ==> x < Frequency(bin, binHz)
    ensures q > bin as real ==> x > Frequency(bin, binHz)
    ensures q == bin as real ==> x == Frequency(bin, binHz)
  {
    Below(q, bin as real, binHz, x);
    ScaledInOrder(bin as real, q, binHz);
  }

  /** Bins are `binHz` apart, from 0. */
  lemma EvenlySpaced(bin: int, binHz: real)
    ensures Frequency(0, binHz) == 0.0 && Frequency(bin + 1, binHz) == Frequency(bin, binHz) + binHz
  {
    var b := bin as real;
    assert (b + 1.0) * binHz == b * binHz + binHz;
  }

  /** The band begins with the last bin not above 0.12 Hz, but not before bin 1. */
  lemma BandStart(binHz: real)
    requires binHz > 0.0
    ensures
      var b := StartBin(binHz);
      b >= 1 && (Frequency(b, binHz) <= 0.12 || b == 1) &&
      forall c: int :: c > b ==> Frequency(c, binHz) > 0.12
  {
    hide Frequency;
    var q, b := 0.12 / binHz, StartBin(binHz);
    BinBelow(q, b, binHz, 0.12);
    forall c: int | c > b ensures Frequency(c, binHz) > 0.12 {
      BinBelow(q, c, binHz, 0.12);
    }
  }

  /** It ends with the first bin not below 0.65 Hz, or with the last there is. */
  lemma BandEnd(binHz: real, bins: nat)
    requires binHz > 0.0
    ensures
      var b := EndBin(binHz, bins);
      (Frequency(b, binHz) >= 0.65 || b == bins - 1) && forall c: int :: c < b ==> Frequency(c, binHz) < 0.65
  {
    hide Frequency;
    var q, b := 0.65 / binHz, EndBin(binHz, bins);
    BinBelow(q, b, binHz, 0.65);
    forall c: int | c < b ensures Frequency(c, binHz) < 0.65 {
      BinBelow(q, c, binHz, 0.65);
    }
  }
}
