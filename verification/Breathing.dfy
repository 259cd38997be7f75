/** The breathing analysis of the sleep sentinel (SleepSentinelAgent, lines 176-227),
    on squared magnitudes. Squaring keeps every comparison the code makes:
    peak > 0.0005 becomes peak^2 > 0.00000025 and ratio >= 6 becomes ratio^2 >= 36. */
module Breathing {
  import opened Common
  import opened ComplexNumbers
  import opened NanNumbers
  import opened Fourier
  import opened Stages
  import opened Fft

  datatype Cadence = Unstable | Stable(frequencyHz: real, strengthSq: real)

  const MIN_HZ := 0.12
  const MAX_HZ := 0.65
  const DESIRED_WINDOW := 512

  /** The loop of lines 223-227; beyond 2^30 the 32-bit shift would turn negative. */
  method NextPowerOfTwo(n: nat) returns (p: nat, ghost m: nat)
    requires n <= 0x4000_0000
    ensures p == Pow2(m) && n <= p && (p == 1 || p / 2 < n)
  {
    p, m := 1, 0;
    while p < n
      invariant p == Pow2(m) && (p == 1 || p / 2 < n)
    {
      p := 2 * p;
      m := m + 1;
    }
  }

  /** Array.prototype.slice with one argument: a negative start counts from the end. */
  function SliceFrom<T>(s: seq<T>, start: int): seq<T> {
    if start >= |s| then []
    else if start >= 0 then s[start..]
    else if |s| + start >= 0 then s[|s| + start..]
    else s
  }

  /** The lengths for which the analysed window is exactly the last n samples. For others
      the slice start is negative and the slice too short, or n is below 256. */
  predicate WindowAvailable(length: nat) {
    length == 256 || length >= DESIRED_WINDOW
  }

  lemma PowersOfTwoTo512(m: nat)
    requires 128 < Pow2(m) < 1024
    ensures (m == 8 && Pow2(m) == 256) || (m == 9 && Pow2(m) == 512)
  {
    assert Pow2(7) == 128 && Pow2(8) == 256 && Pow2(9) == 512 && Pow2(10) == 1024;
    Pow2Bound(10, m);
    Pow2Bound(m, 7);
  }

  /** Insertion sort; stands for `band.sort((a, b) => a - b)`. */
  function Sorted(s: seq<real>): (r: seq<real>)
    ensures |r| == |s|
  {
    if s == [] then [] else Insert(s[0], Sorted(s[1..]))
  }

  function Insert(x: real, s: seq<real>): (r: seq<real>)
    ensures |r| == |s| + 1
  {
    if s == [] || x <= s[0] then [x] + s else [s[0]] + Insert(x, s[1..])
  }

  predicate Ascending(s: seq<real>) {
    |s| <= 1 || (s[0] <= s[1] && Ascending(s[1..]))
  }

  lemma {:induction false} InsertAscending(x: real, s: seq<real>)
    requires Ascending(s)
    ensures Ascending(Insert(x, s)) && multiset(Insert(x, s)) == multiset(s) + multiset{x}
  {
    if s != [] && x > s[0] {
      InsertAscending(x, s[1..]);
      assert s == [s[0]] + s[1..];
      assert Insert(x, s) == [s[0]] + Insert(x, s[1..]);
    }
  }

  lemma {:induction false} SortedSorts(s: seq<real>)
    ensures Ascending(Sorted(s)) && multiset(Sorted(s)) == multiset(s)
  {
    if s != [] {
      SortedSorts(s[1..]);
      InsertAscending(s[0], Sorted(s[1..]));
      assert s == [s[0]] + s[1..];
    }
  }

  /** How many entries are at most `v`. */
  function CountAtMost(s: seq<real>, v: real): (c: nat)
    ensures c <= |s|
  {
    if s == [] then 0 else (if s[0] <= v then 1 else 0) + CountAtMost(s[1..], v)
  }

  lemma {:induction false} CountInsert(x: real, s: seq<real>, v: real)
    ensures CountAtMost(Insert(x, s), v) == CountAtMost(s, v) + if x <= v then 1 else 0
  {
    if s != [] && x > s[0] {
      CountInsert(x, s[1..], v);
    }
  }

  lemma {:induction false} CountSorted(s: seq<real>, v: real)
    ensures CountAtMost(Sorted(s), v) == CountAtMost(s, v)
  {
    if s != [] {
      CountSorted(s[1..], v);
      CountInsert(s[0], Sorted(s[1..]), v);
    }
  }

  lemma {:induction false} NoneAtMost(s: seq<real>, v: real)
    requires Ascending(s) && (s == [] || v < s[0])
    ensures CountAtMost(s, v) == 0
  {
    if s != [] {
      NoneAtMost(s[1..], v);
    }
  }

  lemma {:induction false} RankIffCount(s: seq<real>, k: nat, v: real)
    requires Ascending(s) && k < |s|
    ensures s[k] <= v <==> CountAtMost(s, v) > k
  {
    if v < s[0] {
      NoneAtMost(s, v);
      HeadLeast(s, k);
    } else if k > 0 {
      RankIffCount(s[1..], k - 1, v);
    }
  }

  lemma {:induction false} HeadLeast(s: seq<real>, k: nat)
    requires Ascending(s) && k < |s|
    ensures s[0] <= s[k]
  {
    if k > 0 {
      HeadLeast(s[1..], k - 1);
    }
  }

  /** The verdict on the squared magnitudes of the breathing band (lines 213-218). */
  predicate Verdict(band: seq<real>, peak: real)
    requires |band| > 0
  {
    var median := Sorted(band)[|band| / 2];
    peak > 0.00000025 && median > 0.0 && peak >= 36.0 * median
  }

  /** What the verdict means without sorting: the peak is loud enough, more than half of
      the bins lie at least a factor of six below it in magnitude, and no more than half
      of the bins are silent. */
  lemma VerdictIsMajority(band: seq<real>, peak: real)
    requires |band| > 0
    ensures Verdict(band, peak) <==>
      peak > 0.00000025 &&
      CountAtMost(band, peak / 36.0) > |band| / 2 >= CountAtMost(band, 0.0)
  {
    hide Sorted, CountAtMost, Ascending;
    var k := |band| / 2;
    SortedSorts(band);
    CountSorted(band, peak / 36.0);
    CountSorted(band, 0.0);
    RankIffCount(Sorted(band), k, peak / 36.0);
    RankIffCount(Sorted(band), k, 0.0);
  }

  /** The bins startBin..endBin of lines 197-198. */
  function StartBin(binHz: real): nat
    requires binHz > 0.0
  {
    var b := (MIN_HZ / binHz).Floor;
    if b < 1 then 1 else b
  }

  function EndBin(binHz: real, bins: nat): (b: int)
    requires binHz > 0.0
    ensures b < bins
  {
    var b := -(-(MAX_HZ / binHz)).Floor;
    if b < bins - 1 then b else bins - 1
  }

  function Frequency(bin: int, binHz: real): real { bin as real * binHz }

  /** Position `p` holds the largest entry, and the first of its value. */
  ghost predicate IsFirstPeak(band: seq<real>, p: nat) {
    p < |band| &&
    (forall i :: 0 <= i < |band| ==> band[i] <= band[p]) &&
    (forall i :: 0 <= i < p ==> band[i] < band[p])
  }

  /** The peak search of lines 201-211. A NaN bin is in the band but is never the peak. */
  method FindPeak(powers: seq<Num>, startBin: nat, endBin: nat) returns (peak: real, peakBin: nat, band: seq<Num>)
    requires startBin <= endBin < |powers|
    requires forall i :: 0 <= i < |powers| && powers[i].Fin? ==> powers[i].value >= 0.0
    ensures band == powers[startBin..endBin + 1] && startBin <= peakBin <= endBin
    ensures Finite(band) ==> IsFirstPeak(Values(band), peakBin - startBin) && Values(band)[peakBin - startBin] == peak
    ensures AllNaN(band) ==> peak == 0.0 && peakBin == startBin
  {
    peak, peakBin, band := 0.0, startBin, [];
    for i := startBin to endBin + 1
      invariant band == powers[startBin..i]
      invariant startBin <= peakBin <= endBin
      invariant if peak > 0.0 then peakBin < i && powers[peakBin] == Fin(peak) else peak == 0.0 && peakBin == startBin
      invariant forall j :: startBin <= j < i && powers[j].Fin? ==> powers[j].value <= peak
      invariant forall j :: startBin <= j < peakBin && powers[j].Fin? ==> powers[j].value < peak
    {
      var v := powers[i];
      band := band + [v];
      if Exceeds(v, peak) {
        peak := v.value;
        peakBin := i;
      }
    }
    assert band[peakBin - startBin] == powers[peakBin];
  }

  /** The mean-free, windowed samples of lines 184-192; `hann(i)` is the cosine weight. */
  function Windowed(slice: seq<real>, hann: nat -> real): (r: seq<real>)
    requires |slice| > 0
    ensures |r| == |slice|
  {
    var mean := Sum(slice) / |slice| as real;
    seq(|slice|, i requires 0 <= i < |slice| => (slice[i] - mean) * hann(i))
  }

  /** The squared magnitudes of the bins lo..hi, from the plain DFT sum. */
  function BandPowers(input: seq<real>, root: Complex, lo: nat, hi: nat): (band: seq<real>)
    requires |input| > 0 && lo <= hi
    ensures |band| == hi + 1 - lo
  {
    seq(hi + 1 - lo, i requires 0 <= i < hi + 1 - lo => BinPower(input, root, lo + i))
  }

  /** `cadence` is what the plain spectrum of `input` says about breathing. */
  ghost predicate Describes(cadence: Cadence, input: seq<real>, root: Complex, binHz: real)
    requires |input| > 0 && binHz > 0.0
  {
    var lo, hi := StartBin(binHz), EndBin(binHz, |input| / 2 + 1);
    if hi <= lo then cadence == Unstable
    else
      var band := BandPowers(input, root, lo, hi);
      exists p: nat :: IsFirstPeak(band, p) && DescribesPeak(cadence, band, p, Frequency(lo + p, binHz))
  }

  ghost predicate DescribesPeak(cadence: Cadence, band: seq<real>, p: nat, frequencyHz: real)
    requires p < |band|
  {
    (cadence.Stable? <==> Verdict(band, band[p])) &&
    (cadence.Stable? ==>
      cadence.frequencyHz == frequencyHz &&
      cadence.strengthSq * Sorted(band)[|band| / 2] == band[p] && cadence.strengthSq >= 36.0)
  }

  /** `cadence` is the verdict on a whole envelope: that of its newest 512 samples, or of
      exactly 256, and otherwise "not stable". */
  ghost predicate IsVerdictOn(cadence: Cadence, envelope: seq<real>, sampleRateHz: real, hann: nat -> real, w: Twiddles)
    requires sampleRateHz > 0.0
  {
    if |envelope| >= DESIRED_WINDOW then
      Describes(cadence, Windowed(envelope[|envelope| - DESIRED_WINDOW..], hann), w(9), sampleRateHz / 512.0)
    else if |envelope| == 256 then
      Describes(cadence, Windowed(envelope, hann), w(8), sampleRateHz / 256.0)
    else cadence == Unstable
  }

  /** analyzeBreathingCadence. Where the slice is too short its missing entries are NaN,
      which reaches every bin, so no bin exceeds the initial peak. */
  method AnalyzeBreathingCadence(envelope: seq<real>, sampleRateHz: real, hann: nat -> real, w: Twiddles)
      returns (cadence: Cadence)
    requires sampleRateHz > 0.0 && ValidTwiddles(w, 9)
    ensures IsVerdictOn(cadence, envelope, sampleRateHz, hann, w)
  {
    hide Describes, Windowed, BinPower, Finite, Values;
    var n, m := NextPowerOfTwo(if |envelope| < DESIRED_WINDOW then |envelope| else DESIRED_WINDOW);
    if n < 256 {
      return Unstable;
    }
    PowersOfTwoTo512(m);
    assert ValidTwiddles(w, m);
    var slice := SliceFrom(envelope, |envelope| - n);
    assert |slice| == n <==> WindowAvailable(|envelope|);
    var input := WindowInput(slice, n, hann);
    var powers := FftPowers(input, w, m);
    cadence := JudgeBand(input, powers, sampleRateHz / n as real, w(m));
    assert |envelope| == 256 ==> slice == envelope;
    assert sampleRateHz / n as real == sampleRateHz / if n == 256 then 256.0 else 512.0;
  }

  /** Lines 189-191. Past the end of the slice `slice[i]` is undefined. */
  function InputAt(slice: seq<real>, mean: real, weight: real, i: nat): Num {
    Times(Minus(if i < |slice| then Fin(slice[i]) else NaN, Fin(mean)), Fin(weight))
  }

  /** Lines 187-192. */
  method WindowInput(slice: seq<real>, n: nat, hann: nat -> real) returns (input: seq<Num>)
    requires 0 < |slice| <= n
    ensures |input| == n
    ensures |slice| == n ==> Finite(input) && Values(input) == Windowed(slice, hann)
    ensures |slice| < n ==> !Finite(input)
  {
    hide Sum, InputAt;
    var mean := Sum(slice) / |slice| as real;
    input := [];
    for i := 0 to n
      invariant |input| == i
      invariant forall k :: 0 <= k < i ==> input[k] == InputAt(slice, mean, hann(k), k)
    {
      input := input + [InputAt(slice, mean, hann(i), i)];
    }
    InputIsWindowed(slice, mean, input, hann);
  }

  lemma InputIsWindowed(slice: seq<real>, mean: real, input: seq<Num>, hann: nat -> real)
    requires 0 < |slice| <= |input| && mean == Sum(slice) / |slice| as real
    requires forall k :: 0 <= k < |input| ==> input[k] == InputAt(slice, mean, hann(k), k)
    ensures |slice| == |input| ==> Finite(input) && Values(input) == Windowed(slice, hann)
    ensures |slice| < |input| ==> !Finite(input)
  {
    hide Sum;
    if |slice| < |input| {
      assert input[|slice|].NaN?;
    } else {
      forall k | 0 <= k < |slice| ensures input[k] == Fin(Windowed(slice, hann)[k]) {
        FiniteTimes(slice[k] - mean, hann(k));
      }
    }
  }

  /** Lines 195-220. */
  method JudgeBand(input: seq<Num>, powers: seq<Num>, binHz: real, ghost root: Complex)
      returns (cadence: Cadence)
    requires |input| > 0 && binHz > 0.0 && |powers| == |input| / 2 + 1
    requires Finite(input) ==>
      forall k :: 0 <= k < |powers| ==> powers[k] == Fin(BinPower(Values(input), root, k))
    requires !Finite(input) ==> AllNaN(powers)
    ensures Finite(input) ==> Describes(cadence, Values(input), root, binHz)
    ensures !Finite(input) ==> cadence == Unstable
  {
    hide BinPower, StartBin, EndBin, Verdict, Sorted, BandPowers, Values, Frequency;
    var startBin := StartBin(binHz);
    var endBin := EndBin(binHz, |powers|);
    if endBin <= startBin {
      return Unstable;
    }
    var peak, peakBin, band := FindPeak(powers, startBin, endBin);
    cadence := JudgePeak(band, peak, Frequency(peakBin, binHz));
    if Finite(input) {
      BandOfPowers(Values(input), powers, root, startBin, endBin);
      assert DescribesPeak(cadence, Values(band), peakBin - startBin, Frequency(peakBin, binHz));
    }
  }

  lemma BandOfPowers(input: seq<real>, powers: seq<Num>, root: Complex, lo: nat, hi: nat)
    requires |input| > 0 && lo <= hi < |powers|
    requires forall k :: 0 <= k < |powers| ==> powers[k] == Fin(BinPower(input, root, k))
    ensures
      var band := powers[lo..hi + 1];
      Finite(band) && Values(band) == BandPowers(input, root, lo, hi)
  {
    hide BinPower;
  }

  /** `band[Math.floor(band.length / 2)] || 0` after sorting (lines 213-214). */
  function Median(band: seq<Num>): real
    requires |band| > 0 && (Finite(band) || AllNaN(band))
  {
    if Finite(band) then Sorted(Values(band))[|band| / 2] else 0.0
  }

  /** Lines 213-220. */
  method JudgePeak(band: seq<Num>, peak: real, frequencyHz: real) returns (cadence: Cadence)
    requires |band| > 0 && (Finite(band) || AllNaN(band))
    ensures Finite(band) ==>
      (cadence.Stable? <==> Verdict(Values(band), peak)) &&
      (cadence.Stable? ==>
        cadence.frequencyHz == frequencyHz &&
        cadence.strengthSq * Sorted(Values(band))[|band| / 2] == peak && cadence.strengthSq >= 36.0)
    ensures AllNaN(band) ==> cadence == Unstable
  {
    assert AllNaN(band) ==> band[0].NaN?;
    var median := Median(band);
    if median > 0.0 {
      QuotientAtLeast(peak, median);
    }
    var ratio := if median > 0.0 then peak / median else 0.0;
    if peak > 0.00000025 && ratio >= 36.0 {
      cadence := Stable(frequencyHz, ratio);
    } else {
      cadence := Unstable;
    }
  }

  lemma QuotientAtLeast(x: real, y: real)
    requires y > 0.0
    ensures (x / y) * y == x && (x / y >= 36.0 <==> x >= 36.0 * y)
  {
  }
}
