/** The in-place radix-2 FFT of the sleep sentinel (SleepSentinelAgent, lines 229-282),
    proved equal to the plain DFT sum on finite input, and all NaN as soon as one entry is.
    Magnitudes are kept squared: the square root taken at the end is not part of this model. */
module Fft {
  import opened Common
  import opened ComplexNumbers
  import opened NanNumbers
  import opened BitReversal
  import opened Fourier
  import opened Stages
  import opened NanStages

  /** The sequence of pairs held by the two arrays. */
  ghost function View(re: seq<Num>, im: seq<Num>): (z: seq<Pair>)
    requires |re| == |im|
    ensures |z| == |re|
  {
    seq(|re|, i requires 0 <= i < |re| => Pair(re[i], im[i]))
  }

  /** Lines 260-268: one butterfly, on the entries `a` and `b`. */
  method Butterfly(re: array<Num>, im: array<Num>, a: nat, b: nat, wRe: real, wIm: real)
    requires re != im && re.Length == im.Length && a < b < re.Length
    modifies re, im
    ensures View(re[..], im[..]) ==
      var z := old(View(re[..], im[..]));
      var v := PairTimes(z[b], Complex(wRe, wIm));
      z[a := PairPlus(z[a], v)][b := PairMinus(z[a], v)]
  {
    hide Plus, Minus, Times;
    ghost var z := View(re[..], im[..]);
    var uRe := re[a];
    var uIm := im[a];
    var vRe := Minus(Times(re[b], Fin(wRe)), Times(im[b], Fin(wIm)));
    var vIm := Plus(Times(re[b], Fin(wIm)), Times(im[b], Fin(wRe)));
    assert Pair(uRe, uIm) == z[a] && Pair(vRe, vIm) == PairTimes(z[b], Complex(wRe, wIm));

    re[a] := Plus(uRe, vRe);
    im[a] := Plus(uIm, vIm);
    re[b] := Minus(uRe, vRe);
    im[b] := Minus(uIm, vIm);
    assert re[..] == old(re[..])[a := Plus(uRe, vRe)][b := Minus(uRe, vRe)];
    assert im[..] == old(im[..])[a := Plus(uIm, vIm)][b := Minus(uIm, vIm)];
  }

  /** A block `c` being written over the entries from `i` on, `k` butterflies done. */
  ghost predicate PartBlock(v: seq<Pair>, z: seq<Pair>, c: seq<Pair>, i: nat, half: nat, k: nat) {
    |v| == |z| && |c| == 2 * half && i + 2 * half <= |z| && k <= half &&
    forall p :: 0 <= p < |z| ==>
      v[p] == if i <= p < i + k || i + half <= p < i + half + k then c[p - i] else z[p]
  }

  lemma ButterflyAdvances(v: seq<Pair>, z: seq<Pair>, i: nat, half: nat, k: nat, root: Complex)
    requires i + 2 * half <= |z| && k < half
    requires PartBlock(v, z, CombinePairs(z[i..i + half], z[i + half..i + 2 * half], root), i, half, k)
    ensures
      var t := PairTimes(v[i + k + half], Pow(root, k));
      PartBlock(v[i + k := PairPlus(v[i + k], t)][i + k + half := PairMinus(v[i + k], t)], z,
                CombinePairs(z[i..i + half], z[i + half..i + 2 * half], root), i, half, k + 1)
  {
    hide PairTimes, PairPlus, PairMinus, Pow;
  }

  /** Lines 270-272: the running twiddle. */
  method NextTwiddle(wRe: real, wIm: real, wlenRe: real, wlenIm: real) returns (nextWRe: real, nextWIm: real)
    ensures Complex(nextWRe, nextWIm) == Mul(Complex(wRe, wIm), Complex(wlenRe, wlenIm))
  {
    nextWRe := wRe * wlenRe - wIm * wlenIm;
    nextWIm := wRe * wlenIm + wIm * wlenRe;
  }

  /** `z` with the butterflies of the block at `i` applied. */
  ghost function WithBlock(z: seq<Pair>, i: nat, half: nat, root: Complex): seq<Pair>
    requires i + 2 * half <= |z|
  {
    z[..i] + CombinePairs(z[i..i + half], z[i + half..i + 2 * half], root) + z[i + 2 * half..]
  }

  /** `z` with the stage applied to its first `i` entries. */
  ghost function StageUpTo(z: seq<Pair>, i: nat, half: nat, root: Complex): (r: seq<Pair>)
    requires i <= |z| && Multiple(i, 2 * half)
    ensures |r| == |z|
  {
    StagePairs(z[..i], half, root) + z[i..]
  }

  /** Lines 257-274: the butterflies of one block, with (wRe, wIm) running through the
      powers of the stage's twiddle. */
  method ButterflyBlock(re: array<Num>, im: array<Num>, i: nat, half: nat, wlenRe: real, wlenIm: real)
    requires re != im && re.Length == im.Length && i + 2 * half <= re.Length
    modifies re, im
    ensures View(re[..], im[..]) == WithBlock(old(View(re[..], im[..])), i, half, Complex(wlenRe, wlenIm))
  {
    hide CombinePairs, PairPlus, PairMinus, PairTimes, Mul, Pow, View, PartBlock;
    ghost var z := View(re[..], im[..]);
    ghost var root := Complex(wlenRe, wlenIm);
    ghost var c := CombinePairs(z[i..i + half], z[i + half..i + 2 * half], root);
    var wRe, wIm := 1.0, 0.0;
    PowStep(root, 0);
    BlockStarts(z, c, i, half);
    for k := 0 to half
      invariant Complex(wRe, wIm) == Pow(root, k)
      invariant PartBlock(View(re[..], im[..]), z, c, i, half, k)
    {
      ButterflyAdvances(View(re[..], im[..]), z, i, half, k, root);
      Butterfly(re, im, i + k, i + k + half, wRe, wIm);
      PowStep(root, k);
      wRe, wIm := NextTwiddle(wRe, wIm, wlenRe, wlenIm);
    }
    BlockDone(View(re[..], im[..]), z, c, i, half);
  }

  lemma BlockStarts(z: seq<Pair>, c: seq<Pair>, i: nat, half: nat)
    requires |c| == 2 * half && i + 2 * half <= |z|
    ensures PartBlock(z, z, c, i, half, 0)
  {
  }

  lemma BlockDone(v: seq<Pair>, z: seq<Pair>, c: seq<Pair>, i: nat, half: nat)
    requires PartBlock(v, z, c, i, half, half)
    ensures v == z[..i] + c + z[i + 2 * half..]
  {
  }

  lemma StageProgress(z: seq<Pair>, i: nat, half: nat, root: Complex)
    requires half > 0 && Multiple(i, 2 * half) && i + 2 * half <= |z|
    ensures Multiple(i + 2 * half, 2 * half)
    ensures WithBlock(StageUpTo(z, i, half, root), i, half, root) == StageUpTo(z, i + 2 * half, half, root)
  {
    hide CombinePairs, StagePairs, Multiple;
    var v, b := StageUpTo(z, i, half, root), z[i..i + 2 * half];
    StagePairsSnoc(z[..i], b, half, root);
    assert z[..i] + b == z[..i + 2 * half];
    var done, todo := StagePairs(z[..i], half, root), z[i..];
    assert v[..i] == done;
    SliceOfSecond(done, todo, 0, half);
    SliceOfSecond(done, todo, half, 2 * half);
    SliceOfSecond(done, todo, 2 * half, |todo|);
    assert todo[0..half] == z[i..i + half] == b[..half];
    assert todo[half..2 * half] == z[i + half..i + 2 * half] == b[half..];
    assert todo[2 * half..|todo|] == z[i + 2 * half..];
  }

  lemma StageEnds(z: seq<Pair>, half: nat, root: Complex)
    requires Multiple(|z|, 2 * half)
    ensures Multiple(0, 2 * half) && StageUpTo(z, 0, half, root) == z
    ensures StageUpTo(z, |z|, half, root) == StagePairs(z, half, root)
  {
    hide CombinePairs;
    assert z[..|z|] == z;
  }

  /** Line 256: one stage, block after block. */
  method ButterflyStage(re: array<Num>, im: array<Num>, half: nat, wlenRe: real, wlenIm: real)
    requires re != im && re.Length == im.Length && half > 0 && Multiple(re.Length, 2 * half)
    modifies re, im
    ensures View(re[..], im[..]) == StagePairs(old(View(re[..], im[..])), half, Complex(wlenRe, wlenIm))
  {
    hide StagePairs, View, StageUpTo, WithBlock;
    ghost var z := View(re[..], im[..]);
    ghost var root := Complex(wlenRe, wlenIm);
    var i := 0;
    StageEnds(z, half, root);
    while i < re.Length
      invariant i <= re.Length && Multiple(i, 2 * half) && Multiple(re.Length - i, 2 * half)
      invariant View(re[..], im[..]) == StageUpTo(z, i, half, root)
    {
      StageProgress(z, i, half, root);
      ButterflyBlock(re, im, i, half, wlenRe, wlenIm);
      i := i + 2 * half;
    }
  }

  /** Lines 252-275: all stages, on data already in bit-reversed order. */
  method Butterflies(re: array<Num>, im: array<Num>, w: Twiddles, ghost m: nat)
    requires re != im && re.Length == im.Length == Pow2(m)
    modifies re, im
    ensures Multiple(re.Length, Pow2(m))
    ensures View(re[..], im[..]) == AllStages(m, old(View(re[..], im[..])), w)
  {
    hide StagePairs, View, Multiple;
    ghost var y := View(re[..], im[..]);
    MultiplePow2(0, m);
    var len, s := 2, 0;
    assert Pow2(1) == 2;
    Pow2Bound(1, m);
    while len <= re.Length
      invariant s <= m && len == Pow2(s + 1) && (len <= re.Length <==> s + 1 <= m)
      invariant Multiple(|y|, Pow2(s)) && View(re[..], im[..]) == AllStages(s, y, w)
      decreases m - s
    {
      MultiplePow2(s + 1, m);
      ButterflyStage(re, im, len / 2, w(s + 1).re, w(s + 1).im);
      len := len * 2;
      s := s + 1;
      Pow2Bound(s + 1, m);
    }
  }

  /** The complex sequence held by two arrays without NaN. */
  function Complexes(re: seq<Num>, im: seq<Num>): (z: seq<Complex>)
    requires |re| == |im| && Finite(re) && Finite(im)
    ensures |z| == |re|
  {
    seq(|re|, i requires 0 <= i < |re| => Complex(re[i].value, im[i].value))
  }

  /** The whole transform in place. On finite input every entry ends as the plain DFT sum;
      a single NaN makes every entry one. */
  method Transform(re: array<Num>, im: array<Num>, w: Twiddles, ghost m: nat)
    requires re != im && re.Length == im.Length == Pow2(m) && ValidTwiddles(w, m)
    modifies re, im
    ensures Finite(old(re[..])) && Finite(old(im[..])) ==>
      forall k :: 0 <= k < re.Length ==>
        Pair(re[k], im[k]) == Of(Dft(Complexes(old(re[..]), old(im[..])), w(m), k))
    ensures !(Finite(old(re[..])) && Finite(old(im[..]))) ==>
      forall k :: 0 <= k < re.Length ==> Tainted(Pair(re[k], im[k]))
  {
    hide Dft, Eval, AllStages, Multiple, ValidTwiddles, Pow2, IsBitReversed, Tainted, Of;
    ghost var x := View(re[..], im[..]);
    Permute(re, im, m);
    ghost var y := View(re[..], im[..]);
    ViewReversed(m, old(re[..]), old(im[..]), re[..], im[..]);
    Butterflies(re, im, w, m);
    assert forall k :: 0 <= k < re.Length ==> View(re[..], im[..])[k] == Pair(re[k], im[k]);
    if Finite(old(re[..])) && Finite(old(im[..])) {
      FiniteTransform(m, old(re[..]), old(im[..]), y, w);
    } else {
      TaintedTransform(m, old(re[..]), old(im[..]), y, w);
    }
  }

  lemma ViewReversed(m: nat, re: seq<Num>, im: seq<Num>, re': seq<Num>, im': seq<Num>)
    requires IsBitReversed(m, re, re') && IsBitReversed(m, im, im')
    ensures IsBitReversed(m, View(re, im), View(re', im'))
  {
  }

  lemma FiniteTransform(m: nat, re: seq<Num>, im: seq<Num>, y: seq<Pair>, w: Twiddles)
    requires |re| == |im| && Finite(re) && Finite(im) && IsBitReversed(m, View(re, im), y)
    requires ValidTwiddles(w, m)
    ensures Multiple(|y|, Pow2(m))
    ensures forall k :: 0 <= k < |y| ==> AllStages(m, y, w)[k] == Of(Dft(Complexes(re, im), w(m), k))
  {
    hide Dft, Eval, AllStages, BlockSpectra, Multiple, ValidTwiddles, Pow2;
    var x := Complexes(re, im);
    var z := seq(|x|, p requires 0 <= p < |x| => x[Rev(m, p)]);
    assert y == Lift(z);
    WholeBlock(m, x, z, w);
    StagesAreSpectra(m, z, w, m);
    forall k | 0 <= k < |y| ensures AllStages(m, y, w)[k] == Of(Dft(x, w(m), k)) {
      EvalIsDft(x, w(m), k);
    }
  }

  lemma TaintedTransform(m: nat, re: seq<Num>, im: seq<Num>, y: seq<Pair>, w: Twiddles)
    requires |re| == |im| && !(Finite(re) && Finite(im)) && IsBitReversed(m, View(re, im), y)
    ensures Multiple(|y|, Pow2(m)) && AllTainted(AllStages(m, y, w))
  {
    hide AllStages, Multiple, Pow2;
    var p :| 0 <= p < |re| && (re[p].NaN? || im[p].NaN?);
    RevInvolution(m, p);
    OneNaNTaintsAll(m, y, w, Rev(m, p));
  }

  /** The squared magnitude of bin `k`: |X_k|^2 / n^2, from the plain DFT sum. */
  function BinPower(input: seq<real>, root: Complex, k: nat): (p: real)
    requires |input| > 0
    ensures p >= 0.0
  {
    NonNegative(NormSq(Dft(Reals(input), root, k)), |input| as real);
    NormSq(Dft(Reals(input), root, k)) / |input| as real / |input| as real
  }

  lemma NonNegative(x: real, n: real)
    requires x >= 0.0 && n > 0.0
    ensures x / n >= 0.0 && x / n / n >= 0.0
  {
  }

  /** Lines 278-280 without the square root: what one entry of the arrays contributes. */
  function Power(z: Pair, n: real): Num
    requires n != 0.0
  {
    Over(Over(Plus(Times(z.re, z.re), Times(z.im, z.im)), n), n)
  }

  lemma PowerOfBin(input: seq<real>, root: Complex, k: nat)
    requires |input| > 0
    ensures Power(Of(Dft(Reals(input), root, k)), |input| as real) == Fin(BinPower(input, root, k))
  {
    hide Dft;
    var bin := Dft(Reals(input), root, k);
    FiniteTimes(bin.re, bin.re);
    FiniteTimes(bin.im, bin.im);
    hide Times;
    assert Plus(Times(Fin(bin.re), Fin(bin.re)), Times(Fin(bin.im), Fin(bin.im))) == Fin(NormSq(bin));
  }

  /** Lines 277-281, over the entries 0..n/2. */
  method Powers(re: array<Num>, im: array<Num>) returns (powers: seq<Num>)
    requires re.Length == im.Length > 0
    ensures |powers| == re.Length / 2 + 1 <= re.Length
    ensures forall k :: 0 <= k < |powers| ==> powers[k] == Power(Pair(re[k], im[k]), re.Length as real)
  {
    hide Power;
    var n := re.Length;
    powers := [];
    for i := 0 to n / 2 + 1
      invariant |powers| == i
      invariant forall k :: 0 <= k < i ==> powers[k] == Power(Pair(re[k], im[k]), n as real)
    {
      powers := powers + [Power(Pair(re[i], im[i]), n as real)];
    }
  }

  /** fftMagnitudes, with each magnitude squared: the first n/2 + 1 bins of the plain DFT,
      or nothing but NaN. */
  method FftPowers(input: seq<Num>, w: Twiddles, ghost m: nat) returns (powers: seq<Num>)
    requires |input| == Pow2(m) && ValidTwiddles(w, m)
    ensures |powers| == |input| / 2 + 1 <= |input|
    ensures Finite(input) ==>
      forall k :: 0 <= k < |powers| ==> powers[k] == Fin(BinPower(Values(input), w(m), k))
    ensures !Finite(input) ==> AllNaN(powers)
  {
    hide Dft, ValidTwiddles, Pow2, BinPower, Of, Power;
    var n := |input|;
    var re := new Num[n](i requires 0 <= i < n => input[i]);
    var im := new Num[n](i => Fin(0.0));
    assert re[..] == input && Finite(im[..]);
    assert Finite(input) ==> Complexes(re[..], im[..]) == Reals(Values(input));
    Transform(re, im, w, m);
    powers := Powers(re, im);
    if Finite(input) {
      forall k | 0 <= k < |powers| ensures powers[k] == Fin(BinPower(Values(input), w(m), k)) {
        PowerOfBin(Values(input), w(m), k);
      }
    } else {
      forall k | 0 <= k < |powers| ensures powers[k].NaN? {
        PowerOfTainted(Pair(re[k], im[k]), n as real);
      }
    }
  }

  lemma PowerOfTainted(z: Pair, n: real)
    requires Tainted(z) && n != 0.0
    ensures Power(z, n).NaN?
  {
  }
}
