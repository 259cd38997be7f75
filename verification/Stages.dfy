/** The stages of the sleep sentinel's FFT (SleepSentinelAgent, lines 252-275) on sequences
    of complex numbers: after stage s every block of length 2^s holds its own spectrum. */
module Stages {
  import opened Common
  import opened ComplexNumbers
  import opened BitReversal
  import opened Fourier

  ghost predicate Multiple(n: nat, len: nat) {
    n == 0 || (0 < len <= n && Multiple(n - len, len))
  }

  lemma {:induction false} MultipleAdd(a: nat, b: nat, len: nat)
    requires Multiple(a, len) && Multiple(b, len)
    ensures Multiple(a + b, len)
  {
    if b > 0 {
      MultipleAdd(a, b - len, len);
    }
  }

  lemma {:induction false} MultiplePow2(s: nat, m: nat)
    requires s <= m
    ensures Multiple(Pow2(m), Pow2(s))
  {
    if s < m {
      MultiplePow2(s, m - 1);
      MultipleAdd(Pow2(m - 1), Pow2(m - 1), Pow2(s));
    } else {
      assert Multiple(0, Pow2(s));
    }
  }

  lemma {:induction false} MultipleHalves(n: nat, half: nat)
    requires Multiple(n, 2 * half)
    ensures Multiple(n, half)
  {
    if n > 0 {
      MultipleHalves(n - 2 * half, half);
      assert Multiple(n - half, half);
    }
  }

  /** One pass of butterflies over all aligned blocks of length 2*half. */
  ghost function Stage(z: seq<Complex>, half: nat, root: Complex): (r: seq<Complex>)
    requires Multiple(|z|, 2 * half)
    ensures |r| == |z|
    decreases |z|
  {
    if z == [] then []
    else
      var m := |z| - 2 * half;
      Stage(z[..m], half, root) + Combine(z[m..m + half], z[m + half..], root)
  }

  /** The input order of a block that holds its elements in bit-reversed order. */
  ghost function Unscramble(s: nat, y: seq<Complex>): (r: seq<Complex>)
    requires |y| == Pow2(s)
    ensures |r| == |y|
  {
    if s == 0 then y
    else
      var half := Pow2(s - 1);
      Interleave(Unscramble(s - 1, y[..half]), Unscramble(s - 1, y[half..]))
  }

  lemma {:induction false} UnscrambleAt(s: nat, y: seq<Complex>, t: nat)
    requires |y| == Pow2(s) && t < |y|
    ensures Unscramble(s, y)[t] == y[Rev(s, t)]
  {
    if s > 0 {
      var half := Pow2(s - 1);
      UnscrambleAt(s - 1, if t % 2 == 0 then y[..half] else y[half..], t / 2);
    }
  }

  /** After the swap pass the natural order is the input itself. */
  lemma UnscrambleReversed(s: nat, x: seq<Complex>, y: seq<Complex>)
    requires IsBitReversed(s, x, y)
    ensures Unscramble(s, y) == x
  {
    forall t | 0 <= t < |x| ensures Unscramble(s, y)[t] == x[t] {
      UnscrambleAt(s, y, t);
      RevInvolution(s, t);
    }
  }

  /** The stage invariant: each block of length 2^s holds the DFT of its own elements
      taken in input order. */
  ghost function BlockSpectra(s: nat, y: seq<Complex>, w: Twiddles): (r: seq<Complex>)
    requires Multiple(|y|, Pow2(s))
    ensures |r| == |y|
    decreases |y|
  {
    if y == [] then []
    else
      var m := |y| - Pow2(s);
      BlockSpectra(s, y[..m], w) + Spectrum(s, Unscramble(s, y[m..]), w)
  }

  lemma {:induction false} BlockSpectraStart(y: seq<Complex>, w: Twiddles)
    requires Multiple(|y|, 1)
    ensures BlockSpectra(0, y, w) == y
    decreases |y|
  {
    if y != [] {
      var m := |y| - 1;
      BlockSpectraStart(y[..m], w);
      EvalSingleton(y[m..], Pow(w(0), 0));
      assert Spectrum(0, y[m..], w) == y[m..];
    }
  }

  lemma BlockSpectraSnoc(s: nat, p: seq<Complex>, b: seq<Complex>, w: Twiddles)
    requires Multiple(|p|, Pow2(s)) && |b| == Pow2(s)
    ensures Multiple(|p + b|, Pow2(s))
    ensures BlockSpectra(s, p + b, w) == BlockSpectra(s, p, w) + Spectrum(s, Unscramble(s, b), w)
  {
    hide Spectrum, Unscramble;
    assert (p + b)[..|p|] == p && (p + b)[|p|..] == b;
  }

  lemma StageSnoc(p: seq<Complex>, b: seq<Complex>, half: nat, root: Complex)
    requires half > 0 && Multiple(|p|, 2 * half) && |b| == 2 * half
    ensures Multiple(|p + b|, 2 * half)
    ensures Stage(p + b, half, root) == Stage(p, half, root) + Combine(b[..half], b[half..], root)
  {
    hide Combine;
    var z, m := p + b, |p|;
    assert z[..m] == p && z[m..m + half] == b[..half] && z[m + half..] == b[half..];
  }

  /** Every stage advances the invariant by one power of two. */
  lemma {:induction false} StageAdvances(s: nat, y: seq<Complex>, w: Twiddles, stages: nat)
    requires ValidTwiddles(w, stages) && s < stages
    requires Multiple(|y|, Pow2(s + 1)) && Multiple(|y|, Pow2(s))
    ensures Stage(BlockSpectra(s, y, w), Pow2(s), w(s + 1)) == BlockSpectra(s + 1, y, w)
    decreases |y|
  {
    if y != [] {
      var m := |y| - 2 * Pow2(s);
      MultipleHalves(m, Pow2(s));
      StageAdvances(s, y[..m], w, stages);
      LastBlock(s, y, m, w, stages);
    }
  }

  /** Both sides of StageAdvances grow by the same block at the end of `y`. */
  lemma LastBlock(s: nat, y: seq<Complex>, m: nat, w: Twiddles, stages: nat)
    requires ValidTwiddles(w, stages) && s < stages
    requires |y| == m + 2 * Pow2(s) && Multiple(m, Pow2(s + 1)) && Multiple(m, Pow2(s))
    ensures Multiple(|y|, Pow2(s)) && Multiple(|y|, Pow2(s + 1))
    ensures Stage(BlockSpectra(s, y, w), Pow2(s), w(s + 1))
         == Stage(BlockSpectra(s, y[..m], w), Pow2(s), w(s + 1)) + Spectrum(s + 1, Unscramble(s + 1, y[m..]), w)
    ensures BlockSpectra(s + 1, y, w)
         == BlockSpectra(s + 1, y[..m], w) + Spectrum(s + 1, Unscramble(s + 1, y[m..]), w)
  {
    hide Stage, BlockSpectra, Spectrum, Unscramble, ValidTwiddles, Multiple;
    var half := Pow2(s);
    OneBlockMore(s, y[..m], y[m..m + half], y[m + half..], w, stages);
    assert y[m..m + half] + y[m + half..] == y[m..];
    assert y[..m] + y[m..] == y;
  }

  lemma OneBlockMore(s: nat, p: seq<Complex>, a: seq<Complex>, b: seq<Complex>, w: Twiddles, stages: nat)
    requires ValidTwiddles(w, stages) && s < stages
    requires |a| == |b| == Pow2(s) && Multiple(|p|, Pow2(s + 1)) && Multiple(|p|, Pow2(s))
    ensures Multiple(|p + (a + b)|, Pow2(s)) && Multiple(|p + (a + b)|, Pow2(s + 1))
    ensures Stage(BlockSpectra(s, p + (a + b), w), Pow2(s), w(s + 1))
         == Stage(BlockSpectra(s, p, w), Pow2(s), w(s + 1)) + Spectrum(s + 1, Unscramble(s + 1, a + b), w)
    ensures BlockSpectra(s + 1, p + (a + b), w)
         == BlockSpectra(s + 1, p, w) + Spectrum(s + 1, Unscramble(s + 1, a + b), w)
  {
    hide Spectrum, Combine, BlockSpectra, Stage;
    var half := Pow2(s);
    var sa, sb := Spectrum(s, Unscramble(s, a), w), Spectrum(s, Unscramble(s, b), w);
    assert p + (a + b) == (p + a) + b;
    BlockSpectraSnoc(s, p, a, w);
    BlockSpectraSnoc(s, p + a, b, w);
    BlockSpectraSnoc(s + 1, p, a + b, w);
    var q := BlockSpectra(s, p, w);
    assert BlockSpectra(s, p + (a + b), w) == q + (sa + sb);
    StageSnoc(q, sa + sb, half, w(s + 1));
    assert (sa + sb)[..half] == sa && (sa + sb)[half..] == sb;
    assert (a + b)[..half] == a && (a + b)[half..] == b;
    CombineSpectra(s, Unscramble(s, a), Unscramble(s, b), w, stages);
  }

  lemma WholeBlock(m: nat, x: seq<Complex>, y: seq<Complex>, w: Twiddles)
    requires IsBitReversed(m, x, y)
    ensures Multiple(|y|, Pow2(m)) && BlockSpectra(m, y, w) == Spectrum(m, x, w)
  {
    MultiplePow2(m, m);
    UnscrambleReversed(m, x, y);
    assert y[..0] == [] && y[0..] == y;
  }

  lemma {:induction false} Pow2Bound(s: nat, m: nat)
    ensures Pow2(s) <= Pow2(m) <==> s <= m
  {
    if s > 0 && m > 0 {
      Pow2Bound(s - 1, m - 1);
    }
  }

  function Reals(x: seq<real>): (z: seq<Complex>)
    ensures |z| == |x|
  {
    seq(|x|, i requires 0 <= i < |x| => Real(x[i]))
  }
}
