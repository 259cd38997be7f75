/** The discrete Fourier transform as a plain sum, and the divide-and-conquer law the
    butterfly stages rest on. Twiddle constants are given, one per stage; no
    trigonometry is involved. */
module Fourier {
  import opened Common
  import opened ComplexNumbers
  import opened BitReversal

  /** `w(s)` is the constant (wlenRe, wlenIm) of the stage whose block length is 2^s. */
  type Twiddles = nat -> Complex

  /** All that is used of e^(-2*pi*i/len): -1 at len 2, and squaring halves the block length. */
  ghost predicate ValidTwiddles(w: Twiddles, stages: nat) {
    (stages >= 1 ==> w(1) == MINUS_ONE) &&
    forall s :: 1 <= s < stages ==> Mul(w(s + 1), w(s + 1)) == w(s)
  }

  /** Sum over t < n of x[t] * root^(k*t). */
  function PartialDft(x: seq<Complex>, root: Complex, k: nat, n: nat): Complex
    requires n <= |x|
  {
    if n == 0 then ZERO
    else Add(PartialDft(x, root, k, n - 1), Mul(x[n - 1], Pow(root, k * (n - 1))))
  }

  /** Bin `k` of the plain DFT. */
  function Dft(x: seq<Complex>, root: Complex, k: nat): Complex {
    PartialDft(x, root, k, |x|)
  }

  /** The polynomial with coefficients `x` at `z`, by Horner's rule. */
  function Eval(x: seq<Complex>, z: Complex): Complex {
    if x == [] then ZERO else Add(x[0], Mul(z, Eval(x[1..], z)))
  }

  lemma {:induction false} EvalSnoc(x: seq<Complex>, c: Complex, z: Complex)
    ensures Eval(x + [c], z) == Add(Eval(x, z), Mul(c, Pow(z, |x|)))
  {
    hide Mul;
    if x == [] {
      assert x + [c] == [c] && [c][1..] == [];
      MulUnit(c);
      MulUnit(z);
    } else {
      var p, q := Eval(x[1..], z), Mul(c, Pow(z, |x| - 1));
      assert (x + [c])[1..] == x[1..] + [c];
      EvalSnoc(x[1..], c, z);
      MulAdd(z, p, q);
      MulComm(z, q);
      MulAssoc(c, Pow(z, |x| - 1), z);
    }
  }

  lemma {:induction false} EvalIsPartialDft(x: seq<Complex>, root: Complex, k: nat, n: nat)
    requires n <= |x|
    ensures Eval(x[..n], Pow(root, k)) == PartialDft(x, root, k, n)
  {
    hide Mul;
    if n > 0 {
      EvalIsPartialDft(x, root, k, n - 1);
      assert x[..n] == x[..n - 1] + [x[n - 1]];
      EvalSnoc(x[..n - 1], x[n - 1], Pow(root, k));
      PowPow(root, k, n - 1);
    }
  }

  /** Evaluating at the k-th power of the root is the k-th bin of the DFT. */
  lemma EvalIsDft(x: seq<Complex>, root: Complex, k: nat)
    ensures Eval(x, Pow(root, k)) == Dft(x, root, k)
  {
    EvalIsPartialDft(x, root, k, |x|);
    assert x[..|x|] == x;
  }

  /** The sequence with `a` at its even indices and `b` at its odd ones. */
  function Interleave<T>(a: seq<T>, b: seq<T>): (r: seq<T>)
    requires |a| == |b|
    ensures |r| == |a| + |b|
    ensures forall t :: 0 <= t < |r| ==> r[t] == if t % 2 == 0 then a[t / 2] else b[t / 2]
  {
    if a == [] then [] else [a[0], b[0]] + Interleave(a[1..], b[1..])
  }

  /** The Danielson-Lanczos split: even and odd parts at the square. */
  lemma {:induction false} EvalInterleave(a: seq<Complex>, b: seq<Complex>, z: Complex)
    requires |a| == |b|
    ensures Eval(Interleave(a, b), z) == Add(Eval(a, Mul(z, z)), Mul(z, Eval(b, Mul(z, z))))
  {
    hide Mul;
    var zz := Mul(z, z);
    if a == [] {
      MulUnit(z);
    } else {
      EvalInterleave(a[1..], b[1..], z);
      var rest := Interleave(a[1..], b[1..]);
      var both := Interleave(a, b);
      var p, q := Eval(a[1..], zz), Eval(b[1..], zz);
      assert both[1..] == [b[0]] + rest && both[1..][1..] == rest;
      calc {
        Eval(both, z);
        Add(a[0], Mul(z, Add(b[0], Mul(z, Add(p, Mul(z, q))))));
        { MulAdd(z, b[0], Mul(z, Add(p, Mul(z, q)))); }
        Add(a[0], Add(Mul(z, b[0]), Mul(z, Mul(z, Add(p, Mul(z, q))))));
        { MulAssoc(z, z, Add(p, Mul(z, q))); MulAdd(zz, p, Mul(z, q)); }
        Add(a[0], Add(Mul(z, b[0]), Add(Mul(zz, p), Mul(zz, Mul(z, q)))));
        { MulAssoc(zz, z, q); MulComm(zz, z); MulAssoc(z, zz, q); }
        Add(a[0], Add(Mul(z, b[0]), Add(Mul(zz, p), Mul(z, Mul(zz, q)))));
        { MulAdd(z, b[0], Mul(zz, q)); }
        Add(Add(a[0], Mul(zz, p)), Mul(z, Add(b[0], Mul(zz, q))));
        Add(Eval(a, zz), Mul(z, Eval(b, zz)));
      }
    }
  }

  /** All bins of the DFT of a block of length 2^s. */
  function Spectrum(s: nat, x: seq<Complex>, w: Twiddles): (r: seq<Complex>)
    ensures |r| == |x|
  {
    seq(|x|, k requires 0 <= k < |x| => Eval(x, Pow(w(s), k)))
  }

  /** One block of butterflies: upper half u + v, lower half u - v. */
  function Combine(e: seq<Complex>, o: seq<Complex>, root: Complex): (r: seq<Complex>)
    requires |e| == |o|
    ensures |r| == |e| + |o|
  {
    seq(|e| + |o|, k requires 0 <= k < |e| + |o| =>
      if k < |e| then Add(e[k], Mul(o[k], Pow(root, k)))
      else Sub(e[k - |e|], Mul(o[k - |e|], Pow(root, k - |e|))))
  }

  /** Half a block of twiddle steps is a half turn. */
  lemma {:induction false} HalfTurn(s: nat, w: Twiddles, stages: nat)
    requires ValidTwiddles(w, stages) && s < stages
    ensures Pow(w(s + 1), Pow2(s)) == MINUS_ONE
  {
    hide Mul;
    MulUnit(w(s + 1));
    assert Pow(w(s + 1), 1) == Mul(Pow(w(s + 1), 0), w(s + 1)) == w(s + 1);
    if s > 0 {
      HalfTurn(s - 1, w, stages);
      assert Pow(w(s + 1), 2) == Mul(Pow(w(s + 1), 1), w(s + 1)) == w(s);
      PowPow(w(s + 1), 2, Pow2(s - 1));
    }
  }

  lemma EvalSingleton(x: seq<Complex>, z: Complex)
    requires |x| == 1
    ensures Eval(x, z) == x[0]
  {
    assert x[1..] == [];
    MulUnit(z);
  }

  /** Squaring a power of one stage's twiddle gives a point of the stage below. */
  lemma SquaredPoint(s: nat, x: seq<Complex>, w: Twiddles, stages: nat, k: nat)
    requires ValidTwiddles(w, stages) && s < stages && |x| == Pow2(s)
    ensures Eval(x, Mul(Pow(w(s + 1), k), Pow(w(s + 1), k))) == Eval(x, Pow(w(s), k))
  {
    hide Mul, Eval;
    if s == 0 {
      EvalSingleton(x, Mul(Pow(w(s + 1), k), Pow(w(s + 1), k)));
      EvalSingleton(x, Pow(w(s), k));
    } else {
      PowMul(w(s + 1), w(s + 1), k);
    }
  }

  lemma NegatedPoint(a: seq<Complex>, b: seq<Complex>, z: Complex)
    requires |a| == |b|
    ensures Eval(Interleave(a, b), Mul(MINUS_ONE, z))
         == Sub(Eval(a, Mul(z, z)), Mul(z, Eval(b, Mul(z, z))))
  {
    hide Mul, Eval;
    var y, q := Mul(MINUS_ONE, z), Eval(b, Mul(z, z));
    EvalInterleave(a, b, y);
    assert Mul(y, y) == Mul(z, z) by {
      MulSwap(MINUS_ONE, z, MINUS_ONE, z);
      MulUnit(Mul(z, z));
      MulUnit(MINUS_ONE);
    }
    assert Mul(y, q) == Sub(ZERO, Mul(z, q)) by {
      MulAssoc(MINUS_ONE, z, q);
      MulUnit(Mul(z, q));
    }
  }

  /** The pair of bins that one butterfly writes: `j` in the upper half, `half + j` below. */
  lemma ButterflyBins(s: nat, a: seq<Complex>, b: seq<Complex>, w: Twiddles, stages: nat, j: nat)
    requires ValidTwiddles(w, stages) && s < stages
    requires |a| == |b| == Pow2(s)
    ensures
      var u, v := Eval(a, Pow(w(s), j)), Mul(Eval(b, Pow(w(s), j)), Pow(w(s + 1), j));
      Eval(Interleave(a, b), Pow(w(s + 1), j)) == Add(u, v) &&
      Eval(Interleave(a, b), Pow(w(s + 1), Pow2(s) + j)) == Sub(u, v)
  {
    hide Mul, Eval, Pow2;
    var z := Pow(w(s + 1), j);
    SquaredPoint(s, a, w, stages, j);
    SquaredPoint(s, b, w, stages, j);
    EvalInterleave(a, b, z);
    MulComm(z, Eval(b, Mul(z, z)));
    HalfTurn(s, w, stages);
    PowAdd(w(s + 1), Pow2(s), j);
    NegatedPoint(a, b, z);
  }

  /** One stage of butterflies turns the spectra of two blocks into the spectrum of
      their interleaving. */
  lemma CombineSpectra(s: nat, a: seq<Complex>, b: seq<Complex>, w: Twiddles, stages: nat)
    requires ValidTwiddles(w, stages) && s < stages
    requires |a| == |b| == Pow2(s)
    ensures Combine(Spectrum(s, a, w), Spectrum(s, b, w), w(s + 1)) == Spectrum(s + 1, Interleave(a, b), w)
  {
    hide Mul, Eval, Pow, Pow2, Add, Sub, ValidTwiddles, Interleave;
    var l := Combine(Spectrum(s, a, w), Spectrum(s, b, w), w(s + 1));
    var r := Spectrum(s + 1, Interleave(a, b), w);
    forall k | 0 <= k < |l|
      ensures l[k] == r[k]
    {
      ButterflyBins(s, a, b, w, stages, if k < |a| then k else k - |a|);
    }
  }
}
