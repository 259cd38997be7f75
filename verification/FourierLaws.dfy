/** Energy conservation and mirror symmetry of the transform. */
module FourierLaws {
  import opened Common
  import opened ComplexNumbers
  import opened BitReversal
  import opened Fourier
  import opened Stages

  /** Sum over p < n of |z[p]|^2. */
  function EnergyTo(z: seq<Complex>, n: nat): real
    requires n <= |z|
  {
    if n == 0 then 0.0 else EnergyTo(z, n - 1) + NormSq(z[n - 1])
  }

  function Energy(z: seq<Complex>): real { EnergyTo(z, |z|) }

  lemma {:induction false} EnergyConcat(a: seq<Complex>, b: seq<Complex>, n: nat)
    requires n <= |b|
    ensures EnergyTo(a + b, |a| + n) == Energy(a) + EnergyTo(b, n)
  {
    if n == 0 {
      EnergyPrefix(a + b, a, |a|);
    } else {
      EnergyConcat(a, b, n - 1);
    }
  }

  lemma EnergyCat(a: seq<Complex>, b: seq<Complex>)
    ensures Energy(a + b) == Energy(a) + Energy(b)
  {
    EnergyConcat(a, b, |b|);
  }

  lemma {:induction false} EnergyPrefix(z: seq<Complex>, a: seq<Complex>, n: nat)
    requires n <= |a| <= |z| && z[..n] == a[..n]
    ensures EnergyTo(z, n) == EnergyTo(a, n)
  {
    if n > 0 {
      assert z[..n][n - 1] == a[..n][n - 1];
      assert z[..n][..n - 1] == z[..n - 1] && a[..n][..n - 1] == a[..n - 1];
      EnergyPrefix(z, a, n - 1);
    }
  }

  /** The parallelogram law: one butterfly doubles the energy it touches. */
  lemma Parallelogram(u: Complex, v: Complex)
    ensures NormSq(Add(u, v)) + NormSq(Sub(u, v)) == 2.0 * NormSq(u) + 2.0 * NormSq(v)
  {
  }

  lemma {:induction false} CombineEnergyTo(e: seq<Complex>, o: seq<Complex>, root: Complex, n: nat)
    requires |e| == |o| && n <= |e| && NormSq(root) == 1.0
    ensures
      var c := Combine(e, o, root);
      EnergyTo(c[..|e|], n) + EnergyTo(c[|e|..], n) == 2.0 * EnergyTo(e, n) + 2.0 * EnergyTo(o, n)
  {
    hide Mul, Add, Sub, NormSq, Pow;
    if n > 0 {
      var k := n - 1;
      var v := Mul(o[k], Pow(root, k));
      CombineEnergyTo(e, o, root, k);
      Parallelogram(e[k], v);
      PowUnit(root, k);
      NormSqMul(o[k], Pow(root, k));
      var c := Combine(e, o, root);
      assert c[..|e|][k] == Add(e[k], v) && c[|e|..][k] == Sub(e[k], v);
    }
  }

  /** A stage of butterflies with a unit twiddle doubles the total energy. */
  lemma {:induction false} StageDoublesEnergy(z: seq<Complex>, half: nat, root: Complex)
    requires half > 0 && Multiple(|z|, 2 * half) && NormSq(root) == 1.0
    ensures Energy(Stage(z, half, root)) == 2.0 * Energy(z)
    decreases |z|
  {
    hide Combine, EnergyTo;
    if z != [] {
      var m := |z| - 2 * half;
      var p, e, o := z[..m], z[m..m + half], z[m + half..];
      StageDoublesEnergy(p, half, root);
      CombineDoublesEnergy(e, o, root);
      assert z == p + (e + o);
      EnergyCat(Stage(p, half, root), Combine(e, o, root));
      EnergyCat(p, e + o);
      EnergyCat(e, o);
    } else {
      assert Energy([]) == 0.0 by { EnergyCat([], []); }
    }
  }

  lemma CombineDoublesEnergy(e: seq<Complex>, o: seq<Complex>, root: Complex)
    requires |e| == |o| && NormSq(root) == 1.0
    ensures Energy(Combine(e, o, root)) == 2.0 * (Energy(e) + Energy(o))
  {
    hide Combine, EnergyTo;
    var c := Combine(e, o, root);
    CombineEnergyTo(e, o, root, |e|);
    EnergyCat(c[..|e|], c[|e|..]);
    assert c == c[..|e|] + c[|e|..];
  }

  /** Unit modulus need not be assumed: it follows from the squaring law. */
  lemma {:induction false} TwiddlesAreUnit(w: Twiddles, stages: nat, s: nat)
    requires ValidTwiddles(w, stages) && 1 <= s <= stages
    ensures NormSq(w(s)) == 1.0
  {
    if s > 1 {
      TwiddlesAreUnit(w, stages, s - 1);
      var q := NormSq(w(s));
      NormSqMul(w(s), w(s));
      UnitSquare(q);
    }
  }

  lemma UnitSquare(q: real)
    requires q >= 0.0 && q * q == 1.0
    ensures q == 1.0
  {
    if q > 1.0 {
      SquareAbove(q);
    } else if q < 1.0 {
      SquareBelow(q);
    }
  }

  lemma SquareAbove(q: real)
    requires q > 1.0
    ensures q * q > 1.0
  {
    ProductPositive(q, q - 1.0);
  }

  lemma SquareBelow(q: real)
    requires 0.0 <= q < 1.0
    ensures q * q < 1.0
  {
    if q > 0.0 {
      ProductPositive(q, 1.0 - q);
    }
  }

  lemma {:induction false} BlockSpectraEnergy(s: nat, y: seq<Complex>, w: Twiddles, m: nat)
    requires ValidTwiddles(w, m) && s <= m && |y| == Pow2(m)
    ensures Multiple(|y|, Pow2(s)) && Energy(BlockSpectra(s, y, w)) == Pow2(s) as real * Energy(y)
  {
    hide ValidTwiddles, BlockSpectra, Stage, Energy, Multiple, NormSq;
    MultiplePow2(s, m);
    if s == 0 {
      BlockSpectraStart(y, w);
    } else {
      BlockSpectraEnergy(s - 1, y, w, m);
      StageAdvances(s - 1, y, w, m);
      TwiddlesAreUnit(w, m, s);
      StageDoublesEnergy(BlockSpectra(s - 1, y, w), Pow2(s - 1), w(s));
      var p := Pow2(s - 1) as real;
      assert Pow2(s) as real == 2.0 * p;
      assert 2.0 * (p * Energy(y)) == (2.0 * p) * Energy(y);
    }
  }

  lemma {:induction false} InterleaveEnergy(a: seq<Complex>, b: seq<Complex>, n: nat)
    requires |a| == |b| && n <= |a|
    ensures EnergyTo(Interleave(a, b), 2 * n) == EnergyTo(a, n) + EnergyTo(b, n)
  {
    hide NormSq, Interleave;
    if n > 0 {
      InterleaveEnergy(a, b, n - 1);
      var z := Interleave(a, b);
      assert z[2 * n - 2] == a[n - 1] && z[2 * n - 1] == b[n - 1];
      assert EnergyTo(z, 2 * n - 1) == EnergyTo(z, 2 * n - 2) + NormSq(z[2 * n - 2]);
    }
  }

  lemma {:induction false} UnscrambleEnergy(s: nat, y: seq<Complex>)
    requires |y| == Pow2(s)
    ensures Energy(Unscramble(s, y)) == Energy(y)
  {
    hide Energy, Interleave;
    if s > 0 {
      var half := Pow2(s - 1);
      UnscrambleEnergy(s - 1, y[..half]);
      UnscrambleEnergy(s - 1, y[half..]);
      HalvesEnergy(y[..half], y[half..], Unscramble(s - 1, y[..half]), Unscramble(s - 1, y[half..]));
      assert y == y[..half] + y[half..];
    }
  }

  lemma HalvesEnergy(a: seq<Complex>, b: seq<Complex>, a': seq<Complex>, b': seq<Complex>)
    requires |a'| == |b'| && Energy(a) == Energy(a') && Energy(b) == Energy(b')
    ensures Energy(Interleave(a', b')) == Energy(a + b)
  {
    hide EnergyTo, Interleave;
    InterleaveEnergy(a', b', |a'|);
    EnergyCat(a, b);
  }

  /** Parseval: the bins of the DFT carry n times the energy of the input. */
  lemma Parseval(m: nat, x: seq<Complex>, w: Twiddles)
    requires ValidTwiddles(w, m) && |x| == Pow2(m)
    ensures Energy(seq(|x|, k requires 0 <= k < |x| => Dft(x, w(m), k))) == |x| as real * Energy(x)
  {
    hide BlockSpectra, Spectrum, Dft, Energy, ValidTwiddles, Multiple, Unscramble;
    var y := seq(|x|, p requires 0 <= p < |x| => x[Rev(m, p)]);
    UnscrambleReversed(m, x, y);
    UnscrambleEnergy(m, y);
    BlockSpectraEnergy(m, y, w, m);
    WholeBlock(m, x, y, w);
    var bins := seq(|x|, k requires 0 <= k < |x| => Dft(x, w(m), k));
    SpectrumIsDft(m, x, w);
    assert bins == Spectrum(m, x, w);
  }

  lemma SpectrumIsDft(m: nat, x: seq<Complex>, w: Twiddles)
    ensures forall k :: 0 <= k < |x| ==> Spectrum(m, x, w)[k] == Dft(x, w(m), k)
  {
    hide Dft, Eval;
    forall k | 0 <= k < |x| ensures Spectrum(m, x, w)[k] == Dft(x, w(m), k) {
      EvalIsDft(x, w(m), k);
    }
  }

  lemma {:induction false} EvalConj(x: seq<real>, z: Complex)
    ensures Eval(Reals(x), Conj(z)) == Conj(Eval(Reals(x), z))
  {
    hide Mul;
    if x != [] {
      assert Reals(x)[1..] == Reals(x[1..]);
      EvalConj(x[1..], z);
      ConjMul(z, Eval(Reals(x[1..]), z));
    }
  }

  /** For real input bin n-k is the conjugate of bin k, so the n/2 + 1 bins that are
      returned determine all n magnitudes. */
  lemma MirrorBins(m: nat, x: seq<real>, w: Twiddles, k: nat)
    requires ValidTwiddles(w, m) && |x| == Pow2(m) && 0 < k < |x|
    ensures Dft(Reals(x), w(m), |x| - k) == Conj(Dft(Reals(x), w(m), k))
    ensures NormSq(Dft(Reals(x), w(m), |x| - k)) == NormSq(Dft(Reals(x), w(m), k))
  {
    hide Mul, Dft, Eval;
    var n, root := |x|, w(m);
    var p, q := Pow(root, k), Pow(root, n - k);
    assert Mul(q, p) == ONE by {
      HalfTurn(m - 1, w, m);
      PowAdd(root, Pow2(m - 1), Pow2(m - 1));
      PowAdd(root, n - k, k);
      MulUnit(MINUS_ONE);
    }
    assert q == Conj(p) by {
      TwiddlesAreUnit(w, m, m);
      PowUnit(root, k);
      ConjMul(p, p);
      MulAssoc(q, p, Conj(p));
      MulUnit(q);
      MulUnit(Conj(p));
    }
    EvalIsDft(Reals(x), root, k);
    EvalIsDft(Reals(x), root, n - k);
    EvalConj(x, p);
  }
}
