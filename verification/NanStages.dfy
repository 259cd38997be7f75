/** The butterfly stages on pairs that may hold NaN: on finite numbers they are the stages
    of the transform, and a single NaN reaches every entry. */
module NanStages {
  import opened Common
  import opened ComplexNumbers
  import opened NanNumbers
  import opened BitReversal
  import opened Fourier
  import opened Stages

  /** One block of butterflies: upper half u + v, lower half u - v. */
  ghost function CombinePairs(e: seq<Pair>, o: seq<Pair>, root: Complex): (r: seq<Pair>)
    requires |e| == |o|
    ensures |r| == |e| + |o|
  {
    seq(|e| + |o|, k requires 0 <= k < |e| + |o| =>
      if k < |e| then PairPlus(e[k], PairTimes(o[k], Pow(root, k)))
      else PairMinus(e[k - |e|], PairTimes(o[k - |e|], Pow(root, k - |e|))))
  }

  /** One pass of butterflies over all aligned blocks of length 2*half. */
  ghost function StagePairs(z: seq<Pair>, half: nat, root: Complex): (r: seq<Pair>)
    requires Multiple(|z|, 2 * half)
    ensures |r| == |z|
    decreases |z|
  {
    if z == [] then []
    else
      var m := |z| - 2 * half;
      StagePairs(z[..m], half, root) + CombinePairs(z[m..m + half], z[m + half..], root)
  }

  /** The stages of block length 2, 4, ..., 2^s. */
  ghost function AllStages(s: nat, z: seq<Pair>, w: Twiddles): (r: seq<Pair>)
    requires Multiple(|z|, Pow2(s))
    ensures |r| == |z|
  {
    if s == 0 then z
    else
      MultipleHalves(|z|, Pow2(s - 1));
      StagePairs(AllStages(s - 1, z, w), Pow2(s - 1), w(s))
  }

  lemma LiftCombine(e: seq<Complex>, o: seq<Complex>, root: Complex)
    requires |e| == |o|
    ensures CombinePairs(Lift(e), Lift(o), root) == Lift(Combine(e, o, root))
  {
    hide PairPlus, PairMinus, PairTimes, Add, Sub, Mul, Pow, Of;
    forall k | 0 <= k < |e| + |o|
      ensures CombinePairs(Lift(e), Lift(o), root)[k] == Of(Combine(e, o, root)[k])
    {
      var j := if k < |e| then k else k - |e|;
      LiftOperations(o[j], Pow(root, j));
      LiftOperations(e[j], Mul(o[j], Pow(root, j)));
    }
  }

  lemma {:induction false} LiftStage(z: seq<Complex>, half: nat, root: Complex)
    requires half > 0 && Multiple(|z|, 2 * half)
    ensures StagePairs(Lift(z), half, root) == Lift(Stage(z, half, root))
    decreases |z|
  {
    hide Combine, CombinePairs, Lift;
    if z != [] {
      var m := |z| - 2 * half;
      LiftStage(z[..m], half, root);
      LiftCombine(z[m..m + half], z[m + half..], root);
      LiftSlice(z, 0, m);
      LiftSlice(z, m, m + half);
      LiftSlice(z, m + half, |z|);
      assert Lift(z)[..m] == Lift(z)[0..m] && z[..m] == z[0..m];
      assert Lift(z)[m + half..] == Lift(z)[m + half..|z|] && z[m + half..] == z[m + half..|z|];
      LiftConcat(Stage(z[..m], half, root), Combine(z[m..m + half], z[m + half..], root));
    } else {
      LiftConcat([], []);
    }
  }

  lemma LiftSlice(z: seq<Complex>, a: nat, b: nat)
    requires a <= b <= |z|
    ensures Lift(z)[a..b] == Lift(z[a..b])
  {
  }

  lemma LiftConcat(a: seq<Complex>, b: seq<Complex>)
    ensures Lift(a + b) == Lift(a) + Lift(b)
  {
  }

  /** On finite input the stages compute the spectra of the blocks. */
  lemma {:induction false} StagesAreSpectra(s: nat, y: seq<Complex>, w: Twiddles, stages: nat)
    requires ValidTwiddles(w, stages) && s <= stages && Multiple(|y|, Pow2(s))
    ensures AllStages(s, Lift(y), w) == Lift(BlockSpectra(s, y, w))
  {
    hide BlockSpectra, StagePairs, Stage, Lift, ValidTwiddles;
    if s == 0 {
      BlockSpectraStart(y, w);
    } else {
      MultipleHalves(|y|, Pow2(s - 1));
      StagesAreSpectra(s - 1, y, w, stages);
      StageAdvances(s - 1, y, w, stages);
      LiftStage(BlockSpectra(s - 1, y, w), Pow2(s - 1), w(s));
    }
  }

  lemma StagePairsSnoc(p: seq<Pair>, b: seq<Pair>, half: nat, root: Complex)
    requires half > 0 && Multiple(|p|, 2 * half) && |b| == 2 * half
    ensures Multiple(|p + b|, 2 * half)
    ensures StagePairs(p + b, half, root) == StagePairs(p, half, root) + CombinePairs(b[..half], b[half..], root)
  {
    hide CombinePairs;
    var z, m := p + b, |p|;
    assert z[..m] == p && z[m..m + half] == b[..half] && z[m + half..] == b[half..];
  }

  /** A stage works on the two parts of an aligned split by itself. */
  lemma {:induction false} StageSplits(a: seq<Pair>, b: seq<Pair>, half: nat, root: Complex)
    requires half > 0 && Multiple(|a|, 2 * half) && Multiple(|b|, 2 * half)
    ensures Multiple(|a + b|, 2 * half)
    ensures StagePairs(a + b, half, root) == StagePairs(a, half, root) + StagePairs(b, half, root)
    decreases |b|
  {
    if b == [] {
      assert a + b == a;
    } else {
      var m := |b| - 2 * half;
      assert Multiple(m, 2 * half);
      hide StagePairs, CombinePairs, Multiple;
      var b', last := b[..m], b[m..];
      assert b' + last == b;
      StageSplits(a, b', half, root);
      SplitSnoc(a, b', last, half, root);
    }
  }

  lemma SplitSnoc(a: seq<Pair>, b: seq<Pair>, last: seq<Pair>, half: nat, root: Complex)
    requires half > 0 && Multiple(|b|, 2 * half) && |last| == 2 * half
    requires Multiple(|a|, 2 * half) && Multiple(|a + b|, 2 * half)
    requires StagePairs(a + b, half, root) == StagePairs(a, half, root) + StagePairs(b, half, root)
    ensures Multiple(|a + (b + last)|, 2 * half) && Multiple(|b + last|, 2 * half)
    ensures
      StagePairs(a + (b + last), half, root) == StagePairs(a, half, root) + StagePairs(b + last, half, root)
  {
    hide StagePairs, CombinePairs, Multiple;
    StagePairsSnoc(a + b, last, half, root);
    StagePairsSnoc(b, last, half, root);
    assert a + (b + last) == (a + b) + last;
    var x, y, c := StagePairs(a, half, root), StagePairs(b, half, root), CombinePairs(last[..half], last[half..], root);
    assert x + (y + c) == (x + y) + c;
  }

  lemma {:induction false} StagesSplit(s: nat, a: seq<Pair>, b: seq<Pair>, w: Twiddles)
    requires Multiple(|a|, Pow2(s)) && Multiple(|b|, Pow2(s))
    ensures Multiple(|a + b|, Pow2(s))
    ensures AllStages(s, a + b, w) == AllStages(s, a, w) + AllStages(s, b, w)
  {
    hide StagePairs;
    MultipleAdd(|a|, |b|, Pow2(s));
    if s > 0 {
      var half := Pow2(s - 1);
      MultipleHalves(|a|, half);
      MultipleHalves(|b|, half);
      StagesSplit(s - 1, a, b, w);
      StageSplits(AllStages(s - 1, a, w), AllStages(s - 1, b, w), half, w(s));
    }
  }

  ghost predicate AllTainted(z: seq<Pair>) {
    forall k :: 0 <= k < |z| ==> Tainted(z[k])
  }

  lemma CombineTaints(e: seq<Pair>, o: seq<Pair>, root: Complex)
    requires |e| == |o| && (AllTainted(e) || AllTainted(o))
    ensures AllTainted(CombinePairs(e, o, root))
  {
    hide Tainted, PairPlus, PairMinus, PairTimes, Pow;
    var c := CombinePairs(e, o, root);
    forall k | 0 <= k < |c| ensures Tainted(c[k]) {
      var j := if k < |e| then k else k - |e|;
      TaintSpreads(o[j], o[j], Pow(root, j));
      TaintSpreads(e[j], PairTimes(o[j], Pow(root, j)), root);
    }
  }

  /** The last stage of a whole array combines the results of its two halves. */
  lemma LastStage(s: nat, y: seq<Pair>, w: Twiddles)
    requires s > 0 && |y| == Pow2(s)
    ensures
      var half := Pow2(s - 1);
      Multiple(|y|, Pow2(s)) && Multiple(half, half) &&
      AllStages(s, y, w) == CombinePairs(AllStages(s - 1, y[..half], w), AllStages(s - 1, y[half..], w), w(s))
  {
    hide CombinePairs, StagePairs, Multiple;
    var half := Pow2(s - 1);
    MultiplePow2(s - 1, s - 1);
    MultiplePow2(s, s);
    var a, b := y[..half], y[half..];
    assert y == a + b;
    StagesSplit(s - 1, a, b, w);
    OneBlock(AllStages(s - 1, a, w), AllStages(s - 1, b, w), half, w(s));
  }

  lemma OneBlock(e: seq<Pair>, o: seq<Pair>, half: nat, root: Complex)
    requires half > 0 && |e| == |o| == half
    ensures Multiple(|e + o|, 2 * half) && StagePairs(e + o, half, root) == CombinePairs(e, o, root)
  {
    hide CombinePairs;
    var z := e + o;
    assert z[..0] == [] && z[0..half] == e && z[half..] == o;
  }

  /** One NaN anywhere in the input is enough to reach every entry of the output. */
  lemma {:induction false} OneNaNTaintsAll(s: nat, y: seq<Pair>, w: Twiddles, p: nat)
    requires |y| == Pow2(s) && p < |y| && Tainted(y[p])
    ensures Multiple(|y|, Pow2(s)) && AllTainted(AllStages(s, y, w))
  {
    hide CombinePairs, StagePairs, Tainted;
    MultiplePow2(s, s);
    if s > 0 {
      var half := Pow2(s - 1);
      LastStage(s, y, w);
      if p < half {
        OneNaNTaintsAll(s - 1, y[..half], w, p);
      } else {
        OneNaNTaintsAll(s - 1, y[half..], w, p - half);
      }
      CombineTaints(AllStages(s - 1, y[..half], w), AllStages(s - 1, y[half..], w), w(s));
    }
  }
}
