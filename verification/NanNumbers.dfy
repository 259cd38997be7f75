/** JavaScript numbers as far as the FFT needs them: a real, or the NaN that arithmetic on
    `undefined` gives. Every operation is strict: NaN in, NaN out. */
module NanNumbers {
  import opened ComplexNumbers

  datatype Num = NaN | Fin(value: real)

  function Plus(a: Num, b: Num): Num { if a.Fin? && b.Fin? then Fin(a.value + b.value) else NaN }

  function Minus(a: Num, b: Num): Num { if a.Fin? && b.Fin? then Fin(a.value - b.value) else NaN }

  function Times(a: Num, b: Num): Num { if a.Fin? && b.Fin? then Fin(a.value * b.value) else NaN }

  /** Division by a number other than zero. */
  function Over(a: Num, n: real): Num
    requires n != 0.0
  {
    if a.Fin? then Fin(a.value / n) else NaN
  }

  /** `a > x`, which is false for NaN. */
  predicate Exceeds(a: Num, x: real) { a.Fin? && a.value > x }

  predicate Finite(s: seq<Num>) {
    forall i :: 0 <= i < |s| ==> s[i].Fin?
  }

  predicate AllNaN(s: seq<Num>) {
    forall i :: 0 <= i < |s| ==> s[i].NaN?
  }

  function Values(s: seq<Num>): (r: seq<real>)
    requires Finite(s)
    ensures |r| == |s|
  {
    seq(|s|, i requires 0 <= i < |s| => s[i].value)
  }

  /** The pair (re[i], im[i]) of two arrays of such numbers. */
  datatype Pair = Pair(re: Num, im: Num)

  function PairPlus(a: Pair, b: Pair): Pair { Pair(Plus(a.re, b.re), Plus(a.im, b.im)) }

  function PairMinus(a: Pair, b: Pair): Pair { Pair(Minus(a.re, b.re), Minus(a.im, b.im)) }

  /** A product with a finite twiddle. */
  function PairTimes(a: Pair, w: Complex): Pair {
    Pair(Minus(Times(a.re, Fin(w.re)), Times(a.im, Fin(w.im))),
         Plus(Times(a.re, Fin(w.im)), Times(a.im, Fin(w.re))))
  }

  predicate Tainted(a: Pair) { a.re.NaN? || a.im.NaN? }

  function Of(c: Complex): Pair { Pair(Fin(c.re), Fin(c.im)) }

  function Lift(z: seq<Complex>): (r: seq<Pair>)
    ensures |r| == |z|
  {
    seq(|z|, i requires 0 <= i < |z| => Of(z[i]))
  }

  lemma FiniteTimes(x: real, y: real)
    ensures Times(Fin(x), Fin(y)) == Fin(x * y)
  {
  }

  /** On finite numbers the operations are those on complex numbers. */
  lemma LiftOperations(a: Complex, b: Complex)
    ensures PairPlus(Of(a), Of(b)) == Of(Add(a, b)) && PairMinus(Of(a), Of(b)) == Of(Sub(a, b))
    ensures PairTimes(Of(a), b) == Of(Mul(a, b))
  {
    LiftProduct(a.re, a.im, b.re, b.im);
  }

  lemma LiftProduct(x: real, y: real, u: real, v: real)
    ensures PairTimes(Of(Complex(x, y)), Complex(u, v)) == Of(Mul(Complex(x, y), Complex(u, v)))
  {
    FiniteTimes(x, u);
    FiniteTimes(y, v);
    FiniteTimes(x, v);
    FiniteTimes(y, u);
    hide Times;
    var t := PairTimes(Of(Complex(x, y)), Complex(u, v));
    assert t.re == Minus(Fin(x * u), Fin(y * v));
    assert t.im == Plus(Fin(x * v), Fin(y * u));
  }

  /** NaN survives every operation of a butterfly. */
  lemma TaintSpreads(a: Pair, b: Pair, w: Complex)
    ensures Tainted(a) || Tainted(b) ==> Tainted(PairPlus(a, b)) && Tainted(PairMinus(a, b))
    ensures Tainted(a) ==> Tainted(PairTimes(a, w))
  {
  }
}
