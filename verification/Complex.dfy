/** Complex numbers over exact reals: the pairs (re[i], im[i]) that the sleep
    sentinel's FFT works on, with the ring laws its proofs use. */
module ComplexNumbers {

  datatype Complex = Complex(re: real, im: real)

  const ZERO := Complex(0.0, 0.0)
  const ONE := Complex(1.0, 0.0)
  const MINUS_ONE := Complex(-1.0, 0.0)

  function Real(x: real): Complex { Complex(x, 0.0) }

  function Add(a: Complex, b: Complex): Complex { Complex(a.re + b.re, a.im + b.im) }

  function Sub(a: Complex, b: Complex): Complex { Complex(a.re - b.re, a.im - b.im) }

  function Mul(a: Complex, b: Complex): Complex {
    Complex(a.re * b.re - a.im * b.im, a.re * b.im + a.im * b.re)
  }

  function Conj(a: Complex): Complex { Complex(a.re, -a.im) }

  /** The squared modulus: what is under the square root of a magnitude. */
  function NormSq(a: Complex): real { a.re * a.re + a.im * a.im }

  function Pow(z: Complex, k: nat): Complex {
    if k == 0 then ONE else Mul(Pow(z, k - 1), z)
  }

  lemma PowStep(z: Complex, k: nat)
    ensures Pow(z, 0) == ONE && Pow(z, k + 1) == Mul(Pow(z, k), z)
  {
  }

  lemma MulComm(a: Complex, b: Complex)
    ensures Mul(a, b) == Mul(b, a)
  {
  }

  lemma MulAssoc(a: Complex, b: Complex, c: Complex)
    ensures Mul(Mul(a, b), c) == Mul(a, Mul(b, c))
  {
  }

  lemma MulAdd(a: Complex, b: Complex, c: Complex)
    ensures Mul(a, Add(b, c)) == Add(Mul(a, b), Mul(a, c))
  {
  }

  lemma MulUnit(a: Complex)
    ensures Mul(ONE, a) == a == Mul(a, ONE)
    ensures Mul(ZERO, a) == ZERO == Mul(a, ZERO)
    ensures Mul(MINUS_ONE, a) == Sub(ZERO, a)
  {
  }

  /** The order in which four factors are multiplied does not matter. */
  lemma MulSwap(a: Complex, b: Complex, c: Complex, d: Complex)
    ensures Mul(Mul(a, b), Mul(c, d)) == Mul(Mul(a, c), Mul(b, d))
  {
    MulAssoc(a, b, Mul(c, d));
    MulAssoc(b, c, d);
    MulComm(b, c);
    MulAssoc(c, b, d);
    MulAssoc(a, c, Mul(b, d));
  }

  lemma NormSqMul(a: Complex, b: Complex)
    ensures NormSq(Mul(a, b)) == NormSq(a) * NormSq(b)
  {
    var x, y, u, v := a.re * b.re, a.im * b.im, a.re * b.im, a.im * b.re;
    assert x * y == u * v;
    assert x * x == (a.re * a.re) * (b.re * b.re);
    assert y * y == (a.im * a.im) * (b.im * b.im);
    assert u * u == (a.re * a.re) * (b.im * b.im);
    assert v * v == (a.im * a.im) * (b.re * b.re);
  }

  lemma ConjMul(a: Complex, b: Complex)
    ensures Conj(Mul(a, b)) == Mul(Conj(a), Conj(b))
    ensures Mul(a, Conj(a)) == Real(NormSq(a))
  {
  }

  lemma {:induction false} PowAdd(z: Complex, a: nat, b: nat)
    ensures Pow(z, a + b) == Mul(Pow(z, a), Pow(z, b))
  {
    hide Mul;
    if b == 0 {
      MulUnit(Pow(z, a));
    } else {
      PowAdd(z, a, b - 1);
      MulAssoc(Pow(z, a), Pow(z, b - 1), z);
    }
  }

  lemma {:induction false} PowMul(y: Complex, z: Complex, k: nat)
    ensures Pow(Mul(y, z), k) == Mul(Pow(y, k), Pow(z, k))
  {
    hide Mul;
    if k == 0 {
      MulUnit(ONE);
    } else {
      PowMul(y, z, k - 1);
      MulSwap(Pow(y, k - 1), Pow(z, k - 1), y, z);
    }
  }

  lemma {:induction false} PowPow(z: Complex, a: nat, b: nat)
    ensures Pow(Pow(z, a), b) == Pow(z, a * b)
  {
    hide Mul;
    if b > 0 {
      PowPow(z, a, b - 1);
      var ab := a * (b - 1);
      assert ab + a == a * b;
      PowAdd(z, ab, a);
    }
  }

  lemma {:induction false} PowUnit(z: Complex, k: nat)
    requires NormSq(z) == 1.0
    ensures NormSq(Pow(z, k)) == 1.0
  {
    hide Mul;
    if k > 0 {
      PowUnit(z, k - 1);
      NormSqMul(Pow(z, k - 1), z);
    }
  }

  lemma {:induction false} PowOne(z: Complex, k: nat)
    requires z == ONE
    ensures Pow(z, k) == z
  {
    hide Mul;
    if k > 0 {
      PowOne(z, k - 1);
      MulUnit(z);
    }
  }

  lemma {:induction false} PowConj(z: Complex, k: nat)
    ensures Pow(Conj(z), k) == Conj(Pow(z, k))
  {
    hide Mul;
    if k > 0 {
      PowConj(z, k - 1);
      ConjMul(Pow(z, k - 1), z);
    }
  }
}
