/** Shared helpers. */
module Common {

  datatype Option<+T> = None | Some(value: T)

  datatype Result<+T> = Success(value: T) | Failure

  function Min(a: int, b: int): int { if a <= b then a else b }

  function MinReal(a: real, b: real): real { if a <= b then a else b }

  function MaxReal(a: real, b: real): real { if a <= b then b else a }

  function Sum(s: seq<real>): real {
    if s == [] then 0.0 else Sum(s[..|s| - 1]) + s[|s| - 1]
  }

  function Pow2(s: nat): (r: nat)
    ensures r >= 1
  {
    if s == 0 then 1 else 2 * Pow2(s - 1)
  }

  /** The last `n` elements, or all of them: slice(-n), and what shifting down to `n` leaves. */
  function LastN<T>(s: seq<T>, n: nat): (r: seq<T>)
    ensures |r| == Min(|s|, n)
  {
    if |s| <= n then s else s[|s| - n..]
  }

  /** Trimming after every push is trimming once at the end. */
  lemma LastNPush<T>(s: seq<T>, x: T, n: nat)
    ensures LastN(LastN(s, n) + [x], n) == LastN(s + [x], n)
  {
  }

  /** A slice of the second part of a concatenation. */
  lemma SliceOfSecond<T>(p: seq<T>, q: seq<T>, a: nat, b: nat)
    requires a <= b <= |q|
    ensures (p + q)[|p| + a..|p| + b] == q[a..b]
  {
  }

  lemma ProductPositive(a: real, b: real)
    requires a > 0.0 && b > 0.0
    ensures a * b > 0.0
  {
  }

  lemma Scale(a: real, x: real, y: real)
    requires a >= 0.0 && x <= y
    ensures a * x <= a * y
  {
    if a > 0.0 && x < y {
      ProductPositive(a, y - x);
    }
  }

  lemma RealProduct(q: nat, d: nat)
    ensures (q * d) as real == q as real * d as real
  {
  }

  lemma ScaledInOrder(a: real, b: real, x: real)
    requires x > 0.0
    ensures a < b <==> a * x < b * x
  {
    if a < b {
      ProductPositive(x, b - a);
    } else {
      Scale(x, b, a);
    }
  }

  lemma FloorBetween(t: real, q: int, x: real, m: real, n: real)
    requires x > 0.0 && t * x == n && q as real * x == m <= n < m + x
    ensures t.Floor == q
  {
    var low := q as real;
    assert (low + 1.0) * x == m + x;
    ScaledInOrder(t, low, x);
    ScaledInOrder(t, low + 1.0, x);
  }

  lemma FloorOfQuotient(t: real, n: nat, d: nat)
    requires d > 0 && t >= 0.0 && t * d as real == n as real
    ensures t.Floor == n / d
  {
    var q := n / d;
    var m := q * d;
    assert m <= n < m + d;
    RealProduct(q, d);
    FloorBetween(t, q, d as real, m as real, n as real);
  }
}
