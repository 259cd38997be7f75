/** The bit-reversal permutation computed by the sentinel's swap pass with a
    reversed-carry counter (SleepSentinelAgent, lines 234-250). */
module BitReversal {
  import opened Common

  /** The lowest `s` bits of `i`, read in the opposite order. */
  function Rev(s: nat, i: nat): (r: nat)
    ensures r < Pow2(s)
  {
    if s == 0 then 0 else (if i % 2 == 1 then Pow2(s - 1) else 0) + Rev(s - 1, i / 2)
  }

  /** The same number peeled from the most significant bit. */
  lemma {:induction false} RevFromTop(s: nat, i: nat)
    requires s > 0 && i < Pow2(s)
    ensures Rev(s, i) == if i < Pow2(s - 1) then 2 * Rev(s - 1, i) else 2 * Rev(s - 1, i - Pow2(s - 1)) + 1
  {
    if s == 1 {
      assert Rev(0, 0) == 0;
      assert i / 2 == 0;
    } else {
      var top := Pow2(s - 1);
      RevFromTop(s - 1, i / 2);
      if i >= top {
        assert (i - top) / 2 == i / 2 - Pow2(s - 2);
        assert (i - top) % 2 == i % 2;
      }
    }
  }

  /** Reversing twice is the identity, so the permutation is a set of disjoint swaps. */
  lemma {:induction false} RevInvolution(s: nat, i: nat)
    requires i < Pow2(s)
    ensures Rev(s, Rev(s, i)) == i
  {
    if s > 0 {
      RevInvolution(s - 1, i / 2);
      RevFromTop(s, Rev(s, i));
    }
  }

  lemma {:induction false} RevZero(s: nat)
    ensures Rev(s, 0) == 0
  {
    if s > 0 {
      RevZero(s - 1);
    }
  }

  /** `a` is `x` with every element moved to its bit-reversed index. */
  ghost predicate IsBitReversed<T>(s: nat, x: seq<T>, a: seq<T>) {
    |x| == |a| == Pow2(s) && forall p :: 0 <= p < |x| ==> a[p] == x[Rev(s, p)]
  }

  /** Bit reversal undoes itself. */
  lemma BitReversedTwice<T>(s: nat, x: seq<T>, a: seq<T>, b: seq<T>)
    requires IsBitReversed(s, x, a) && IsBitReversed(s, a, b)
    ensures b == x
  {
    forall p | 0 <= p < |x| ensures b[p] == x[p] {
      RevInvolution(s, p);
    }
  }

  /** After `i` turns of the swap loop: the pairs met so far are exchanged, the rest untouched. */
  ghost predicate PartlyReversed<T>(s: nat, x: seq<T>, a: seq<T>, i: nat) {
    |x| == |a| == Pow2(s) &&
    forall p :: 0 <= p < |x| ==> a[p] == x[if p < i || Rev(s, p) < i then Rev(s, p) else p]
  }

  function SwapUp<T>(a: seq<T>, i: nat, j: nat): seq<T>
    requires i < |a| && j < |a|
  {
    if i < j then a[i := a[j]][j := a[i]] else a
  }

  lemma SwapUpAdvances<T>(s: nat, x: seq<T>, a: seq<T>, i: nat)
    requires PartlyReversed(s, x, a, i) && i < |a|
    ensures PartlyReversed(s, x, SwapUp(a, i, Rev(s, i)), i + 1)
  {
    hide Pow2, Rev;
    var b := SwapUp(a, i, Rev(s, i));
    assert |b| == |a|;
    forall p | 0 <= p < |x|
      ensures b[p] == x[if p < i + 1 || Rev(s, p) < i + 1 then Rev(s, p) else p]
    {
      SwapUpAt(s, x, a, i, p);
    }
  }

  lemma SwapUpAt<T>(s: nat, x: seq<T>, a: seq<T>, i: nat, p: nat)
    requires PartlyReversed(s, x, a, i) && i < |a| && p < |a|
    ensures SwapUp(a, i, Rev(s, i))[p] == x[if p < i + 1 || Rev(s, p) < i + 1 then Rev(s, p) else p]
  {
    hide Pow2, Rev;
    var j := Rev(s, i);
    RevInvolution(s, i);
    RevInvolution(s, p);
    assert a[i] == x[if j < i then j else i];
    assert a[j] == x[if j < i then i else j];
    assert a[p] == x[if p < i || Rev(s, p) < i then Rev(s, p) else p];
    hide PartlyReversed;
    if p == i {
    } else if p == j {
    } else {
      assert Rev(s, p) != i;
    }
  }

  /** Lines 236-243 for one of the two arrays. */
  method ExchangeUp<T>(a: array<T>, i: nat, j: nat)
    requires i < a.Length && j < a.Length
    modifies a
    ensures a[..] == SwapUp(old(a[..]), i, j)
    ensures multiset(a[..]) == multiset(old(a[..]))
  {
    if i < j {
      var t := a[i];
      a[i] := a[j];
      a[j] := t;
    }
  }

  /** The swap loop: `j` is always the bit reversal of `i`, advanced by adding one
      at the top bit and carrying downwards. */
  method Permute<T>(re: array<T>, im: array<T>, ghost s: nat)
    requires re != im && re.Length == im.Length == Pow2(s)
    modifies re, im
    ensures IsBitReversed(s, old(re[..]), re[..]) && IsBitReversed(s, old(im[..]), im[..])
    ensures multiset(re[..]) == multiset(old(re[..])) && multiset(im[..]) == multiset(old(im[..]))
  {
    hide Pow2, Rev, SwapUp;
    var j := 0;
    RevZero(s);
    for i := 0 to re.Length
      invariant j == Rev(s, i)
      invariant PartlyReversed(s, old(re[..]), re[..], i) && PartlyReversed(s, old(im[..]), im[..], i)
      invariant multiset(re[..]) == multiset(old(re[..])) && multiset(im[..]) == multiset(old(im[..]))
    {
      SwapUpAdvances(s, old(re[..]), re[..], i);
      SwapUpAdvances(s, old(im[..]), im[..], i);
      ExchangeUp(re, i, j);
      ExchangeUp(im, i, j);
      j := NextReversed(re.Length, j, s, i);
    }
  }

  /** The reversed-carry increment (lines 244-249): clear set bits from the top,
      then set the first clear one. At the last index every bit is cleared. */
  method NextReversed(n: nat, j: nat, ghost s: nat, ghost i: nat) returns (next: nat)
    requires n == Pow2(s) && i < Pow2(s) && j == Rev(s, i)
    ensures next == Rev(s, i + 1)
  {
    next := j;
    var m := n / 2;
    ghost var b: nat, high: nat := s, i;
    while next >= m && m > 0
      invariant b <= s && m == Pow2(b) / 2
      invariant high < Pow2(b) && next == Rev(b, high)
      invariant Rev(s, i + 1) == Rev(b, high + 1)
      decreases m
    {
      assert high % 2 == 1;
      assert (high + 1) / 2 == high / 2 + 1;
      next := next - m;
      m := m / 2;
      b, high := b - 1, high / 2;
    }
    if b > 0 {
      assert Pow2(b) / 2 == Pow2(b - 1);
      assert (high + 1) / 2 == high / 2;
    }
    next := next + m;
  }
}
