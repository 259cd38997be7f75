/** hashPrompt (GeminiAIGateway.ts, lines 210-218): a polynomial in 31, in 32 bits. */
module PromptHash {
  import opened JsText

  /** ECMAScript ToInt32: the representative in [-2^31, 2^31) modulo 2^32. */
  function ToInt32(v: int): (r: int)
    ensures -0x8000_0000 <= r < 0x8000_0000
  {
    (v + 0x8000_0000) % 0x1_0000_0000 - 0x8000_0000
  }

  /** hash << 5: in 32 bits. */
  function ShiftLeft5(v: int): int { ToInt32(ToInt32(v) * 32) }

  function Pow31(n: nat): nat { if n == 0 then 1 else 31 * Pow31(n - 1) }

  /** Sum of s[i] * 31^(n-1-i). */
  function Polynomial(s: JsString): int {
    if s == [] then 0 else s[0] as int * Pow31(|s| - 1) + Polynomial(s[1..])
  }

  lemma {:induction false} Horner(s: JsString, c: CodeUnit)
    ensures Polynomial(s + [c]) == 31 * Polynomial(s) + c as int
  {
    if s == [] {
      assert [c][1..] == [] && Pow31(0) == 1;
    } else {
      Horner(s[1..], c);
      assert (s + [c])[1..] == s[1..] + [c];
      var a, p := s[0] as int, Pow31(|s| - 1);
      assert a * (31 * p) == 31 * (a * p);
    }
  }

  /** Equal modulo 2^32 is all that ToInt32 sees. */
  lemma SameInt32(a: int, b: int, k: int)
    requires a == b + k * 0x1_0000_0000
    ensures ToInt32(a) == ToInt32(b)
  {
  }

  lemma ToInt32Congruent(v: int) returns (k: int)
    ensures ToInt32(v) == v + k * 0x1_0000_0000
  {
    k := -((v + 0x8000_0000) / 0x1_0000_0000);
  }

  /** One turn of the loop is one Horner step in 32-bit arithmetic: the shift wraps, the
      subtraction and addition do not, and the final `&` wraps again. */
  lemma TurnIsHorner(hash: int, v: int, c: int)
    requires hash == ToInt32(v)
    ensures ToInt32(ShiftLeft5(hash) - hash + c) == ToInt32(31 * v + c)
  {
    var k := ToInt32Congruent(v);
    var l := ToInt32Congruent(hash);
    var m := ToInt32Congruent(ToInt32(hash) * 32);
    assert ShiftLeft5(hash) - hash + c == 31 * v + c + (31 * k + 32 * l + m) * 0x1_0000_0000;
    SameInt32(ShiftLeft5(hash) - hash + c, 31 * v + c, 31 * k + 32 * l + m);
  }

  method HashPrompt(prompt: JsString) returns (hash: int)
    ensures hash == ToInt32(Polynomial(prompt))
  {
    hash := 0;
    for i := 0 to |prompt|
      invariant hash == ToInt32(Polynomial(prompt[..i]))
    {
      var c := prompt[i] as int;
      Horner(prompt[..i], prompt[i]);
      assert prompt[..i] + [prompt[i]] == prompt[..i + 1];
      TurnIsHorner(hash, Polynomial(prompt[..i]), c);
      hash := ShiftLeft5(hash) - hash + c;
      hash := ToInt32(hash);  // hash & hash
    }
    assert prompt[..|prompt|] == prompt;
  }
}
