/** The JavaScript string operations the story code is made of: trim, split on a regular
    expression, join, filter. Strings are sequences of UTF-16 code units. */
module JsText {

  newtype CodeUnit = i: int | 0 <= i < 0x1_0000

  type JsString = seq<CodeUnit>

  const NEWLINE: CodeUnit := 10
  const SPACE: CodeUnit := 32

  /** WhiteSpace and LineTerminator of ECMAScript: what trim() removes and \s matches. */
  predicate IsWhitespace(c: CodeUnit) {
    9 <= c <= 13 || c == 32 || c == 0xA0 || c == 0x1680 || 0x2000 <= c <= 0x200A ||
    c == 0x2028 || c == 0x2029 || c == 0x202F || c == 0x205F || c == 0x3000 || c == 0xFEFF
  }

  function TrimStart(s: JsString): JsString {
    if s != [] && IsWhitespace(s[0]) then TrimStart(s[1..]) else s
  }

  function TrimEnd(s: JsString): JsString {
    if s != [] && IsWhitespace(s[|s| - 1]) then TrimEnd(s[..|s| - 1]) else s
  }

  function Trim(s: JsString): JsString { TrimEnd(TrimStart(s)) }

  predicate Trimmed(s: JsString) {
    s != [] ==> !IsWhitespace(s[0]) && !IsWhitespace(s[|s| - 1])
  }

  /** No two adjacent newlines. */
  predicate Unbroken(s: JsString) {
    forall i :: 0 < i < |s| ==> !(s[i - 1] == NEWLINE && s[i] == NEWLINE)
  }

  lemma {:induction false} TrimStartParts(s: JsString)
    ensures TrimStart(s) != [] ==> !IsWhitespace(TrimStart(s)[0])
    ensures |TrimStart(s)| <= |s| && TrimStart(s) == s[|s| - |TrimStart(s)|..]
  {
    if s != [] && IsWhitespace(s[0]) {
      TrimStartParts(s[1..]);
    }
  }

  lemma {:induction false} TrimEndParts(s: JsString)
    ensures TrimEnd(s) <= s
    ensures TrimEnd(s) != [] ==> !IsWhitespace(TrimEnd(s)[|TrimEnd(s)| - 1])
  {
    if s != [] && IsWhitespace(s[|s| - 1]) {
      TrimEndParts(s[..|s| - 1]);
    }
  }

  /** A trimmed string has no blank ends, and trimming breaks nothing inside. */
  lemma TrimGivesTrimmed(s: JsString)
    ensures Trimmed(Trim(s)) && (Unbroken(s) ==> Unbroken(Trim(s)))
  {
    TrimStartParts(s);
    TrimEndParts(TrimStart(s));
  }

  lemma TrimKeepsTrimmed(s: JsString)
    requires Trimmed(s)
    ensures Trim(s) == s
  {
  }

  /** Number of leading newlines. */
  function Run(s: JsString): (n: nat)
    ensures n <= |s| && (n < |s| ==> s[n] != NEWLINE)
    ensures forall i :: 0 <= i < n ==> s[i] == NEWLINE
  {
    if s == [] || s[0] != NEWLINE then 0 else 1 + Run(s[1..])
  }

  /** Where the first run of two or more newlines starts; |s| when there is none. */
  function Break(s: JsString): (i: nat)
    ensures i <= |s| && Unbroken(s[..i])
    ensures i < |s| ==> i + 1 < |s| && s[i] == s[i + 1] == NEWLINE
  {
    if |s| < 2 then |s|
    else if s[0] == s[1] == NEWLINE then 0
    else
      var i := Break(s[1..]);
      assert s[..i + 1] == [s[0]] + s[1..][..i];
      i + 1
  }

  /** split(/\n\n+/) */
  function SplitParagraphs(s: JsString): (r: seq<JsString>)
    ensures forall p :: p in r ==> Unbroken(p)
    decreases |s|
  {
    var i := Break(s);
    if i == |s| then
      assert s[..i] == s;
      [s]
    else [s[..i]] + SplitParagraphs(s[i + Run(s[i..])..])
  }

  function TrimAll(ps: seq<JsString>): (r: seq<JsString>)
    ensures |r| == |ps| && forall i :: 0 <= i < |ps| ==> r[i] == Trim(ps[i])
  {
    seq(|ps|, i requires 0 <= i < |ps| => Trim(ps[i]))
  }

  /** filter(p => p.length > 0) */
  function NonEmpty(ps: seq<JsString>): (r: seq<JsString>)
    ensures forall p :: p in r ==> p in ps && p != []
  {
    if ps == [] then [] else (if ps[0] == [] then [] else [ps[0]]) + NonEmpty(ps[1..])
  }

  function Join(ps: seq<JsString>, sep: JsString): JsString {
    if ps == [] then [] else if |ps| == 1 then ps[0] else ps[0] + sep + Join(ps[1..], sep)
  }

  /** Where the first whitespace is; |s| when there is none. */
  function WordEnd(s: JsString): (i: nat)
    ensures i <= |s| && (i < |s| ==> IsWhitespace(s[i]))
    ensures forall j :: 0 <= j < i ==> !IsWhitespace(s[j])
  {
    if s == [] || IsWhitespace(s[0]) then 0 else 1 + WordEnd(s[1..])
  }

  /** split(/\s+/) */
  function SplitWords(s: JsString): seq<JsString>
    decreases |s|
  {
    var i := WordEnd(s);
    if i == |s| then [s] else [s[..i]] + SplitWords(SkipBlank(s[i..]))
  }

  /** TrimStart, with the length bound that makes SplitWords terminate. */
  function SkipBlank(s: JsString): (r: JsString)
    requires s != [] && IsWhitespace(s[0])
    ensures |r| < |s|
  {
    TrimStartParts(s[1..]);
    TrimStart(s)
  }

  /** split(/\s+/).filter(word => word.length > 0) */
  function Words(s: JsString): seq<JsString> { NonEmpty(SplitWords(s)) }

  /** The words of `s` by scanning: an independent reading of Words. */
  function Scan(s: JsString): seq<JsString>
    decreases |s|
  {
    if s == [] then []
    else if IsWhitespace(s[0]) then Scan(s[1..])
    else [s[..WordEnd(s)]] + Scan(s[WordEnd(s)..])
  }

  lemma {:induction false} ScanTrimStart(s: JsString)
    ensures Scan(TrimStart(s)) == Scan(s)
  {
    if s != [] && IsWhitespace(s[0]) {
      ScanTrimStart(s[1..]);
    }
  }

  lemma {:induction false} WordsAreScan(s: JsString)
    ensures Words(s) == Scan(s)
    decreases |s|
  {
    var i := WordEnd(s);
    if i == |s| {
      assert s[..i] == s && s[i..] == [];
      assert NonEmpty([s]) == (if s == [] then [] else [s]) + NonEmpty([]);
    } else {
      var rest := SkipBlank(s[i..]);
      WordsAreScan(rest);
      ScanTrimStart(s[i..]);
      assert SplitWords(s)[1..] == SplitWords(rest);
      if i == 0 {
        assert s[i..] == s;
      }
    }
  }

  /** A whitespace unit separates the words before it from the words after it. */
  lemma {:induction false} ScanSeparated(a: JsString, c: CodeUnit, b: JsString)
    requires IsWhitespace(c)
    ensures Scan(a + [c] + b) == Scan(a) + Scan(b)
    decreases |a|
  {
    hide Scan, IsWhitespace, WordEnd;
    var s := a + [c] + b;
    ScanStep(s);
    ScanStep(a);
    if a == [] {
      assert s[0] == c && s[1..] == b;
    } else if IsWhitespace(a[0]) {
      ScanSeparated(a[1..], c, b);
      assert s[1..] == a[1..] + [c] + b;
    } else {
      var i := WordEnd(a);
      WordEndPrefix(a, c, b);
      WordEndPositive(a);
      ScanSeparated(a[i..], c, b);
      assert s[..i] == a[..i] && s[i..] == a[i..] + [c] + b;
    }
  }

  lemma ScanStep(s: JsString)
    ensures Scan(s) ==
      if s == [] then [] else if IsWhitespace(s[0]) then Scan(s[1..]) else [s[..WordEnd(s)]] + Scan(s[WordEnd(s)..])
  {
  }

  lemma WordEndPositive(s: JsString)
    requires s != [] && !IsWhitespace(s[0])
    ensures WordEnd(s) > 0
  {
  }

  lemma {:induction false} WordEndPrefix(a: JsString, c: CodeUnit, b: JsString)
    requires IsWhitespace(c)
    ensures WordEnd(a + [c] + b) == WordEnd(a)
  {
    if a != [] {
      WordEndPrefix(a[1..], c, b);
      assert (a + [c] + b)[1..] == a[1..] + [c] + b;
    }
  }

  lemma {:induction false} ScanTrimEnd(s: JsString)
    ensures Scan(TrimEnd(s)) == Scan(s)
  {
    if s != [] && IsWhitespace(s[|s| - 1]) {
      ScanTrimEnd(s[..|s| - 1]);
      ScanSeparated(s[..|s| - 1], s[|s| - 1], []);
      assert s == s[..|s| - 1] + [s[|s| - 1]] + [];
    }
  }

  lemma ScanTrim(s: JsString)
    ensures Scan(Trim(s)) == Scan(s)
  {
    ScanTrimStart(s);
    ScanTrimEnd(TrimStart(s));
  }
}
