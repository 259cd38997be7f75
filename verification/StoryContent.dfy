/** Story text as parser and printer (StoryContent.ts, lines 20-95). */
module StoryContent {
  import opened Common
  import opened JsText

  datatype Chapter = Chapter(title: JsString, content: JsString, audioHint: JsString)

  datatype Content = Content(paragraphs: seq<JsString>, chapters: seq<Chapter>, sleepScore: real)

  const DEFAULT_SLEEP_SCORE := 5.0
  const BLANK_LINE: JsString := [NEWLINE, NEWLINE]

  /** create (lines 34-39): at least one paragraph, or an Error. */
  function Create(paragraphs: seq<JsString>, chapters: seq<Chapter>, sleepScore: real): Result<Content> {
    if paragraphs == [] then Failure else Success(Content(paragraphs, chapters, sleepScore))
  }

  /** The paragraphs of a raw text (lines 45-48). */
  function Paragraphs(text: JsString): seq<JsString> {
    NonEmpty(TrimAll(SplitParagraphs(text)))
  }

  function FromRawText(text: JsString): Result<Content> {
    Create(Paragraphs(text), [], DEFAULT_SLEEP_SCORE)
  }

  function GetFullText(c: Content): JsString { Join(c.paragraphs, BLANK_LINE) }

  function GetWordCount(c: Content): nat { |Words(Join(c.paragraphs, [SPACE]))| }

  predicate Blank(s: JsString) {
    forall i :: 0 <= i < |s| ==> IsWhitespace(s[i])
  }

  /** What printing and parsing leave alone: non-empty, trimmed, no blank line inside. */
  predicate Normal(p: JsString) {
    p != [] && Trimmed(p) && Unbroken(p)
  }

  predicate AllNormal(ps: seq<JsString>) {
    forall p :: p in ps ==> Normal(p)
  }

  /** Every parsed paragraph is in normal form. */
  lemma ParsedAreNormal(text: JsString)
    ensures AllNormal(Paragraphs(text))
  {
    var pieces := SplitParagraphs(text);
    forall p | p in Paragraphs(text) ensures Normal(p) {
      assert p in TrimAll(pieces);
      var i :| 0 <= i < |pieces| && p == Trim(pieces[i]);
      assert pieces[i] in pieces;
      TrimGivesTrimmed(pieces[i]);
    }
  }

  lemma {:induction false} BreakFirst(p: JsString, rest: JsString)
    requires Unbroken(p) && (p != [] ==> p[|p| - 1] != NEWLINE)
    ensures Break(p) == |p|
    ensures Break(p + BLANK_LINE + rest) == |p|
  {
    var s := p + BLANK_LINE + rest;
    if p != [] {
      assert forall i :: 0 < i < |p[1..]| ==> p[1..][i - 1] == p[i] && p[1..][i] == p[i + 1];
      assert p[1..] != [] ==> p[1..][|p[1..]| - 1] == p[|p| - 1];
      BreakFirst(p[1..], rest);
      assert s[1..] == p[1..] + BLANK_LINE + rest;
    }
  }

  lemma JoinStartsWithHead(ps: seq<JsString>)
    requires ps != [] && AllNormal(ps)
    ensures Normal(ps[0]) && Join(ps, BLANK_LINE) != [] && Join(ps, BLANK_LINE)[0] == ps[0][0]
  {
    assert ps[0] in ps;
  }

  lemma SplitCons(p: JsString, rest: JsString)
    requires Normal(p) && rest != [] && rest[0] != NEWLINE
    ensures SplitParagraphs(p + BLANK_LINE + rest) == [p] + SplitParagraphs(rest)
  {
    var s := p + BLANK_LINE + rest;
    BreakFirst(p, rest);
    assert s[..|p|] == p && s[|p| + 2..] == rest;
    var t := s[|p|..];
    assert t[0] == t[1] == NEWLINE && t[2] == rest[0];
  }

  /** Splitting the printed text gives the paragraphs back. */
  lemma {:induction false} SplitOfJoin(ps: seq<JsString>)
    requires ps != [] && AllNormal(ps)
    ensures SplitParagraphs(Join(ps, BLANK_LINE)) == ps
  {
    var p, rest := ps[0], ps[1..];
    assert p in ps;
    if rest == [] {
      BreakFirst(p, []);
    } else {
      hide SplitParagraphs;
      assert forall q :: q in rest ==> q in ps;
      JoinStartsWithHead(rest);
      SplitCons(p, Join(rest, BLANK_LINE));
      SplitOfJoin(rest);
    }
  }

  lemma {:induction false} NonEmptyKeepsAll(ps: seq<JsString>)
    requires forall p :: p in ps ==> p != []
    ensures NonEmpty(ps) == ps
  {
    if ps != [] {
      assert ps[0] in ps && forall p :: p in ps[1..] ==> p in ps;
      NonEmptyKeepsAll(ps[1..]);
    }
  }

  /** Parsing what was printed: exactly the normal forms survive. */
  lemma ParsePrintIff(ps: seq<JsString>)
    requires ps != []
    ensures Paragraphs(Join(ps, BLANK_LINE)) == ps <==> AllNormal(ps)
  {
    if AllNormal(ps) {
      SplitOfJoin(ps);
      forall i | 0 <= i < |ps| ensures TrimAll(ps)[i] == ps[i] {
        assert ps[i] in ps;
        TrimKeepsTrimmed(ps[i]);
      }
      assert TrimAll(ps) == ps;
      NonEmptyKeepsAll(ps);
    }
    ParsedAreNormal(Join(ps, BLANK_LINE));
  }

  /** The round trip: parse, print, parse again. */
  lemma RoundTrip(text: JsString)
    requires FromRawText(text).Success?
    ensures FromRawText(GetFullText(FromRawText(text).value)) == FromRawText(text)
  {
    ParsedAreNormal(text);
    ParsePrintIff(Paragraphs(text));
  }

  /** Parsing fails exactly on blank texts. */
  lemma {:induction false} ParsesIffNotBlank(text: JsString)
    ensures FromRawText(text).Success? <==> !Blank(text)
  {
    WordsOfParagraphs(text);
    BlankIffWordless(text);
    if Paragraphs(text) != [] {
      ParsedAreNormal(text);
      var p := Paragraphs(text)[0];
      assert p in Paragraphs(text);
      BlankIffWordless(p);
    }
  }

  lemma {:induction false} BlankIffWordless(s: JsString)
    ensures Blank(s) <==> Scan(s) == []
  {
    if s != [] {
      BlankIffWordless(s[1..]);
      assert Blank(s) <==> IsWhitespace(s[0]) && Blank(s[1..]) by {
        assert forall i :: 0 <= i < |s[1..]| ==> s[1..][i] == s[i + 1];
        assert forall i :: 1 <= i < |s| ==> s[i] == s[1..][i - 1];
      }
    }
  }

  /** The words of all strings, in order. */
  function ScanAll(ps: seq<JsString>): seq<JsString> {
    if ps == [] then [] else Scan(ps[0]) + ScanAll(ps[1..])
  }

  lemma {:induction false} ScanNewlines(s: JsString)
    ensures Scan(s[Run(s)..]) == Scan(s)
  {
    if Run(s) > 0 {
      ScanNewlines(s[1..]);
      assert s[1..][Run(s[1..])..] == s[Run(s)..];
    }
  }

  lemma ScanSkips(t: JsString)
    requires t != [] && IsWhitespace(t[0])
    ensures Scan(t) == Scan(t[1..])
  {
  }

  lemma NewlineIsWhitespace()
    ensures IsWhitespace(NEWLINE)
  {
  }

  lemma ScanAtBreak(s: JsString, i: nat)
    requires i < |s| && s[i] == NEWLINE
    ensures Scan(s) == Scan(s[..i]) + Scan(s[i + Run(s[i..])..])
  {
    hide Run, Scan, IsWhitespace;
    var t := s[i..];
    ScanNewlines(t);
    assert t[Run(t)..] == s[i + Run(t)..];
    NewlineIsWhitespace();
    ScanSkips(t);
    assert t[1..] == s[i + 1..];
    ScanSeparated(s[..i], NEWLINE, s[i + 1..]);
    assert s[..i] + [NEWLINE] + s[i + 1..] == s;
  }

  lemma ScanAllCons(p: JsString, ps: seq<JsString>)
    ensures ScanAll([p] + ps) == Scan(p) + ScanAll(ps)
  {
    assert ([p] + ps)[1..] == ps;
  }

  lemma {:induction false} ScanOfSplit(s: JsString)
    ensures ScanAll(SplitParagraphs(s)) == Scan(s)
    decreases |s|
  {
    hide Scan, ScanAll, Run, Break;
    var i := Break(s);
    if i == |s| {
      ScanAllCons(s, []);
      assert [s] + [] == [s] && ScanAll([]) == [] by { ScanAllNil(); }
    } else {
      var rest := s[i + Run(s[i..])..];
      ScanAtBreak(s, i);
      ScanOfSplit(rest);
      ScanAllCons(s[..i], SplitParagraphs(rest));
    }
  }

  lemma ScanAllNil()
    ensures ScanAll([]) == []
  {
  }

  lemma {:induction false} ScanAllTrimmed(ps: seq<JsString>)
    ensures ScanAll(NonEmpty(TrimAll(ps))) == ScanAll(ps)
  {
    if ps != [] {
      hide Trim, SplitParagraphs, Join;
      var t, rest := TrimAll(ps), NonEmpty(TrimAll(ps[1..]));
      ScanTrim(ps[0]);
      ScanAllTrimmed(ps[1..]);
      assert t[1..] == TrimAll(ps[1..]);
      assert NonEmpty(t) == (if t[0] == [] then [] else [t[0]]) + rest;
      if t[0] == [] {
        assert NonEmpty(t) == rest && Scan(t[0]) == [];
      } else {
        ScanAllCons(t[0], rest);
      }
    }
  }

  /** Cutting a text into paragraphs keeps its words, in order. */
  lemma WordsOfParagraphs(text: JsString)
    ensures ScanAll(Paragraphs(text)) == Scan(text)
  {
    ScanAllTrimmed(SplitParagraphs(text));
    ScanOfSplit(text);
  }

  lemma {:induction false} ScanOfJoin(ps: seq<JsString>, sep: JsString)
    requires sep != [] && Blank(sep)
    ensures Scan(Join(ps, sep)) == ScanAll(ps)
  {
    if |ps| == 1 {
      assert ScanAll(ps) == Scan(ps[0]) + ScanAll(ps[1..]) && ps[1..] == [];
    } else if |ps| > 1 {
      var rest := Join(ps[1..], sep);
      assert Join(ps, sep) == ps[0] + sep + rest && ScanAll(ps) == Scan(ps[0]) + ScanAll(ps[1..]);
      hide Scan, ScanAll, Join, Blank, IsWhitespace;
      ScanOfJoin(ps[1..], sep);
      ScanAcross(ps[0], sep, rest);
    }
  }

  lemma ScanAcross(p: JsString, sep: JsString, rest: JsString)
    requires sep != [] && Blank(sep)
    ensures Scan(p + sep + rest) == Scan(p) + Scan(rest)
  {
    assert IsWhitespace(sep[0]) && Blank(sep[1..]);
    hide Scan, IsWhitespace, Blank;
    ScanSeparated(p, sep[0], sep[1..] + rest);
    assert p + [sep[0]] + (sep[1..] + rest) == p + sep + rest;
    ScanBlankPrefix(sep[1..], rest);
  }

  lemma {:induction false} ScanBlankPrefix(b: JsString, s: JsString)
    requires Blank(b)
    ensures Scan(b + s) == Scan(s)
  {
    if b == [] {
      assert b + s == s;
    } else {
      assert IsWhitespace(b[0]) && Blank(b[1..]) && (b + s)[1..] == b[1..] + s;
      ScanBlankPrefix(b[1..], s);
    }
  }

  /** Conservation of words: neither parsing nor printing adds, drops or merges a word. */
  lemma WordsConserved(text: JsString)
    requires FromRawText(text).Success?
    ensures
      var c := FromRawText(text).value;
      Words(Join(c.paragraphs, [SPACE])) == Words(text) == Words(GetFullText(c)) &&
      GetWordCount(c) == |Words(text)|
  {
    var ps := Paragraphs(text);
    WordsOfParagraphs(text);
    ScanOfJoin(ps, [SPACE]);
    ScanOfJoin(ps, BLANK_LINE);
    WordsAreScan(text);
    WordsAreScan(Join(ps, [SPACE]));
    WordsAreScan(Join(ps, BLANK_LINE));
  }
}
