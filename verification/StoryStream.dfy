/** The streaming accumulator of GenerateStoryUseCase (lines 175-237). */
module StoryStream {
  import opened JsText

  /** "Untitled Story" */
  const DEFAULT_TITLE: JsString := [85, 110, 116, 105, 116, 108, 101, 100, 32, 83, 116, 111, 114, 121]
  /** "Title: " */
  const TITLE_PREFIX: JsString := [84, 105, 116, 108, 101, 58, 32]

  function Concat(chunks: seq<JsString>): JsString {
    if chunks == [] then [] else Concat(chunks[..|chunks| - 1]) + chunks[|chunks| - 1]
  }

  /** split('\n')[0], with the test that there is a second line. */
  function FirstLine(s: JsString): (line: JsString)
    ensures line <= s && NEWLINE !in line
    ensures line == s <==> NEWLINE !in s
  {
    if s == [] || s[0] == NEWLINE then [] else [s[0]] + FirstLine(s[1..])
  }

  /** replace('Title: ', ''): the first occurrence only. */
  function DropFirst(s: JsString, what: JsString): JsString {
    if what <= s then s[|what|..]
    else if s == [] then []
    else [s[0]] + DropFirst(s[1..], what)
  }

  /** The title a complete text has. */
  function TitleOf(text: JsString): JsString {
    if NEWLINE in text then Trim(DropFirst(FirstLine(text), TITLE_PREFIX)) else DEFAULT_TITLE
  }

  /** Once there is a newline, more text does not change the first line. */
  lemma {:induction false} FirstLineStable(a: JsString, b: JsString)
    requires NEWLINE in a
    ensures FirstLine(a + b) == FirstLine(a)
  {
    if a[0] != NEWLINE {
      FirstLineStable(a[1..], b);
      assert (a + b)[1..] == a[1..] + b;
    }
  }

  lemma ConcatSnoc(chunks: seq<JsString>, i: nat)
    requires i < |chunks|
    ensures Concat(chunks[..i + 1]) == Concat(chunks[..i]) + chunks[i]
  {
    assert chunks[..i + 1][..i] == chunks[..i];
  }

  /** What the two generators deliver: a stream that completes or breaks off after its
      chunks, and the whole story used when it breaks off. */
  datatype Source = Source(chunks: seq<JsString>, completes: bool, wholeTitle: JsString, wholeContent: JsString)

  /** The title and content depend on the text streamed, not on how it was cut up, and the
      published chunk texts put together are that text. */
  method Generate(source: Source) returns (title: JsString, content: JsString, published: seq<JsString>)
    ensures Concat(published) == Concat(source.chunks) && published == source.chunks
    ensures source.completes ==> title == TitleOf(Concat(source.chunks)) && content == Concat(source.chunks)
    ensures !source.completes ==> title == source.wholeTitle && content == source.wholeContent
  {
    title := DEFAULT_TITLE;
    var accumulatedText: JsString := [];
    published := [];
    for i := 0 to |source.chunks|
      invariant accumulatedText == Concat(source.chunks[..i])
      invariant published == source.chunks[..i]
      invariant title == TitleOf(accumulatedText)
    {
      var chunk := source.chunks[i];
      ConcatSnoc(source.chunks, i);
      ghost var before := accumulatedText;
      accumulatedText := accumulatedText + chunk;
      if NEWLINE in before {
        FirstLineStable(before, chunk);
      }
      if title == DEFAULT_TITLE {
        var line := FirstLine(accumulatedText);
        if line != accumulatedText {
          title := Trim(DropFirst(line, TITLE_PREFIX));
        }
      }
      published := published + [chunk];
    }
    assert source.chunks[..|source.chunks|] == source.chunks;
    content := accumulatedText;
    if !source.completes {
      title, content := source.wholeTitle, source.wholeContent;
    }
  }

  /** `what` does not begin anywhere in `s` before `end`. */
  ghost predicate NotBefore(s: JsString, what: JsString, end: nat) {
    forall i :: 0 <= i < end && i <= |s| ==> !(what <= s[i..])
  }

  lemma NotBeforeTail(s: JsString, what: JsString, end: nat)
    requires s != [] && NotBefore(s, what, end + 1)
    ensures !(what <= s) && NotBefore(s[1..], what, end)
  {
    assert s[0..] == s;
    forall i | 0 <= i < end && i <= |s[1..]| ensures !(what <= s[1..][i..]) {
      assert s[1..][i..] == s[i + 1..];
    }
  }

  lemma TailCut(s: JsString, k: nat)
    requires 0 < k <= |s|
    ensures s[1..][k - 1..] == s[k..] && [s[0]] + s[1..][..k - 1] == s[..k]
  {
  }

  /** Exactly the first occurrence goes. */
  lemma {:induction false} FirstOccurrenceDropped(s: JsString, what: JsString, k: nat)
    requires NotBefore(s, what, k) && k <= |s| && what <= s[k..]
    ensures DropFirst(s, what) == s[..k] + s[k + |what|..]
  {
    if k == 0 {
      assert s[0..] == s;
    } else {
      NotBeforeTail(s, what, k - 1);
      assert DropFirst(s, what) == [s[0]] + DropFirst(s[1..], what);
      hide DropFirst, NotBefore;
      TailCut(s, k);
      TailCut(s, k + |what|);
      FirstOccurrenceDropped(s[1..], what, k - 1);
    }
  }

  /** A text without it stays as it is. */
  lemma {:induction false} NothingDropped(s: JsString, what: JsString)
    requires NotBefore(s, what, |s| + 1)
    ensures DropFirst(s, what) == s
  {
    if s == [] {
      assert s[0..] == s;
    } else {
      NotBeforeTail(s, what, |s|);
      NothingDropped(s[1..], what);
    }
  }

  lemma {:induction false} FirstLineEnds(line: JsString, rest: JsString)
    requires NEWLINE !in line
    ensures FirstLine(line + [NEWLINE] + rest) == line
  {
    if line != [] {
      assert (line + [NEWLINE] + rest)[1..] == line[1..] + [NEWLINE] + rest;
      FirstLineEnds(line[1..], rest);
    }
  }

  /** The title is the first line, trimmed, without its first "Title: ", wherever that is. */
  lemma TitleIsFirstLine(line: JsString, rest: JsString, k: nat)
    requires NEWLINE !in line && k <= |line| && NotBefore(line, TITLE_PREFIX, k)
    requires [84, 105, 116, 108, 101, 58, 32] <= line[k..]
    ensures TitleOf(line + [NEWLINE] + rest) == Trim(line[..k] + line[k + 7..])
  {
    FirstOccurrenceDropped(line, TITLE_PREFIX, k);
    FirstLineEnds(line, rest);
    hide DropFirst, FirstLine, Trim;
  }

  lemma TitleWithoutPrefix(line: JsString, rest: JsString)
    requires NEWLINE !in line && NotBefore(line, TITLE_PREFIX, |line| + 1)
    ensures TitleOf(line + [NEWLINE] + rest) == Trim(line)
  {
    NothingDropped(line, TITLE_PREFIX);
    FirstLineEnds(line, rest);
    hide DropFirst, FirstLine, Trim;
  }
}
