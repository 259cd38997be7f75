/** What the relay does with each arriving message, told from the events: which messages it
    takes, and where they go (ws-worker/src/index.ts, lines 148-183 and 201-308). */
module RelayLaws {
  import opened Common
  import opened Relay

  /** `s` with `data` sent upstream, or kept for the time the socket opens; a send that
      throws closes the session instead. */
  function Forwarded(s: State, data: string, sendOk: bool): State {
    if !s.geminiOpen then
      s.(queue := if |s.queue| < 50 then s.queue + [data] else s.queue[|s.queue| - 49..] + [data])
    else if sendOk then s.(toGemini := s.toGemini + [data])
    else s.(isClosing := true, closePairs := s.closePairs + 1)
  }

  /** Audio is never rated: an unclosed session takes every audio message of up to 65536
      units and does nothing else. A closing one takes none, and neither takes a longer one. */
  lemma AudioForwarded(s: State, data: string, now: int, sendOk: bool)
    ensures Next(s, ClientMessage(data, true, now, sendOk)) ==
      if !s.isClosing && |data| <= 65_536 then Forwarded(s, data, sendOk) else s
  {
  }

  /** A message from the model reaches the client while the session is not closing. */
  lemma ModelMessageRelayed(s: State, data: string, sendOk: bool)
    ensures Next(s, GeminiMessage(data, sendOk)) ==
      if s.isClosing then s
      else if sendOk then s.(toClient := s.toClient + [data])
      else s.(isClosing := true, closePairs := s.closePairs + 1)
  {
  }

  /** The messages from the model that arrive in a run before the close and can be sent. */
  ghost function FromModel(s: State, es: seq<Event>): seq<string>
    decreases |es|
  {
    if es == [] then []
    else
      (if es[0].GeminiMessage? && !s.isClosing && es[0].sendOk then [es[0].data] else []) +
      FromModel(Next(s, es[0]), es[1..])
  }

  /** Over any run the client receives exactly those, in order. */
  lemma {:induction false} ClientReceives(s: State, es: seq<Event>)
    ensures Run(s, es).toClient == s.toClient + FromModel(s, es)
    decreases |es|
  {
    if es != [] {
      var t := Next(s, es[0]);
      var got := if es[0].GeminiMessage? && !s.isClosing && es[0].sendOk then [es[0].data] else [];
      assert t.toClient == s.toClient + got;
      hide Next;
      ClientReceives(t, es[1..]);
      assert s.toClient + (got + FromModel(t, es[1..])) == (s.toClient + got) + FromModel(t, es[1..]);
    }
  }

  /** The start of the text window after texts at `times`, for a connection made at `from`:
      a text more than a minute after the start of a window starts the next. */
  function WindowStart(from: int, times: seq<int>): int {
    if times == [] then from
    else
      var n := |times| - 1;
      var start := WindowStart(from, times[..n]);
      if times[n] - start > 60_000 then times[n] else start
  }

  /** How many of the texts at `times` have arrived in that window. */
  function InWindow(from: int, times: seq<int>): (c: nat)
    ensures c <= |times|
  {
    if times == [] then 0
    else
      var n := |times| - 1;
      if times[n] - WindowStart(from, times[..n]) > 60_000 then 1 else InWindow(from, times[..n]) + 1
  }

  predicate IsText(e: Event) {
    e.ClientMessage? && !e.isRealtimeAudio && |e.data| <= 65_536
  }

  /** The times of the texts of legal size that arrive before the close. */
  ghost function TextTimes(s: State, es: seq<Event>): seq<int>
    decreases |es|
  {
    if es == [] then []
    else (if IsText(es[0]) && !s.isClosing then [es[0].now] else []) + TextTimes(Next(s, es[0]), es[1..])
  }

  /** The session takes `e`, after texts at `times`: any audio, and a text if fewer than 120
      have arrived in its window. */
  predicate Takes(e: Event, closing: bool, from: int, times: seq<int>) {
    e.ClientMessage? && !closing && |e.data| <= 65_536 &&
    (e.isRealtimeAudio || e.now - WindowStart(from, times) > 60_000 || InWindow(from, times) < 120)
  }

  ghost predicate Counts(s: State, from: int, times: seq<int>) {
    s.textWindowStart == WindowStart(from, times) && s.textCount == InWindow(from, times)
  }

  lemma CountsStep(s: State, e: Event, from: int, times: seq<int>)
    requires Counts(s, from, times)
    ensures Accepts(s, e) <==> Takes(e, s.isClosing, from, times)
    ensures Counts(Next(s, e), from, times + if IsText(e) && !s.isClosing then [e.now] else [])
  {
    if IsText(e) && !s.isClosing {
      assert (times + [e.now])[..|times|] == times;
    } else {
      assert times + [] == times;
    }
  }

  lemma {:induction false} CountsRun(s: State, es: seq<Event>, from: int, times: seq<int>)
    requires Counts(s, from, times)
    ensures Counts(Run(s, es), from, times + TextTimes(s, es))
    decreases |es|
  {
    if es == [] {
      assert times + [] == times;
    } else {
      CountsStep(s, es[0], from, times);
      hide Next, Counts, IsText;
      var now := if IsText(es[0]) && !s.isClosing then [es[0].now] else [];
      CountsRun(Next(s, es[0]), es[1..], from, times + now);
      var more := TextTimes(Next(s, es[0]), es[1..]);
      assert times + (now + more) == (times + now) + more;
    }
  }

  /** In any run of a connection made at `now`: the next client message is forwarded exactly
      when it is audio, or a text with fewer than 120 before it in its window, counted on
      the events. One that is not taken moves nothing but the count. */
  lemma NextMessage(now: int, es: seq<Event>, e: Event)
    requires e.ClientMessage?
    ensures
      var s := Run(Initial(now), es);
      var t := Next(s, e);
      t.(textWindowStart := s.textWindowStart, textCount := s.textCount) ==
        if Takes(e, s.isClosing, now, TextTimes(Initial(now), es)) then Forwarded(s, e.data, e.sendOk) else s
  {
    var s := Run(Initial(now), es);
    CountsRun(Initial(now), es, now, []);
    assert [] + TextTimes(Initial(now), es) == TextTimes(Initial(now), es);
    CountsStep(s, e, now, TextTimes(Initial(now), es));
    AcceptedIsForwarded(s, e);
    hide Takes, Run, Next, Accepts, Forwarded, Counts;
  }

  lemma AcceptedIsForwarded(s: State, e: Event)
    requires e.ClientMessage?
    ensures Next(s, e).(textWindowStart := s.textWindowStart, textCount := s.textCount) ==
      if Accepts(s, e) then Forwarded(s, e.data, e.sendOk) else s
  {
  }

  /** The messages of a run that are taken while the upstream socket is not open / is open,
      by the count of the events alone. */
  ghost function Taken(s: State, es: seq<Event>, from: int, times: seq<int>, whileOpen: bool): seq<string>
    decreases |es|
  {
    if es == [] then []
    else
      var e := es[0];
      (if Takes(e, s.isClosing, from, times) && s.geminiOpen == whileOpen then [e.data] else []) +
      Taken(Next(s, e), es[1..], from, times + if IsText(e) && !s.isClosing then [e.now] else [], whileOpen)
  }

  /** They are what the order and loss theorems call accepted. */
  lemma AcceptedAreTaken(now: int, es: seq<Event>, whileOpen: bool)
    ensures Accepted(Initial(now), es, whileOpen) == Taken(Initial(now), es, now, [], whileOpen)
  {
    AcceptedAreTakenFrom(Initial(now), es, now, [], whileOpen);
  }

  lemma {:induction false} AcceptedAreTakenFrom(s: State, es: seq<Event>, from: int, times: seq<int>, whileOpen: bool)
    requires Counts(s, from, times)
    ensures Accepted(s, es, whileOpen) == Taken(s, es, from, times, whileOpen)
    decreases |es|
  {
    if es != [] {
      CountsStep(s, es[0], from, times);
      hide Next, Counts, Accepts, Takes, IsText;
      var now := if IsText(es[0]) && !s.isClosing then [es[0].now] else [];
      AcceptedAreTakenFrom(Next(s, es[0]), es[1..], from, times + now, whileOpen);
    }
  }

  /** The audio of legal size that arrives while the session is not closing and its socket
      is not open / is open. */
  ghost function ArrivingAudio(s: State, es: seq<Event>, whileOpen: bool): seq<string>
    decreases |es|
  {
    if es == [] then []
    else
      var e := es[0];
      (if e.ClientMessage? && e.isRealtimeAudio && |e.data| <= 65_536 && !s.isClosing && s.geminiOpen == whileOpen
       then [e.data] else []) +
      ArrivingAudio(Next(s, e), es[1..], whileOpen)
  }

  /** The audio among the accepted messages of a run. */
  ghost function AcceptedAudio(s: State, es: seq<Event>, whileOpen: bool): seq<string>
    decreases |es|
  {
    if es == [] then []
    else
      (if es[0].ClientMessage? && es[0].isRealtimeAudio then AcceptedNow(s, es[0], whileOpen) else []) +
      AcceptedAudio(Next(s, es[0]), es[1..], whileOpen)
  }

  /** The accepted audio is exactly the audio that arrives before the close, short of
      oversized messages, whatever texts come between. */
  lemma {:induction false} AllAudioAccepted(s: State, es: seq<Event>, whileOpen: bool)
    ensures AcceptedAudio(s, es, whileOpen) == ArrivingAudio(s, es, whileOpen)
    decreases |es|
  {
    if es != [] {
      hide Next;
      AllAudioAccepted(Next(s, es[0]), es[1..], whileOpen);
    }
  }
}
