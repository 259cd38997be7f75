/** One connection of the WebSocket relay as a step machine (ws-worker/src/index.ts, lines
    91-146 and 185-311). A message is the text left after the payload conversions; whether
    a socket's send throws is part of the event. */
module Relay {
  import opened Common

  const QUEUE_LIMIT := 50
  const MAX_TEXT_BYTES := 64 * 1024
  const TEXT_WINDOW_MS := 60 * 1000
  const MAX_TEXT_MESSAGES_PER_WINDOW := 120

  datatype Event =
    | ClientMessage(data: string, isRealtimeAudio: bool, now: int, sendOk: bool)
    /** The upstream socket opens; its `failsAt`-th queued send throws, if there are so many. */
    | Opened(failsAt: Option<nat>)
    | GeminiMessage(data: string, sendOk: bool)
    /** A close or error event of either socket. */
    | SocketEnded

  datatype State = State(
    geminiOpen: bool,
    isClosing: bool,
    queue: seq<string>,
    textWindowStart: int,
    textCount: nat,
    toGemini: seq<string>,   // sent upstream so far
    toClient: seq<string>,   // relayed down so far
    closePairs: nat          // how often both sockets were closed together
  )

  function Initial(now: int): State { State(false, false, [], now, 0, [], [], 0) }

  /** safeClose (lines 114-133). */
  function SafeClose(s: State): State {
    if s.isClosing then s else s.(isClosing := true, closePairs := s.closePairs + 1)
  }

  /** Lines 278-289: the text window after a message. */
  function CountText(s: State, e: Event): State
    requires e.ClientMessage?
  {
    if e.isRealtimeAudio then s
    else if e.now - s.textWindowStart > TEXT_WINDOW_MS then s.(textWindowStart := e.now, textCount := 1)
    else s.(textCount := s.textCount + 1)
  }

  /** The message gets past the closing, size and rate checks. */
  predicate Accepts(s: State, e: Event) {
    e.ClientMessage? && !s.isClosing && |e.data| <= MAX_TEXT_BYTES &&
    (e.isRealtimeAudio || CountText(s, e).textCount <= MAX_TEXT_MESSAGES_PER_WINDOW)
  }

  /** How many queued messages go out when the socket opens, and how many leave the queue. */
  function Flushed(queue: seq<string>, failsAt: Option<nat>): nat {
    if failsAt.Some? && failsAt.value < |queue| then failsAt.value else |queue|
  }

  function Next(s: State, e: Event): State {
    match e
    case ClientMessage(data, _, _, sendOk) =>
      if s.isClosing || |data| > MAX_TEXT_BYTES then s
      else
        var t := CountText(s, e);
        if !Accepts(s, e) then t
        else if !s.geminiOpen then t.(queue := LastN(t.queue + [data], QUEUE_LIMIT))
        else if sendOk then t.(toGemini := t.toGemini + [data])
        else SafeClose(t)
    case Opened(failsAt) =>
      var n := Flushed(s.queue, failsAt);
      s.(geminiOpen := true, toGemini := s.toGemini + s.queue[..n],
         queue := if n < |s.queue| then s.queue[n + 1..] else [])
    case GeminiMessage(data, sendOk) =>
      if s.isClosing then s
      else if sendOk then s.(toClient := s.toClient + [data])
      else SafeClose(s)
    case SocketEnded => SafeClose(s)
  }

  ghost function Run(s: State, es: seq<Event>): State
    decreases |es|
  {
    if es == [] then s else Run(Next(s, es[0]), es[1..])
  }

  /** Where the flush ends: at the throwing send, or with an empty queue. */
  lemma FlushEnds(s: State, failsAt: Option<nat>, turn: nat)
    requires turn <= |s.queue|
    requires if turn < |s.queue| then failsAt == Some(turn) else failsAt.Some? ==> turn <= failsAt.value
    ensures Next(s, Opened(failsAt)) == s.(geminiOpen := true, toGemini := s.toGemini + s.queue[..turn],
      queue := if turn < |s.queue| then s.queue[turn + 1..] else s.queue[turn..])
  {
  }

  class LiveRelay {
    var geminiOpen: bool
    var isClosing: bool
    var audioBufferQueue: seq<string>
    var textWindowStart: int
    var textCount: nat
    var toGemini: seq<string>
    var toClient: seq<string>
    var closePairs: nat

    ghost function Abstract(): State
      reads this
    {
      State(geminiOpen, isClosing, audioBufferQueue, textWindowStart, textCount, toGemini, toClient, closePairs)
    }

    ghost predicate Valid()
      reads this
    {
      |audioBufferQueue| <= QUEUE_LIMIT
    }

    constructor (now: int)
      ensures Valid() && Abstract() == Initial(now)
    {
      geminiOpen, isClosing, audioBufferQueue := false, false, [];
      textWindowStart, textCount := now, 0;
      toGemini, toClient, closePairs := [], [], 0;
    }

    method Close()
      requires Valid()
      modifies this
      ensures Valid() && Abstract() == SafeClose(old(Abstract()))
    {
      if isClosing {
        return;
      }
      isClosing := true;
      closePairs := closePairs + 1;
    }

    /** Lines 139-146: the flush stops where a send throws, having shifted that message. */
    method OnOpen(failsAt: Option<nat>)
      requires Valid()
      modifies this
      ensures Valid() && Abstract() == Next(old(Abstract()), Opened(failsAt))
    {
      hide Next;
      geminiOpen := true;
      ghost var s, q, sent := old(Abstract()), audioBufferQueue, toGemini;
      var turn := 0;
      while |audioBufferQueue| > 0
        invariant 0 <= turn <= |q| && (failsAt.Some? ==> turn <= failsAt.value)
        invariant audioBufferQueue == q[turn..] && toGemini == sent + q[..turn]
        invariant Abstract() == s.(geminiOpen := true, queue := audioBufferQueue, toGemini := toGemini)
        decreases |audioBufferQueue|
      {
        var queued := audioBufferQueue[0];
        audioBufferQueue := audioBufferQueue[1..];
        if failsAt == Some(turn) {
          FlushEnds(s, failsAt, turn);
          return;
        }
        toGemini := toGemini + [queued];
        turn := turn + 1;
      }
      FlushEnds(s, failsAt, turn);
    }

    /** Lines 148-183. */
    method OnGeminiMessage(data: string, sendOk: bool)
      requires Valid()
      modifies this
      ensures Valid() && Abstract() == Next(old(Abstract()), GeminiMessage(data, sendOk))
    {
      if isClosing {
        return;
      }
      if sendOk {
        toClient := toClient + [data];
      } else {
        Close();
      }
    }

    /** Lines 201-308. */
    method OnClientMessage(data: string, isRealtimeAudio: bool, now: int, sendOk: bool)
      requires Valid()
      modifies this
      ensures Valid() && Abstract() == Next(old(Abstract()), ClientMessage(data, isRealtimeAudio, now, sendOk))
    {
      if isClosing || |data| > MAX_TEXT_BYTES {
        return;
      }
      if !isRealtimeAudio {
        if now - textWindowStart > TEXT_WINDOW_MS {
          textWindowStart := now;
          textCount := 0;
        }
        textCount := textCount + 1;
        if textCount > MAX_TEXT_MESSAGES_PER_WINDOW {
          return;
        }
      }
      assert Abstract() == CountText(old(Abstract()), ClientMessage(data, isRealtimeAudio, now, sendOk));
      if geminiOpen {
        if sendOk {
          toGemini := toGemini + [data];
        } else {
          Close();
        }
      } else {
        audioBufferQueue := audioBufferQueue + [data];
        if |audioBufferQueue| > QUEUE_LIMIT {
          audioBufferQueue := audioBufferQueue[1..];
        }
      }
    }
  }

  /** The message of `e`, if it is accepted while the upstream socket is not open / is open. */
  function AcceptedNow(s: State, e: Event, whileOpen: bool): seq<string> {
    if Accepts(s, e) && s.geminiOpen == whileOpen then [e.data] else []
  }

  /** The messages accepted in a run while the upstream socket was not open / was open. */
  ghost function Accepted(s: State, es: seq<Event>, whileOpen: bool): seq<string>
    decreases |es|
  {
    if es == [] then []
    else AcceptedNow(s, es[0], whileOpen) + Accepted(Next(s, es[0]), es[1..], whileOpen)
  }

  /** No send of a flush throws. */
  ghost predicate FlushesWhole(es: seq<Event>) {
    es == [] || ((es[0].Opened? ==> es[0].failsAt.None?) && FlushesWhole(es[1..]))
  }

  ghost predicate Opens(es: seq<Event>) {
    es != [] && (es[0].Opened? || Opens(es[1..]))
  }

  /** `sent` is `all`, or all but its last message, whose send threw and closed the session. */
  ghost predicate AllButFailed(sent: seq<string>, all: seq<string>, closed: bool) {
    sent == all || (closed && all != [] && sent == all[..|all| - 1])
  }

  /** No send of an accepted message throws. */
  ghost predicate SendsOk(es: seq<Event>) {
    es == [] || ((es[0].ClientMessage? ==> es[0].sendOk) && SendsOk(es[1..]))
  }

  /** The send of some message accepted after the socket opened throws. */
  ghost predicate Throws(s: State, es: seq<Event>)
    decreases |es|
  {
    es != [] && ((Accepts(s, es[0]) && s.geminiOpen && !es[0].sendOk) || Throws(Next(s, es[0]), es[1..]))
  }

  /** What arrives of the messages accepted after opening: all, or all but the last, whose
      send threw and closed the session. */
  function Delivered(all: seq<string>, threw: bool): seq<string> {
    if threw && all != [] then all[..|all| - 1] else all
  }

  lemma RunFirst(s: State, e: Event, es: seq<Event>, whileOpen: bool)
    ensures
      Run(s, [e] + es) == Run(Next(s, e), es) &&
      Accepted(s, [e] + es, whileOpen) == AcceptedNow(s, e, whileOpen) + Accepted(Next(s, e), es, whileOpen) &&
      (Throws(s, [e] + es) <==> (Accepts(s, e) && s.geminiOpen && !e.sendOk) || Throws(Next(s, e), es))
  {
    hide Next, AcceptedNow;
    assert ([e] + es)[1..] == es;
  }

  lemma {:induction false} RunAppend(s: State, a: seq<Event>, b: seq<Event>, whileOpen: bool)
    ensures Run(s, a + b) == Run(Run(s, a), b)
    ensures Accepted(s, a + b, whileOpen) == Accepted(s, a, whileOpen) + Accepted(Run(s, a), b, whileOpen)
    ensures Throws(s, a + b) <==> Throws(s, a) || Throws(Run(s, a), b)
    decreases |a|
  {
    hide Next, AcceptedNow, Run, Accepted, Throws;
    if a == [] {
      RunNothing(s, whileOpen);
      assert a + b == b && [] + Accepted(s, b, whileOpen) == Accepted(s, b, whileOpen);
    } else {
      var e, rest := a[0], a[1..];
      assert [e] + rest == a;
      assert [e] + (rest + b) == a + b;
      RunAppend(Next(s, e), rest, b, whileOpen);
      RunFirst(s, e, rest, whileOpen);
      RunFirst(s, e, rest + b, whileOpen);
      Regroup(AcceptedNow(s, e, whileOpen), Accepted(Next(s, e), rest, whileOpen),
              Accepted(Run(Next(s, e), rest), b, whileOpen));
    }
  }

  lemma RunNothing(s: State, whileOpen: bool)
    ensures Run(s, []) == s && Accepted(s, [], whileOpen) == [] && !Throws(s, [])
  {
  }

  lemma Regroup(x: seq<string>, y: seq<string>, z: seq<string>)
    ensures x + (y + z) == (x + y) + z
  {
  }

  /** Until the socket opens nothing is sent, and the queue is the last 50 accepted. */
  lemma {:induction false} QueuePhase(s: State, es: seq<Event>, before: seq<string>)
    requires !s.geminiOpen && s.toGemini == [] && s.queue == LastN(before, QUEUE_LIMIT) && !Opens(es)
    ensures
      var t := Run(s, es);
      !t.geminiOpen && t.toGemini == [] && t.queue == LastN(before + Accepted(s, es, false), QUEUE_LIMIT)
    ensures Accepted(s, es, true) == [] && !Throws(s, es)
    decreases |es|
  {
    if es == [] {
      assert before + [] == before;
    } else {
      QueueStep(s, es[0], before);
      hide Next, Accepts;
      var t := Next(s, es[0]);
      var added := if Accepts(s, es[0]) then [es[0].data] else [];
      QueuePhase(t, es[1..], before + added);
      assert before + (added + Accepted(t, es[1..], false)) == (before + added) + Accepted(t, es[1..], false);
    }
  }

  lemma QueueStep(s: State, e: Event, before: seq<string>)
    requires !e.Opened? && !s.geminiOpen && s.toGemini == [] && s.queue == LastN(before, QUEUE_LIMIT)
    ensures
      var t := Next(s, e);
      !t.geminiOpen && t.toGemini == [] &&
      t.queue == LastN(before + if Accepts(s, e) then [e.data] else [], QUEUE_LIMIT)
  {
    if Accepts(s, e) {
      LastNPush(before, e.data, QUEUE_LIMIT);
    } else {
      assert before + [] == before;
    }
  }

  /** Once open, every accepted message goes straight through and a stranded queue stays. */
  lemma {:induction false} OpenPhase(s: State, es: seq<Event>)
    requires s.geminiOpen && (s.queue == [] || !Opens(es))
    ensures
      var t, all := Run(s, es), Accepted(s, es, true);
      t.queue == s.queue && Accepted(s, es, false) == [] &&
      t.toGemini == s.toGemini + Delivered(all, Throws(s, es)) &&
      (Throws(s, es) ==> all != [] && t.isClosing) &&
      (s.isClosing ==> all == [] && t.isClosing)
    decreases |es|
  {
    if es != [] {
      var e := es[0];
      assert s.queue == [] || (!e.Opened? && !Opens(es[1..]));
      OpenStep(s, e);
      var threw := Accepts(s, e) && !e.sendOk;
      assert Throws(s, es) == (threw || Throws(Next(s, e), es[1..]));
      hide Next, Accepts, Opens, Throws;
      var t := Next(s, e);
      OpenPhase(t, es[1..]);
      var added := if Accepts(s, e) then [e.data] else [];
      var more, end := Accepted(t, es[1..], true), Run(t, es[1..]);
      assert Run(s, es) == end && Accepted(s, es, true) == added + more;
      SentAfterStep(s.toGemini, added, more, threw, Throws(t, es[1..]));
    } else {
      assert s.toGemini + [] == s.toGemini;
    }
  }

  /** From one message to all of them: `added` goes first, then `more`. */
  lemma SentAfterStep(before: seq<string>, added: seq<string>, more: seq<string>, now: bool, later: bool)
    requires |added| <= 1 && (now ==> added != [] && more == [] && !later) && (later ==> more != [])
    ensures before + Delivered(added + more, now || later) == before + Delivered(added, now) + Delivered(more, later)
  {
    if later {
      assert (added + more)[..|added + more| - 1] == added + more[..|more| - 1];
    } else if now {
      assert added + more == added;
    }
  }

  lemma OpenStep(s: State, e: Event)
    requires s.geminiOpen && (s.queue == [] || !e.Opened?)
    ensures
      var t := Next(s, e);
      var threw := Accepts(s, e) && !e.sendOk;
      t.geminiOpen && t.queue == s.queue && (s.isClosing ==> t.isClosing && !Accepts(s, e)) &&
      t.toGemini == s.toGemini + Delivered(if Accepts(s, e) then [e.data] else [], threw) && (threw ==> t.isClosing)
  {
    if e.Opened? {
      assert s.queue[..0] == [];
    }
  }

  /** Order and loss, for every run in which the upstream socket opens once, whether or not a
      send throws: what goes upstream is the part of the last 50 early messages before the
      one whose send throws in the flush, then the messages accepted after, in arrival
      order, without the one whose later send throws, which is the very last. The early
      messages behind the throwing send stay in the queue. */
  lemma FlushOrder(now: int, pre: seq<Event>, failsAt: Option<nat>, post: seq<Event>)
    requires !Opens(pre)
    ensures
      var s, es := Initial(now), pre + [Opened(failsAt)] + post;
      var t, after := Run(s, es), Accepted(s, es, true);
      var kept := LastN(Accepted(s, es, false), QUEUE_LIMIT);
      var n := Flushed(kept, failsAt);
      var stranded := if n < |kept| then kept[n + 1..] else [];
      !Opens(post) || stranded == [] ==>
        t.queue == stranded && t.toGemini == kept[..n] + Delivered(after, Throws(s, es)) &&
        (Throws(s, es) ==> after != [] && t.isClosing)
  {
    hide Run, Accepted, Next, Accepts, Opens, Throws, Delivered;
    var s := Initial(now);
    QueuePhase(s, pre, []);
    assert [] + Accepted(s, pre, false) == Accepted(s, pre, false);
    var u := Run(s, pre);
    OpensOnto(u, failsAt);
    var v := Next(u, Opened(failsAt));
    RunInThree(s, pre, failsAt, post, false);
    RunInThree(s, pre, failsAt, post, true);
    if !Opens(post) || v.queue == [] {
      OpenPhase(v, post);
      assert Accepted(s, pre, false) + [] == Accepted(s, pre, false);
      assert [] + Accepted(v, post, true) == Accepted(v, post, true);
    }
  }

  lemma RunInThree(s: State, pre: seq<Event>, failsAt: Option<nat>, post: seq<Event>, whileOpen: bool)
    requires Run(s, pre).toGemini == []
    ensures
      var es, v := pre + [Opened(failsAt)] + post, Next(Run(s, pre), Opened(failsAt));
      Run(s, es) == Run(v, post) &&
      Accepted(s, es, whileOpen) == Accepted(s, pre, whileOpen) + Accepted(v, post, whileOpen) &&
      (Throws(s, es) <==> Throws(s, pre) || Throws(v, post))
  {
    var open := [Opened(failsAt)];
    OpensOnto(Run(s, pre), failsAt);
    hide Run, Accepted, Next, Accepts, Throws;
    RunAppend(s, pre, open, whileOpen);
    RunAppend(s, pre + open, post, whileOpen);
    assert Accepted(s, pre, whileOpen) + [] == Accepted(s, pre, whileOpen);
  }

  lemma OpensOnto(s: State, failsAt: Option<nat>)
    requires s.toGemini == []
    ensures
      var t, n := Next(s, Opened(failsAt)), Flushed(s.queue, failsAt);
      t.toGemini == s.queue[..n] && t.queue == (if n < |s.queue| then s.queue[n + 1..] else []) && t.geminiOpen &&
      Run(s, [Opened(failsAt)]) == t && !Throws(s, [Opened(failsAt)]) &&
      forall o :: Accepted(s, [Opened(failsAt)], o) == []
  {
    assert [Opened(failsAt)][1..] == [];
  }

  lemma {:induction false} SplitAtOpen(es: seq<Event>)
      returns (pre: seq<Event>, failsAt: Option<nat>, post: seq<Event>)
    requires Opens(es)
    ensures es == pre + [Opened(failsAt)] + post && !Opens(pre)
    ensures FlushesWhole(es) ==> failsAt.None?
    ensures SendsOk(es) ==> SendsOk(post)
  {
    if es[0].Opened? {
      pre, failsAt, post := [], es[0].failsAt, es[1..];
    } else {
      pre, failsAt, post := SplitAtOpen(es[1..]);
      pre := [es[0]] + pre;
    }
  }

  /** When no send of a flush throws, what goes upstream is the last 50 messages accepted
      before the socket opened, then every message accepted after; only a later send that
      throws can lose one more, the very last. If the socket never opens, those 50 stay
      queued. */
  lemma RelayOrder(now: int, es: seq<Event>)
    requires FlushesWhole(es)
    ensures
      var (s, t) := (Initial(now), Run(Initial(now), es));
      var kept := LastN(Accepted(s, es, false), QUEUE_LIMIT);
      if Opens(es) then AllButFailed(t.toGemini, kept + Accepted(s, es, true), t.isClosing) && t.queue == []
      else t.toGemini == [] && t.queue == kept
  {
    if Opens(es) {
      var pre, failsAt, post := SplitAtOpen(es);
      hide Run, Accepted, Opens, Throws;
      FlushOrder(now, pre, failsAt, post);
      var kept := LastN(Accepted(Initial(now), es, false), QUEUE_LIMIT);
      assert kept[..|kept|] == kept;
    } else {
      QueuePhase(Initial(now), es, []);
      assert [] + Accepted(Initial(now), es, false) == Accepted(Initial(now), es, false);
    }
  }

  /** Exactly when the flush loses or strands a message: when its throwing send is one of
      the queued messages. Everything it keeps is then missing from what is sent, though
      the session stays open and later messages go through. */
  lemma FlushLosesIff(now: int, pre: seq<Event>, failsAt: Option<nat>, post: seq<Event>)
    requires !Opens(pre) && !Opens(post)
    ensures
      var s, es := Initial(now), pre + [Opened(failsAt)] + post;
      var t := Run(s, es);
      var kept := LastN(Accepted(s, es, false), QUEUE_LIMIT);
      (t.toGemini != kept + Delivered(Accepted(s, es, true), Throws(s, es)) <==>
        failsAt.Some? && failsAt.value < |kept|) &&
      (t.queue != [] <==> failsAt.Some? && failsAt.value + 1 < |kept|)
  {
    hide Run, Accepted, Throws, Delivered;
    FlushOrder(now, pre, failsAt, post);
    var s, es := Initial(now), pre + [Opened(failsAt)] + post;
    var kept := LastN(Accepted(s, es, false), QUEUE_LIMIT);
    PrefixWhole(kept, Flushed(kept, failsAt), Delivered(Accepted(s, es, true), Throws(s, es)));
  }

  lemma PrefixWhole(kept: seq<string>, n: nat, after: seq<string>)
    requires n <= |kept|
    ensures kept[..n] + after == kept + after <==> n == |kept|
  {
    if n == |kept| {
      assert kept[..n] == kept;
    } else {
      assert |kept[..n] + after| < |kept + after|;
    }
  }

  /** Every accepted message is sent, in order, exactly when at most 50 came before the
      socket opened and no send throws, neither of the flush nor after it. */
  lemma NothingLostIff(now: int, pre: seq<Event>, failsAt: Option<nat>, post: seq<Event>)
    requires !Opens(pre) && !Opens(post)
    ensures
      var s, es := Initial(now), pre + [Opened(failsAt)] + post;
      var early := Accepted(s, es, false);
      Run(s, es).toGemini == early + Accepted(s, es, true) <==>
        |early| <= QUEUE_LIMIT && (failsAt.None? || failsAt.value >= |early|) && !Throws(s, es)
  {
    hide Run, Accepted, Throws;
    FlushOrder(now, pre, failsAt, post);
    var s, es := Initial(now), pre + [Opened(failsAt)] + post;
    var early, after := Accepted(s, es, false), Accepted(s, es, true);
    var kept := LastN(early, QUEUE_LIMIT);
    var n, sent := Flushed(kept, failsAt), Delivered(after, Throws(s, es));
    if |early| <= QUEUE_LIMIT && n == |early| && !Throws(s, es) {
      assert kept[..n] == early;
    } else {
      assert |kept[..n] + sent| < |early + after|;
    }
  }

  lemma {:induction false} NoThrow(s: State, es: seq<Event>)
    requires SendsOk(es)
    ensures !Throws(s, es)
    decreases |es|
  {
    if es != [] {
      hide Next;
      NoThrow(Next(s, es[0]), es[1..]);
      assert Accepts(s, es[0]) ==> es[0].sendOk;
    }
  }

  /** With at most 50 messages before the socket opens and no throwing send nothing is lost:
      the first message accepted (the setup) is the first one sent. */
  lemma NothingLost(now: int, es: seq<Event>)
    requires FlushesWhole(es) && SendsOk(es) && Opens(es)
    requires |Accepted(Initial(now), es, false)| <= QUEUE_LIMIT
    ensures Run(Initial(now), es).toGemini == Accepted(Initial(now), es, false) + Accepted(Initial(now), es, true)
  {
    var pre, failsAt, post := SplitAtOpen(es);
    NoThrow(Initial(now), es);
    hide Run, Accepted, Opens, SendsOk, Throws;
    FlushOrder(now, pre, failsAt, post);
    var kept := LastN(Accepted(Initial(now), es, false), QUEUE_LIMIT);
    assert kept[..|kept|] == kept;
  }

  /** After a close, a step relays something exactly when it is the upstream socket opening
      onto a non-empty queue: `open` does not look at isClosing. */
  lemma RelaysAfterCloseIff(s: State, e: Event)
    requires s.isClosing
    ensures Next(s, e).toGemini != s.toGemini <==> e.Opened? && s.queue != [] && e.failsAt != Some(0)
    ensures Next(s, e).toClient == s.toClient && Next(s, e).closePairs == s.closePairs && Next(s, e).isClosing
  {
    if e.Opened? {
      var n := Flushed(s.queue, e.failsAt);
      assert |(s.toGemini + s.queue[..n])| == |s.toGemini| + n;
    }
  }

  /** After safeClose nothing is relayed in either direction and no second pair of closes is
      issued, provided the upstream socket does not open any more. */
  lemma {:induction false} SilentAfterClose(s: State, es: seq<Event>)
    requires s.isClosing && !Opens(es)
    ensures
      var t := Run(s, es);
      t.toGemini == s.toGemini && t.toClient == s.toClient && t.closePairs == s.closePairs && t.isClosing &&
      t.queue == s.queue
    decreases |es|
  {
    if es != [] {
      RelaysAfterCloseIff(s, es[0]);
      SilentAfterClose(Next(s, es[0]), es[1..]);
    }
  }

  /** A socket that opens after the session has closed still gets the flush, and nothing
      else, whatever comes before and after: the queue at the close, up to a throwing send. */
  lemma LateOpenRelaysQueue(s: State, pre: seq<Event>, failsAt: Option<nat>, post: seq<Event>)
    requires s.isClosing && !Opens(pre) && !Opens(post)
    ensures
      var t := Run(s, pre + [Opened(failsAt)] + post);
      t.toGemini == s.toGemini + s.queue[..Flushed(s.queue, failsAt)] &&
      t.toClient == s.toClient && t.closePairs == s.closePairs && t.isClosing
  {
    SilentAfterClose(s, pre);
    var u := Run(s, pre);
    var v := Next(u, Opened(failsAt));
    assert [Opened(failsAt)][1..] == [] && Run(u, [Opened(failsAt)]) == v;
    SilentAfterClose(v, post);
    hide Run, Next;
    RunAppend(s, pre, [Opened(failsAt)], true);
    RunAppend(s, pre + [Opened(failsAt)], post, true);
  }

  /** From a new connection: one message, the client leaves, the upstream socket opens, and
      the message goes upstream although both sockets were told to close. */
  lemma LateOpenHappens(now: int, data: string)
    requires |data| <= MAX_TEXT_BYTES
    ensures
      var t := Run(Initial(now), [ClientMessage(data, false, now, true), SocketEnded, Opened(None)]);
      t.isClosing && t.closePairs == 1 && t.toGemini == [data]
  {
    var s := Next(Initial(now), ClientMessage(data, false, now, true));
    var es := [SocketEnded, Opened(None)];
    assert [ClientMessage(data, false, now, true), SocketEnded, Opened(None)][1..] == es;
    assert s.queue == [data];
    LateOpenRelaysQueue(Next(s, SocketEnded), [], None, []);
    assert es[1..] == [] + [Opened(None)] + [] && [data][..1] == [data] && [] + [data] == [data];
  }

  /** In every run both sockets are closed together at most once, and exactly when closing. */
  lemma {:induction false} ClosedOnce(s: State, es: seq<Event>)
    requires s.closePairs == if s.isClosing then 1 else 0
    ensures Run(s, es).closePairs == if Run(s, es).isClosing then 1 else 0
    decreases |es|
  {
    if es != [] {
      ClosedOnce(Next(s, es[0]), es[1..]);
    }
  }

  /** Non-audio messages accepted since the text window of `s` began, given that `already`
      were: the count restarts where the window does. */
  ghost function TextsInWindow(s: State, es: seq<Event>, already: nat): nat
    decreases |es|
  {
    if es == [] then already
    else
      var e, t := es[0], Next(s, es[0]);
      var base := if t.textWindowStart != s.textWindowStart then 0 else already;
      TextsInWindow(t, es[1..], base + if Accepts(s, e) && !e.isRealtimeAudio then 1 else 0)
  }

  /** At most 120 non-audio messages are accepted per text window, in every run. */
  lemma {:induction false} TextLimit(s: State, es: seq<Event>, already: nat)
    requires already == Min(s.textCount, MAX_TEXT_MESSAGES_PER_WINDOW)
    ensures TextsInWindow(s, es, already) == Min(Run(s, es).textCount, MAX_TEXT_MESSAGES_PER_WINDOW)
    decreases |es|
  {
    if es != [] {
      var e, t := es[0], Next(s, es[0]);
      var base := if t.textWindowStart != s.textWindowStart then 0 else already;
      TextLimit(t, es[1..], base + if Accepts(s, e) && !e.isRealtimeAudio then 1 else 0);
    }
  }

  /** The clock, read when a client message arrives, starts at `from` and never goes back. */
  ghost predicate ClockFrom(es: seq<Event>, from: int)
    decreases |es|
  {
    es == [] ||
    if es[0].ClientMessage? then from <= es[0].now && ClockFrom(es[1..], es[0].now) else ClockFrom(es[1..], from)
  }

  /** How many non-audio messages that arrive within [a, a + TEXT_WINDOW_MS] are accepted. */
  ghost function TextsIn(s: State, es: seq<Event>, a: int): nat
    decreases |es|
  {
    if es == [] then 0
    else
      var e := es[0];
      (if Accepts(s, e) && !e.isRealtimeAudio && a <= e.now <= a + TEXT_WINDOW_MS then 1 else 0) +
      TextsIn(Next(s, e), es[1..], a)
  }

  /** What the text window still allows from time `a` on, within the interval: its own rest,
      and one more window if it began before `a`. */
  function TextAllowance(s: State, a: int): nat {
    (if s.textCount <= MAX_TEXT_MESSAGES_PER_WINDOW then MAX_TEXT_MESSAGES_PER_WINDOW - s.textCount else 0) +
    (if s.textWindowStart < a then MAX_TEXT_MESSAGES_PER_WINDOW else 0)
  }

  lemma {:induction false} NoTextsLater(s: State, es: seq<Event>, from: int, a: int)
    requires ClockFrom(es, from) && from > a + TEXT_WINDOW_MS
    ensures TextsIn(s, es, a) == 0
    decreases |es|
  {
    if es != [] {
      hide Next;
      NoTextsLater(Next(s, es[0]), es[1..], if es[0].ClientMessage? then es[0].now else from, a);
    }
  }

  lemma {:induction false} TextAllowanceSuffices(s: State, es: seq<Event>, from: int, a: int)
    requires ClockFrom(es, from) && a <= from
    ensures TextsIn(s, es, a) <= TextAllowance(s, a)
    decreases |es|
  {
    if es != [] {
      var e, t := es[0], Next(s, es[0]);
      var from' := if e.ClientMessage? then e.now else from;
      if from' > a + TEXT_WINDOW_MS {
        NoTextsLater(t, es[1..], from', a);
      } else {
        TextAllowanceSuffices(t, es[1..], from', a);
      }
    }
  }

  /** Once a text was counted, or the first window is over before `a`, the first place of a
      window is used up before `a` or the window begins in the interval. */
  lemma {:induction false} TextsUsedUp(s: State, es: seq<Event>, from: int, a: int)
    requires ClockFrom(es, from)
    requires s.textCount >= 1 || a - s.textWindowStart > TEXT_WINDOW_MS
    ensures TextsIn(s, es, a) <= 2 * MAX_TEXT_MESSAGES_PER_WINDOW - 1
    decreases |es|
  {
    if es != [] {
      var e, t := es[0], Next(s, es[0]);
      if e.ClientMessage? && a <= e.now {
        TextAllowanceSuffices(t, es[1..], e.now, a);
        if e.now > a + TEXT_WINDOW_MS {
          NoTextsLater(t, es[1..], e.now, a);
        }
      }
      TextsUsedUp(t, es[1..], if e.ClientMessage? then e.now else from, a);
    }
  }

  lemma {:induction false} TextsBefore(s: State, es: seq<Event>, from: int, a: int)
    requires ClockFrom(es, from)
    ensures TextsIn(s, es, a) <= 2 * MAX_TEXT_MESSAGES_PER_WINDOW
    decreases |es|
  {
    if es != [] {
      var e := es[0];
      if e.ClientMessage? && a <= e.now {
        TextAllowanceSuffices(s, es, e.now, a);
      } else {
        TextsBefore(Next(s, e), es[1..], if e.ClientMessage? then e.now else from, a);
      }
    }
  }

  /** The bound for any interval of one window. The first window begins with the connection
      and not with a message, so an interval that begins in it can see two full windows;
      any later one sees one text less, an earlier one only the first window. */
  lemma TextSlidingBound(now: int, es: seq<Event>, a: int)
    requires ClockFrom(es, now)
    ensures TextsIn(Initial(now), es, a) <=
      if a <= now then MAX_TEXT_MESSAGES_PER_WINDOW
      else if a <= now + TEXT_WINDOW_MS then 2 * MAX_TEXT_MESSAGES_PER_WINDOW
      else 2 * MAX_TEXT_MESSAGES_PER_WINDOW - 1
  {
    if a <= now {
      TextAllowanceSuffices(Initial(now), es, now, a);
    } else if a <= now + TEXT_WINDOW_MS {
      TextsBefore(Initial(now), es, now, a);
    } else {
      TextsUsedUp(Initial(now), es, now, a);
    }
  }

  /** `n` short texts at the same moment. */
  function TextBurst(n: nat, now: int): (es: seq<Event>)
    ensures |es| == n
  {
    if n == 0 then [] else [ClientMessage("{}", false, now, true)] + TextBurst(n - 1, now)
  }

  /** `n` texts at time `now` lead from `s` to `t`, and all of them count in the interval at `a`. */
  ghost predicate Bursts(s: State, n: nat, now: int, a: int, t: State) {
    Run(s, TextBurst(n, now)) == t && TextsIn(s, TextBurst(n, now), a) == n && !t.isClosing
  }

  lemma {:induction false} BurstInWindow(s: State, n: nat, now: int, a: int) returns (t: State)
    requires !s.isClosing && now - s.textWindowStart <= TEXT_WINDOW_MS && a <= now <= a + TEXT_WINDOW_MS
    requires s.textCount + n <= MAX_TEXT_MESSAGES_PER_WINDOW
    ensures Bursts(s, n, now, a, t) && t.textWindowStart == s.textWindowStart && t.textCount == s.textCount + n
    decreases n
  {
    if n == 0 {
      t := s;
    } else {
      var es := TextBurst(n, now);
      assert es[1..] == TextBurst(n - 1, now);
      t := BurstInWindow(Next(s, es[0]), n - 1, now, a);
    }
  }

  /** A burst after the window has run out opens a new one. */
  lemma BurstInNewWindow(s: State, n: nat, now: int, a: int) returns (t: State)
    requires !s.isClosing && now - s.textWindowStart > TEXT_WINDOW_MS && a <= now <= a + TEXT_WINDOW_MS
    requires 0 < n <= MAX_TEXT_MESSAGES_PER_WINDOW
    ensures Bursts(s, n, now, a, t) && t.textWindowStart == now && t.textCount == n
  {
    var es := TextBurst(n, now);
    assert es[1..] == TextBurst(n - 1, now);
    t := BurstInWindow(Next(s, es[0]), n - 1, now, a);
  }

  lemma {:induction false} TextsAppend(s: State, x: seq<Event>, y: seq<Event>, a: int)
    ensures TextsIn(s, x + y, a) == TextsIn(s, x, a) + TextsIn(Run(s, x), y, a)
    decreases |x|
  {
    if x == [] {
      assert x + y == y;
    } else {
      hide Next, Accepts;
      TextsAppend(Next(s, x[0]), x[1..], y, a);
      assert (x + y)[1..] == x[1..] + y;
    }
  }

  lemma {:induction false} BurstClock(n: nat, now: int, rest: seq<Event>, from: int)
    requires from <= now && ClockFrom(rest, now)
    ensures ClockFrom(TextBurst(n, now) + rest, from)
    decreases n
  {
    if n == 0 {
      assert TextBurst(n, now) + rest == rest;
      ClockEarlier(rest, now, from);
    } else {
      var e := ClientMessage("{}", false, now, true);
      assert TextBurst(n, now) + rest == [e] + (TextBurst(n - 1, now) + rest);
      hide TextBurst;
      BurstClock(n - 1, now, rest, now);
      assert ([e] + (TextBurst(n - 1, now) + rest))[1..] == TextBurst(n - 1, now) + rest;
    }
  }

  lemma {:induction false} ClockEarlier(es: seq<Event>, now: int, from: int)
    requires ClockFrom(es, now) && from <= now
    ensures ClockFrom(es, from)
    decreases |es|
  {
    if es != [] && !es[0].ClientMessage? {
      ClockEarlier(es[1..], now, from);
    }
  }

  /** Two full windows meet inside one interval of a minute when the first began with the
      connection. */
  lemma TwoFullWindows(now: int, a: int)
    requires now < a <= now + TEXT_WINDOW_MS
    ensures
      var end := now + TEXT_WINDOW_MS;
      var es := TextBurst(MAX_TEXT_MESSAGES_PER_WINDOW, end) + TextBurst(MAX_TEXT_MESSAGES_PER_WINDOW, end + 1);
      ClockFrom(es, now) && TextsIn(Initial(now), es, a) == 2 * MAX_TEXT_MESSAGES_PER_WINDOW
  {
    hide TextBurst, ClockFrom, TextsIn, Run;
    var n, end := MAX_TEXT_MESSAGES_PER_WINDOW, now + TEXT_WINDOW_MS;
    var x, y := TextBurst(n, end), TextBurst(n, end + 1);
    var s := BurstInWindow(Initial(now), n, end, a);
    var t := BurstInNewWindow(s, n, end + 1, a);
    TextsAppend(Initial(now), x, y, a);
    BurstThenNothing(n, end + 1, end);
    BurstClock(n, end, y, now);
  }

  lemma BurstThenNothing(n: nat, now: int, from: int)
    requires from <= now
    ensures ClockFrom(TextBurst(n, now), from)
  {
    BurstClock(n, now, [], from);
    assert TextBurst(n, now) + [] == TextBurst(n, now);
  }

  /** Later on the bound is attained, too: one text before the interval, the rest of its
      window in it, and a full window after. */
  lemma LaterBoundAttained(now: int, a: int)
    requires a > now + TEXT_WINDOW_MS + 1
    ensures
      var late := a + TEXT_WINDOW_MS;
      var es := TextBurst(1, a - 1) + (TextBurst(MAX_TEXT_MESSAGES_PER_WINDOW - 1, late - 1) +
        TextBurst(MAX_TEXT_MESSAGES_PER_WINDOW, late));
      ClockFrom(es, now) && TextsIn(Initial(now), es, a) == 2 * MAX_TEXT_MESSAGES_PER_WINDOW - 1
  {
    hide TextBurst, ClockFrom, TextsIn, Run;
    var n, late := MAX_TEXT_MESSAGES_PER_WINDOW, a + TEXT_WINDOW_MS;
    var x, y, z := TextBurst(1, a - 1), TextBurst(n - 1, late - 1), TextBurst(n, late);
    var s := BurstInNewWindow(Initial(now), 1, a - 1, a - 1);
    OneBefore(Initial(now), a);
    var t := BurstInWindow(s, n - 1, late - 1, a);
    var u := BurstInNewWindow(t, n, late, a);
    TextsAppend(Initial(now), x, y + z, a);
    TextsAppend(s, y, z, a);
    BurstThenNothing(n, late, late - 1);
    BurstClock(n - 1, late - 1, z, a - 1);
    BurstClock(1, a - 1, y + z, now);
  }

  lemma OneBefore(s: State, a: int)
    ensures TextsIn(s, TextBurst(1, a - 1), a) == 0
  {
    assert TextBurst(1, a - 1)[1..] == [];
  }
}
