/** The playback worklet (pcm-processor.js): received samples go out frame by frame, with
    silence where the buffer runs dry. The volume message is not modelled. */
module PcmPlayer {

  datatype Event =
    | Frame(size: nat)        // process() with an output channel of this size
    | Data(samples: seq<real>)
    | Flush

  function Silence(n: nat): (z: seq<real>)
    ensures |z| == n && forall i :: 0 <= i < n ==> z[i] == 0.0
  {
    seq(n, _ => 0.0)
  }

  /** What a frame plays, and what it leaves. */
  function Played(buffer: seq<real>, size: nat): (out: seq<real>)
    ensures |out| == size
  {
    if |buffer| >= size then buffer[..size] else buffer + Silence(size - |buffer|)
  }

  function Left(buffer: seq<real>, size: nat): seq<real> {
    if |buffer| >= size then buffer[size..] else []
  }

  /** How many samples of a frame are real. */
  function Real(buffer: seq<real>, size: nat): nat {
    if |buffer| >= size then size else |buffer|
  }

  function Next(buffer: seq<real>, e: Event): seq<real> {
    match e
    case Frame(size) => Left(buffer, size)
    case Data(samples) => buffer + samples
    case Flush => []
  }

  class PCMProcessor {
    var buffer: seq<real>  // a Float32Array, replaced and never written in place

    constructor ()
      ensures buffer == []
    {
      buffer := [];
    }

    method Process(channel: array?<real>)
      modifies this, channel
      ensures channel == null ==> buffer == old(buffer)
      ensures channel != null ==>
        channel[..] == Played(old(buffer), channel.Length) && buffer == Next(old(buffer), Frame(channel.Length))
    {
      if channel == null {
        return;
      }
      if |buffer| >= channel.Length {
        forall i | 0 <= i < channel.Length {
          channel[i] := buffer[i];
        }
        buffer := buffer[channel.Length..];
      } else {
        forall i | 0 <= i < channel.Length {
          channel[i] := 0.0;
        }
        if |buffer| > 0 {
          forall i | 0 <= i < |buffer| {
            channel[i] := buffer[i];
          }
          buffer := [];
        }
      }
    }

    method HandleMessage(e: Event)
      requires !e.Frame?
      modifies this
      ensures buffer == Next(old(buffer), e)
    {
      if e.Flush? {
        buffer := [];
        return;
      }
      buffer := buffer + e.samples;
    }
  }

  function Run(buffer: seq<real>, es: seq<Event>): seq<real>
    decreases |es|
  {
    if es == [] then buffer else Run(Next(buffer, es[0]), es[1..])
  }

  /** The samples received in `es`. */
  function Received(es: seq<Event>): seq<real> {
    if es == [] then [] else (if es[0].Data? then es[0].samples else []) + Received(es[1..])
  }

  /** The samples played in `es` without the padding of underflowing frames. */
  function Emitted(buffer: seq<real>, es: seq<Event>): seq<real>
    decreases |es|
  {
    if es == [] then []
    else
      (if es[0].Frame? then Played(buffer, es[0].size)[..Real(buffer, es[0].size)] else []) +
      Emitted(Next(buffer, es[0]), es[1..])
  }

  predicate NoFlush(es: seq<Event>) {
    es == [] || (!es[0].Flush? && NoFlush(es[1..]))
  }

  /** Conservation: what has been played since the last flush, followed by the buffer, is
      what has been received since, for every mixture of frames and messages. */
  lemma {:induction false} Conserved(buffer: seq<real>, es: seq<Event>)
    requires NoFlush(es)
    ensures Emitted(buffer, es) + Run(buffer, es) == buffer + Received(es)
    decreases |es|
  {
    if es != [] {
      var t := Next(buffer, es[0]);
      var out := if es[0].Frame? then Played(buffer, es[0].size)[..Real(buffer, es[0].size)] else [];
      var got := if es[0].Data? then es[0].samples else [];
      assert out + t == buffer + got;
      Conserved(t, es[1..]);
      Regroup(out, Emitted(t, es[1..]), Run(t, es[1..]), t, Received(es[1..]), buffer, got);
    }
  }

  lemma Regroup(out: seq<real>, e: seq<real>, r: seq<real>, t: seq<real>, d: seq<real>, b: seq<real>, got: seq<real>)
    requires e + r == t + d && out + t == b + got
    ensures (out + e) + r == b + (got + d)
  {
    assert (out + e) + r == out + (e + r);
    assert out + (t + d) == (out + t) + d;
    assert b + (got + d) == (b + got) + d;
  }

  /** Since the last flush: nothing of what was received before it is ever played. */
  lemma ConservedSinceFlush(buffer: seq<real>, es: seq<Event>)
    requires NoFlush(es)
    ensures Emitted(Next(buffer, Flush), es) + Run(Next(buffer, Flush), es) == Received(es)
  {
    Conserved([], es);
    assert [] + Received(es) == Received(es);
  }

  /** A frame is padded only on underflow: then everything received has been played, and
      the padding is silence after the last sample. */
  lemma PaddingOnlyOnUnderflow(buffer: seq<real>, size: nat)
    ensures Real(buffer, size) < size <==> |buffer| < size
    ensures Played(buffer, size)[Real(buffer, size)..] == Silence(size - Real(buffer, size))
    ensures Played(buffer, size)[..Real(buffer, size)] + Left(buffer, size) == buffer
    ensures Real(buffer, size) < size ==> Left(buffer, size) == []
  {
  }
}
