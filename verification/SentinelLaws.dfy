/** What single chunks and interruptions do to the sentinel, in numbers, and how often its
    breathing analysis runs (SleepSentinelAgent, lines 60-63 and 97-162). */
module SentinelLaws {
  import opened Common
  import opened SleepSentinel

  /** 16000 / samples chunks make a second; an analysis waits for a second, but for no fewer
      than 16 chunks. */
  function ChunksBetween(samples: nat): nat
    requires samples > 0
  {
    if 16_000 / samples < 16 then 16 else 16_000 / samples
  }

  lemma RateFloor(samples: nat)
    requires samples > 0
    ensures (16_000.0 / samples as real).Floor == 16_000 / samples
  {
    FloorOfQuotient(16_000.0 / samples as real, 16_000, samples);
  }

  /** When a chunk is analysed: exactly if the window holds 256 entries and a second's worth
      of chunks, at least 16, have come since the last analysis. Then the count restarts and
      the new verdict is taken; otherwise the count goes up and the verdict stays. */
  lemma AnalysisIff(s: State, e: Event, ar: Arithmetic)
    requires e.Chunk? && e.samples > 0
    ensures
      var t := Next(s, e, ar);
      if |t.envelope| >= 256 && s.sinceAnalysis + 1 >= ChunksBetween(e.samples) then
        t.sinceAnalysis == 0 && t.breathing == e.breathing
      else t.sinceAnalysis == s.sinceAnalysis + 1 && t.breathing == s.breathing
  {
    RateFloor(e.samples);
    hide Raised, Lowered, AfterQuiet;
  }

  /** Chunks arrive at 16 kHz; one without samples keeps the last rate. */
  lemma RateAfterChunk(s: State, e: Event, ar: Arithmetic)
    requires e.Chunk?
    ensures
      var rate := Next(s, e, ar).sampleRateHz;
      if e.samples == 0 then rate == s.sampleRateHz else rate * e.samples as real == 16_000.0
  {
    hide Raised, Lowered, AfterQuiet;
  }

  /** The window after a chunk: sixteen seconds of chunks, at least 64, the newest last. */
  lemma WindowAfterChunk(s: State, e: Event, ar: Arithmetic)
    requires e.Chunk? && e.samples > 0
    ensures
      var t, all := Next(s, e, ar), s.envelope + [e.rms];
      var most := if 256_000 / e.samples < 64 then 64 else 256_000 / e.samples;
      t.envelope == if |all| <= most then all else all[|all| - most..]
  {
    WindowFloor(e.samples);
    hide Raised, Lowered, AfterQuiet;
  }

  lemma WindowFloor(samples: nat)
    requires samples > 0
    ensures (16_000.0 / samples as real * 16.0).Floor == 256_000 / samples
  {
    FloorOfQuotient(16_000.0 / samples as real * 16.0, 256_000, samples);
  }

  /** Chunks of one size. */
  ghost predicate Equal(es: seq<Event>, samples: nat) {
    forall e :: e in es ==> e.Chunk? && e.samples == samples
  }

  /** How many chunks of a run are analysed. */
  ghost function Analyses(s: State, es: seq<Event>, ar: Arithmetic): nat
    requires Possible(s, es, ar)
    decreases |es|
  {
    if es == [] then 0
    else
      var t := Next(s, es[0], ar);
      (if es[0].Chunk? && t.sinceAnalysis == 0 then 1 else 0) + Analyses(t, es[1..], ar)
  }

  /** On a window of 256 or more entries, chunks of one size are analysed exactly once in
      every ChunksBetween of them, from wherever the count stands. */
  lemma OneAnalysisInEach(s: State, es: seq<Event>, samples: nat, ar: Arithmetic)
    requires Possible(s, es, ar) && Equal(es, samples) && 0 < samples <= 1000
    requires |s.envelope| >= 256 && s.sinceAnalysis < ChunksBetween(samples) && |es| == ChunksBetween(samples)
    ensures Analyses(s, es, ar) == 1 && Run(s, es, ar).sinceAnalysis == s.sinceAnalysis
  {
    hide ChunksBetween;
    CountRun(s, es, samples, ar);
  }

  /** Fewer chunks than are still missing bring no analysis, and the next ones exactly one. */
  lemma {:induction false} CountRun(s: State, es: seq<Event>, samples: nat, ar: Arithmetic)
    requires Possible(s, es, ar) && Equal(es, samples) && 0 < samples <= 1000 && |s.envelope| >= 256
    requires s.sinceAnalysis < ChunksBetween(samples) && s.sinceAnalysis + |es| < 2 * ChunksBetween(samples)
    ensures
      var n, total := ChunksBetween(samples), s.sinceAnalysis + |es|;
      if total < n then Analyses(s, es, ar) == 0 && Run(s, es, ar).sinceAnalysis == total
      else Analyses(s, es, ar) == 1 && Run(s, es, ar).sinceAnalysis == total - n
    decreases |es|
  {
    if es != [] {
      hide Next, ChunksBetween;
      var e := es[0];
      assert e in es && forall f :: f in es[1..] ==> f in es;
      AnalysisIff(s, e, ar);
      WindowAfterChunk(s, e, ar);
      AtLeast256(samples);
      CountRun(Next(s, e, ar), es[1..], samples, ar);
    }
  }

  lemma AtLeast256(samples: nat)
    requires 0 < samples <= 1000
    ensures 256_000 / samples >= 256
  {
  }

  /** An interruption ends the silence and takes 0.3 off, down to zero; all else stays. */
  lemma InterruptionTakes(s: State)
    ensures
      var t := Next(s, Interruption);
      t == s.(silence := 0, confidence := t.confidence) &&
      t.confidence == if s.confidence >= 0.3 then s.confidence - 0.3 else 0.0
  {
  }

  /** A chunk that is not quiet ends the silence and takes 0.05 off, and 0.1 more if it is
      loud and restless, down to zero. */
  lemma NoiseTakes(s: State, e: Event)
    requires e.Chunk? && e.rms >= 0.05
    ensures
      var t, off := Next(s, e), if e.rms > 0.1 && e.variance >= 0.01 then 0.15 else 0.05;
      t.silence == 0 && t.confidence == if s.confidence >= off then s.confidence - off else 0.0
  {
    if s.confidence < 0.05 {
      assert Lowered(Exact, s.confidence, 0.05) == 0.0;
    }
  }

  /** A quiet chunk, the k-th of its silence, adds 0.01 and 0.0002 for each chunk of the
      silence so far, at most 20; if it is steady 0.02 more from the 11th on; and 0.02 more
      from the 21st on while breathing is stable. One is the most there can be. */
  lemma QuietAdds(s: State, e: Event)
    requires e.Chunk? && e.rms < 0.05 && s.confidence >= 0.0
    ensures
      var t, k := Next(s, e), s.silence + 1;
      var gain := 0.01 + 0.0002 * (if k < 20 then k else 20) as real +
        (if e.variance < 0.01 && k > 10 then 0.02 else 0.0) + (if t.breathing && k > 20 then 0.02 else 0.0);
      t.silence == k && t.confidence == if s.confidence + gain <= 1.0 then s.confidence + gain else 1.0
  {
    var k := s.silence + 1;
    QuietFirst(s.confidence, k);
    hide AfterQuiet;
  }

  lemma QuietFirst(c: real, k: nat)
    ensures
      var gain := 0.01 + 0.0002 * (if k < 20 then k else 20) as real;
      AfterQuiet(Exact, c, k) == if c + gain <= 1.0 then c + gain else 1.0
  {
    assert Product(k as real, 0.02) == k as real * 0.02;
  }

  /** When a chunk publishes: confidence above 0.85, and more than 30 seconds since the
      stamp. A resolved publish sets 0.8 and its own time. */
  lemma PublishesIff(s: State, e: Event)
    requires e.Chunk?
    ensures
      var t := Next(s, e);
      t.cues != s.cues <==> t.confidence > 0.85 && e.now - s.lastCueAt > 30_000
  {
    hide Raised, Lowered, AfterQuiet;
  }

  lemma SettlementStamps(s: State, i: nat, resolved: bool)
    requires i < |s.pending|
    ensures
      var t := Next(s, Settled(i, resolved));
      t.pending == s.pending[..i] + s.pending[i + 1..] &&
      if resolved then t.confidence == 0.8 && t.lastCueAt == s.pending[i]
      else t.confidence == s.confidence && t.lastCueAt == s.lastCueAt
  {
  }
}
