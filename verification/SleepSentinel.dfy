/** The sleep sentinel's confidence accumulator, envelope window and cue cooldown
    (SleepSentinelAgent, lines 43-167). Loudness and variance of a chunk are inputs;
    a published cue stays pending until its publish settles. The arithmetic of the
    confidence is a parameter: exact by default, or with every result rounded. */
module SleepSentinel {
  import opened Breathing
  import opened Common
  import opened Fourier

  const CUE_COOLDOWN_MS := 30_000
  const ENVELOPE_WINDOW_SECONDS := 16.0

  /** How the confidence is computed: in real numbers, or rounding every constant and result. */
  datatype Arithmetic = Exact | Rounding(rnd: real -> real) {
    function Round(x: real): real {
      match this
      case Exact => x
      case Rounding(rnd) => rnd(x)
    }
  }

  datatype Event =
    /** `breathing` is the verdict the breathing analysis gives if this chunk triggers it. */
    | Chunk(rms: real, variance: real, samples: nat, now: int, breathing: bool)
    | Interruption
    /** The publish of the `index`-th pending cue resolves, or rejects. */
    | Settled(index: nat, resolved: bool)

  datatype State = State(
    confidence: real,
    silence: nat,
    lastCueAt: int,
    envelope: seq<real>,
    sampleRateHz: real,
    sinceAnalysis: nat,
    breathing: bool,
    pending: seq<int>,  // `now` of each cue whose publish has not settled
    cues: seq<int>      // `now` of every cue published so far
  )

  const FRESH := State(0.0, 0, 0, [], 50.0, 0, false, [], [])

  /** Chunks arrive at 16 kHz; an empty chunk keeps the last rate (lines 97-99). */
  function EnvelopeRate(s: State, samples: nat): real {
    if samples > 0 then 16_000.0 / samples as real else s.sampleRateHz
  }

  function MaxSamples(rate: real): nat {
    var n := (rate * ENVELOPE_WINDOW_SECONDS).Floor;
    if n < 64 then 64 else n
  }

  function AnalysisInterval(rate: real): nat {
    var n := rate.Floor;
    if n < 16 then 16 else n
  }

  /** observeEnvelope (lines 97-113). */
  function Observe(s: State, rms: real, samples: nat, breathing: bool): State {
    var rate := EnvelopeRate(s, samples);
    var window := LastN(s.envelope + [rms], MaxSamples(rate));
    if AnalysisDue(window, s.sinceAnalysis + 1, rate) then
      s.(envelope := window, sampleRateHz := rate, sinceAnalysis := 0, breathing := breathing)
    else
      s.(envelope := window, sampleRateHz := rate, sinceAnalysis := s.sinceAnalysis + 1)
  }

  predicate AnalysisDue(window: seq<real>, since: nat, rate: real) {
    |window| >= 256 && since >= AnalysisInterval(rate)
  }

  function Raised(ar: Arithmetic, c: real, step: real): real {
    MinReal(1.0, ar.Round(c + ar.Round(step)))
  }

  function Lowered(ar: Arithmetic, c: real, step: real): real {
    MaxReal(0.0, ar.Round(c - ar.Round(step)))
  }

  function Product(x: real, y: real): real { x * y }

  /** Line 121: what a silence of this length adds to a quiet chunk's 0.01. */
  function Bonus(ar: Arithmetic, silence: nat): real {
    var share := MinReal(ar.Round(0.4), ar.Round(Product(silence as real, ar.Round(0.02))));
    ar.Round(Product(share, ar.Round(0.01)))
  }

  /** Lines 120-122. */
  function AfterQuiet(ar: Arithmetic, c: real, silence: nat): real {
    MinReal(1.0, ar.Round(ar.Round(c + ar.Round(0.01)) + Bonus(ar, silence)))
  }

  /** Lines 119-126: quiet raises confidence, noise lowers it. */
  function AfterVolume(s: State, quiet: bool, ar: Arithmetic): State {
    if quiet then s.(silence := s.silence + 1, confidence := AfterQuiet(ar, s.confidence, s.silence + 1))
    else s.(silence := 0, confidence := Lowered(ar, s.confidence, 0.05))
  }

  /** Lines 128-137: steadiness, movement and breathing. */
  function AfterVariance(s: State, quiet: bool, volume: real, variance: real, ar: Arithmetic): State {
    var steady := variance < 0.01;
    var c :=
      if quiet && steady && s.silence > 10 then Raised(ar, s.confidence, 0.02)
      else if !steady && volume > 0.1 then Lowered(ar, s.confidence, 0.1)
      else s.confidence;
    s.(confidence := if quiet && s.breathing && s.silence > 20 then Raised(ar, c, 0.02) else c)
  }

  predicate CueDue(s: State, now: int, ar: Arithmetic) {
    s.confidence > ar.Round(0.85) && now - s.lastCueAt > CUE_COOLDOWN_MS
  }

  /** updateConfidenceFromAudio up to its await (lines 115-162). */
  function Update(s: State, volume: real, variance: real, now: int, ar: Arithmetic): State {
    var quiet := volume < 0.05;
    var t := AfterVariance(AfterVolume(s, quiet, ar), quiet, volume, variance, ar);
    if CueDue(t, now, ar) then t.(pending := t.pending + [now], cues := t.cues + [now]) else t
  }

  predicate Enabled(s: State, e: Event) {
    e.Settled? ==> e.index < |s.pending|
  }

  function Next(s: State, e: Event, ar: Arithmetic := Exact): State
    requires Enabled(s, e)
  {
    match e
    case Chunk(rms, variance, samples, now, breathing) =>
      Update(Observe(s, rms, samples, breathing), rms, variance, now, ar)
    case Interruption => s.(silence := 0, confidence := Lowered(ar, s.confidence, 0.3))
    case Settled(i, resolved) =>
      var t := s.(pending := s.pending[..i] + s.pending[i + 1..]);
      if resolved then t.(confidence := ar.Round(0.8), lastCueAt := s.pending[i]) else t
  }

  ghost predicate Possible(s: State, es: seq<Event>, ar: Arithmetic := Exact)
    decreases |es|
  {
    es == [] || (Enabled(s, es[0]) && Possible(Next(s, es[0], ar), es[1..], ar))
  }

  ghost function Run(s: State, es: seq<Event>, ar: Arithmetic := Exact): State
    requires Possible(s, es, ar)
    decreases |es|
  {
    if es == [] then s else Run(Next(s, es[0], ar), es[1..], ar)
  }

  /** With chunks of one size the full window has MaxSamples entries, and the breathing
      analysis can use it exactly for chunks of at most 500 or of 997 to 1000 samples: in
      between it comes out between 257 and 511 long, and above 1000 it never reaches 256. */
  lemma SteadyWindowIff(s: State, rms: real, samples: nat, breathing: bool)
    requires samples > 0 && |s.envelope| >= MaxSamples(EnvelopeRate(s, samples))
    ensures
      var length := |Observe(s, rms, samples, breathing).envelope|;
      (WindowAvailable(length) <==> samples <= 500 || 997 <= samples <= 1000) &&
      (500 < samples < 997 ==> 257 <= length <= 511) && (samples > 1000 ==> length < 256)
  {
    var rate := 16_000.0 / samples as real;
    var n := (rate * 16.0).Floor;
    assert rate * 16.0 * samples as real == 256_000.0;
    FloorQuotient(rate * 16.0, samples);
  }

  lemma FloorQuotient(q: real, d: nat)
    requires d > 0 && q * d as real == 256_000.0
    ensures q >= 512.0 <==> d <= 500
    ensures 256.0 <= q < 257.0 <==> 997 <= d <= 1000
  {
    var x := d as real;
    if d <= 500 && q < 512.0 {
      ProductBelow(q, x, 512.0, 500.0);
    }
    if d > 500 && q >= 512.0 {
      ProductBelow(512.0, 500.0, q, x);
    }
    if d <= 1000 && q < 256.0 {
      ProductBelow(q, x, 256.0, 1000.0);
    }
    if d > 1000 && q >= 256.0 {
      ProductBelow(256.0, 1000.0, q, x);
    }
    if d >= 997 && q >= 257.0 {
      ProductBelow(256.9, 997.0, q, x);
    }
    if d < 997 && q < 257.0 {
      ProductBelow(q, x, 257.0, 996.0);
    }
  }

  lemma ProductBelow(a: real, b: real, c: real, d: real)
    requires 0.0 <= a < c && 0.0 < b <= d
    ensures a * b < c * d
  {
    ProductPositive(c - a, b);
    Scale(c, b, d);
  }

  function Chunks(es: seq<Event>): (n: nat)
    ensures n <= |es|
  {
    if es == [] then 0 else (if es[0].Chunk? then 1 else 0) + Chunks(es[1..])
  }

  function Quiet(now: int): Event { Chunk(0.0, 0.0, 320, now, false) }

  function QuietChunks(n: nat, now: int): (es: seq<Event>)
    ensures |es| == n && forall e :: e in es ==> e == Quiet(now)
  {
    if n == 0 then [] else [Quiet(now)] + QuietChunks(n - 1, now)
  }

  /** The events `es` can happen in `s` and leave `t` behind. */
  ghost predicate Leads(s: State, es: seq<Event>, t: State, ar: Arithmetic := Exact) {
    Possible(s, es, ar) && Run(s, es, ar) == t
  }

  lemma LeadsOne(s: State, e: Event, ar: Arithmetic := Exact)
    requires Enabled(s, e)
    ensures Leads(s, [e], Next(s, e, ar), ar)
  {
    hide Next;
    var t := Next(s, e, ar);
    assert Leads(t, [], t, ar) && [e] + [] == [e];
    LeadsFirst(s, e, [], t, ar);
  }

  lemma LeadsFirst(s: State, e: Event, es: seq<Event>, t: State, ar: Arithmetic := Exact)
    requires Enabled(s, e) && Leads(Next(s, e, ar), es, t, ar)
    ensures Leads(s, [e] + es, t, ar)
  {
    hide Next;
    assert ([e] + es)[1..] == es;
  }

  lemma LeadsRest(s: State, es: seq<Event>, t: State, ar: Arithmetic := Exact)
    requires Leads(s, es, t, ar) && es != []
    ensures Enabled(s, es[0]) && Leads(Next(s, es[0], ar), es[1..], t, ar)
  {
    hide Next, Enabled;
  }

  lemma LeadsNothing(s: State, t: State, ar: Arithmetic := Exact)
    requires Leads(s, [], t, ar)
    ensures s == t
  {
    hide Next, Enabled;
  }

  lemma {:induction false} LeadsOn(
      s: State, a: seq<Event>, t: State, b: seq<Event>, u: State, ar: Arithmetic := Exact)
    requires Leads(s, a, t, ar) && Leads(t, b, u, ar)
    ensures Leads(s, a + b, u, ar)
    decreases |a|
  {
    hide Next, Leads, Enabled;
    if a == [] {
      LeadsNothing(s, t, ar);
      assert a + b == b;
    } else {
      LeadsRest(s, a, t, ar);
      LeadsOn(Next(s, a[0], ar), a[1..], t, b, u, ar);
      assert a + b == [a[0]] + (a[1..] + b);
      LeadsFirst(s, a[0], a[1..] + b, u, ar);
    }
  }

  /** A chunk leaves the cooldown stamp alone and publishes only when it is old enough. */
  lemma ChunkCues(s: State, e: Event, ar: Arithmetic)
    requires e.Chunk?
    ensures
      var t := Next(s, e, ar);
      t.lastCueAt == s.lastCueAt && (
        (t.cues == s.cues && t.pending == s.pending) ||
        (t.cues == s.cues + [e.now] && t.pending == s.pending + [e.now] && e.now - s.lastCueAt > CUE_COOLDOWN_MS))
  {
    hide Raised, Lowered, AfterQuiet;
  }

  lemma {:induction false} CuesGrow(s: State, es: seq<Event>, ar: Arithmetic)
    requires Possible(s, es, ar)
    ensures s.cues <= Run(s, es, ar).cues
    decreases |es|
  {
    if es != [] {
      if es[0].Chunk? {
        ChunkCues(s, es[0], ar);
      }
      assert s.cues <= Next(s, es[0], ar).cues;
      hide Next;
      CuesGrow(Next(s, es[0], ar), es[1..], ar);
    }
  }

  /** 1000 / dtMs with dtMs = (samples / 16000) * 1000. */
  lemma ChunkRate(samples: nat)
    requires samples > 0
    ensures 1000.0 / (samples as real / 16.0) == 16_000.0 / samples as real > 0.0
  {
  }

  class SleepSentinelAgent {
    var confidence: real
    var silenceCounter: nat
    var lastCueAtMs: int
    var envelopeRms: seq<real>
    var lastEnvelopeSampleRateHz: real
    var latestBreathing: Cadence  // null in the source until the first analysis; Unstable here
    var envelopeSamplesSinceLastAnalysis: nat
    var pending: seq<int>         // continuations waiting on eventBus.publish
    ghost var cues: seq<int>
    const hann: nat -> real
    const twiddles: Twiddles
    const arithmetic: Arithmetic

    ghost predicate Valid()
      reads this
    {
      lastEnvelopeSampleRateHz > 0.0 && ValidTwiddles(twiddles, 9)
    }

    ghost function Abstract(): State
      reads this
    {
      State(confidence, silenceCounter, lastCueAtMs, envelopeRms, lastEnvelopeSampleRateHz,
            envelopeSamplesSinceLastAnalysis, latestBreathing.Stable?, pending, cues)
    }

    /** What the processor stores for a computed or written number. */
    function R(x: real): real { arithmetic.Round(x) }

    constructor (hann: nat -> real, twiddles: Twiddles, arithmetic: Arithmetic)
      requires ValidTwiddles(twiddles, 9)
      ensures Valid() && Abstract() == FRESH && this.arithmetic == arithmetic
    {
      confidence, silenceCounter, lastCueAtMs := 0.0, 0, 0;
      envelopeRms, lastEnvelopeSampleRateHz := [], 50.0;
      latestBreathing, envelopeSamplesSinceLastAnalysis := Unstable, 0;
      pending, cues := [], [];
      this.hann, this.twiddles, this.arithmetic := hann, twiddles, arithmetic;
    }

    /** onAudio: one chunk from the live session (lines 49-58). */
    method OnAudio(rms: real, variance: real, samples: nat, now: int)
      requires Valid()
      modifies this
      ensures Valid()
      ensures Abstract() ==
        Next(old(Abstract()), Chunk(rms, variance, samples, now, latestBreathing.Stable?), arithmetic)
      ensures
        var since := old(envelopeSamplesSinceLastAnalysis) + 1;
        if |envelopeRms| >= 256 && since >= 16 && since >= lastEnvelopeSampleRateHz.Floor
        then IsVerdictOn(latestBreathing, envelopeRms, lastEnvelopeSampleRateHz, hann, twiddles)
        else latestBreathing == old(latestBreathing)
    {
      hide IsVerdictOn;
      ObserveEnvelope(rms, samples);
      UpdateConfidenceFromAudio(rms, variance, now);
    }

    /** onInterruption (lines 60-63). */
    method OnInterruption()
      requires Valid()
      modifies this
      ensures Valid() && Abstract() == Next(old(Abstract()), Interruption, arithmetic)
    {
      silenceCounter := 0;
      confidence := MaxReal(0.0, R(confidence - R(0.3)));
    }

    /** The code after the await (lines 163-165) runs only when the publish resolves. */
    method OnPublishSettled(index: nat, resolved: bool)
      requires Valid() && index < |pending|
      modifies this
      ensures Valid() && Abstract() == Next(old(Abstract()), Settled(index, resolved), arithmetic)
    {
      if resolved {
        confidence := R(0.8);
        lastCueAtMs := pending[index];
      }
      pending := pending[..index] + pending[index + 1..];
    }

    /** observeEnvelope (lines 97-113). */
    method ObserveEnvelope(rms: real, samples: nat)
      requires Valid()
      modifies this
      ensures Valid()
      ensures Abstract() == Observe(old(Abstract()), rms, samples, latestBreathing.Stable?)
      ensures
        var since := old(envelopeSamplesSinceLastAnalysis) + 1;
        if |envelopeRms| >= 256 && since >= 16 && since >= lastEnvelopeSampleRateHz.Floor
        then IsVerdictOn(latestBreathing, envelopeRms, lastEnvelopeSampleRateHz, hann, twiddles)
        else latestBreathing == old(latestBreathing)
    {
      hide IsVerdictOn;
      var dtMs := samples as real / 16.0;
      var sampleRateHz := if samples > 0 then 1000.0 / dtMs else lastEnvelopeSampleRateHz;
      if samples > 0 {
        ChunkRate(samples);
      }
      lastEnvelopeSampleRateHz := sampleRateHz;
      envelopeRms := envelopeRms + [rms];
      envelopeSamplesSinceLastAnalysis := envelopeSamplesSinceLastAnalysis + 1;
      TrimEnvelope(MaxSamples(sampleRateHz));
      if AnalysisDue(envelopeRms, envelopeSamplesSinceLastAnalysis, sampleRateHz) {
        Analyze();
      }
    }

    /** Lines 105-107: shift until the window fits. */
    method TrimEnvelope(maxSamples: nat)
      modifies this`envelopeRms
      ensures envelopeRms == LastN(old(envelopeRms), maxSamples)
    {
      while |envelopeRms| > maxSamples
        invariant |envelopeRms| <= old(|envelopeRms|)
        invariant envelopeRms == old(envelopeRms)[old(|envelopeRms|) - |envelopeRms|..]
        invariant |envelopeRms| >= maxSamples || envelopeRms == old(envelopeRms)
      {
        envelopeRms := envelopeRms[1..];
      }
    }

    /** Lines 110-111: the verdict is read off the newest 512 samples of the window, off a
        window of exactly 256, and is otherwise withheld. */
    method Analyze()
      requires Valid()
      modifies this`envelopeSamplesSinceLastAnalysis, this`latestBreathing
      ensures Valid() && envelopeSamplesSinceLastAnalysis == 0
      ensures IsVerdictOn(latestBreathing, envelopeRms, lastEnvelopeSampleRateHz, hann, twiddles)
    {
      hide IsVerdictOn;
      envelopeSamplesSinceLastAnalysis := 0;
      latestBreathing := AnalyzeBreathingCadence(envelopeRms, lastEnvelopeSampleRateHz, hann, twiddles);
    }

    /** updateConfidenceFromAudio up to its await (lines 115-162). */
    method UpdateConfidenceFromAudio(volume: real, variance: real, now: int)
      requires Valid()
      modifies this`confidence, this`silenceCounter, this`pending, this`cues
      ensures Valid() && Abstract() == Update(old(Abstract()), volume, variance, now, arithmetic)
    {
      hide Product, Arithmetic.Round;
      var isQuiet := volume < 0.05;
      var isStable := variance < 0.01;
      if isQuiet {
        silenceCounter := silenceCounter + 1;
        var silenceBonus := MinReal(R(0.4), R(Product(silenceCounter as real, R(0.02))));
        confidence := MinReal(1.0, R(R(confidence + R(0.01)) + R(Product(silenceBonus, R(0.01)))));
      } else {
        silenceCounter := 0;
        confidence := MaxReal(0.0, R(confidence - R(0.05)));
      }
      assert isQuiet ==> confidence == AfterQuiet(arithmetic, old(confidence), silenceCounter);
      assert Abstract() == AfterVolume(old(Abstract()), isQuiet, arithmetic);
      if isQuiet && isStable && silenceCounter > 10 {
        confidence := MinReal(1.0, R(confidence + R(0.02)));
      } else if !isStable && volume > 0.1 {
        confidence := MaxReal(0.0, R(confidence - R(0.1)));
      }
      if isQuiet && latestBreathing.Stable? && silenceCounter > 20 {
        confidence := MinReal(1.0, R(confidence + R(0.02)));
      }
      assert Abstract() ==
        AfterVariance(AfterVolume(old(Abstract()), isQuiet, arithmetic), isQuiet, volume, variance, arithmetic);
      if confidence > R(0.85) && now - lastCueAtMs > CUE_COOLDOWN_MS {
        pending := pending + [now];
        cues := cues + [now];
      }
    }
  }
}
