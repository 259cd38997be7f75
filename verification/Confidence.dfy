/** The sentinel's confidence over whole runs, in every arithmetic that rounds: bounds, and
    when a fresh agent can publish its first cue. */
module Confidence {
  import opened Common
  import opened SleepSentinel

  /** What is asked of a rounding: it keeps order, has the values 0 and 1, and rounding again
      changes nothing. */
  ghost predicate Rounds(ar: Arithmetic) {
    (forall x, y :: x <= y ==> ar.Round(x) <= ar.Round(y)) &&
    (forall x {:trigger ar.Round(ar.Round(x))} :: ar.Round(ar.Round(x)) == ar.Round(x)) &&
    ar.Round(0.0) == 0.0 && ar.Round(1.0) == 1.0
  }

  /** A confidence in [0, 1] that the arithmetic can hold. */
  ghost predicate Sound(ar: Arithmetic, c: real) {
    0.0 <= c <= 1.0 && ar.Round(c) == c
  }

  lemma ExactRounds()
    ensures Rounds(Exact)
  {
  }

  lemma Ordered(ar: Arithmetic, x: real, y: real)
    requires Rounds(ar) && x <= y
    ensures ar.Round(x) <= ar.Round(y)
  {
  }

  lemma NonNegative(ar: Arithmetic, x: real)
    requires Rounds(ar) && x >= 0.0
    ensures ar.Round(x) >= 0.0
  {
    Ordered(ar, 0.0, x);
  }

  lemma ClippedSound(ar: Arithmetic, x: real)
    requires Rounds(ar)
    ensures x >= 0.0 ==> Sound(ar, MinReal(1.0, ar.Round(x)))
    ensures x <= 1.0 ==> Sound(ar, MaxReal(0.0, ar.Round(x)))
  {
    if x >= 0.0 {
      NonNegative(ar, x);
    }
    if x <= 1.0 {
      Ordered(ar, x, 1.0);
    }
    assert ar.Round(ar.Round(x)) == ar.Round(x);
  }

  lemma RaisedGrows(ar: Arithmetic, c: real, step: real)
    requires Rounds(ar) && Sound(ar, c) && step >= 0.0
    ensures Sound(ar, Raised(ar, c, step)) && Raised(ar, c, step) >= c
  {
    NonNegative(ar, step);
    ClippedSound(ar, c + ar.Round(step));
    Ordered(ar, c, c + ar.Round(step));
  }

  lemma LoweredShrinks(ar: Arithmetic, c: real, step: real)
    requires Rounds(ar) && Sound(ar, c) && step >= 0.0
    ensures Sound(ar, Lowered(ar, c, step)) && Lowered(ar, c, step) <= c
  {
    NonNegative(ar, step);
    ClippedSound(ar, c - ar.Round(step));
    Ordered(ar, c - ar.Round(step), c);
  }

  lemma RaisedMonotone(ar: Arithmetic, c: real, d: real, step: real)
    requires Rounds(ar) && c <= d
    ensures Raised(ar, c, step) <= Raised(ar, d, step)
  {
    hide Rounds, Arithmetic.Round;
    Ordered(ar, c + ar.Round(step), d + ar.Round(step));
  }

  lemma RoundedProduct(ar: Arithmetic, x: real, y: real, u: real)
    requires Rounds(ar) && 0.0 <= x <= y && u >= 0.0
    ensures 0.0 <= ar.Round(Product(x, u)) <= ar.Round(Product(y, u))
  {
    hide Rounds, Arithmetic.Round, Product;
    ProductsInOrder(x, y, u);
    NonNegative(ar, Product(x, u));
    Ordered(ar, Product(x, u), Product(y, u));
  }

  lemma ProductsInOrder(x: real, y: real, u: real)
    requires 0.0 <= x <= y && u >= 0.0
    ensures 0.0 <= Product(x, u) <= Product(y, u)
  {
    Scale(u, 0.0, x);
    Scale(u, x, y);
  }

  lemma BonusMonotone(ar: Arithmetic, i: nat, k: nat)
    requires Rounds(ar) && i <= k
    ensures 0.0 <= Bonus(ar, i) <= Bonus(ar, k)
  {
    hide Rounds, Arithmetic.Round, Product;
    var unit, step, top := ar.Round(0.01), ar.Round(0.02), ar.Round(0.4);
    NonNegative(ar, 0.01);
    NonNegative(ar, 0.02);
    NonNegative(ar, 0.4);
    RoundedProduct(ar, i as real, k as real, step);
    var p, q := MinReal(top, ar.Round(Product(i as real, step))), MinReal(top, ar.Round(Product(k as real, step)));
    RoundedProduct(ar, p, q, unit);
  }

  lemma AfterQuietMonotone(ar: Arithmetic, c: real, d: real, i: nat, k: nat)
    requires Rounds(ar) && c <= d && i <= k
    ensures AfterQuiet(ar, c, i) <= AfterQuiet(ar, d, k)
  {
    hide Rounds, Arithmetic.Round, Bonus;
    BonusMonotone(ar, i, k);
    var u, v := ar.Round(c + ar.Round(0.01)), ar.Round(d + ar.Round(0.01));
    Ordered(ar, c + ar.Round(0.01), d + ar.Round(0.01));
    Ordered(ar, u + Bonus(ar, i), v + Bonus(ar, k));
  }

  lemma AfterQuietGrows(ar: Arithmetic, c: real, i: nat)
    requires Rounds(ar) && Sound(ar, c)
    ensures Sound(ar, AfterQuiet(ar, c, i)) && AfterQuiet(ar, c, i) >= c
  {
    hide Rounds, Arithmetic.Round, Bonus;
    BonusMonotone(ar, i, i);
    NonNegative(ar, 0.01);
    var u := ar.Round(c + ar.Round(0.01));
    Ordered(ar, c, c + ar.Round(0.01));
    ClippedSound(ar, u + Bonus(ar, i));
    Ordered(ar, c, u + Bonus(ar, i));
  }

  /** The confidence after the `silence`-th chunk of a steady silence, without breathing. */
  function QuietSum(ar: Arithmetic, c: real, silence: nat): real {
    var d := AfterQuiet(ar, c, silence);
    if silence > 10 then Raised(ar, d, 0.02) else d
  }

  lemma QuietSumMonotone(ar: Arithmetic, c: real, d: real, i: nat, k: nat)
    requires Rounds(ar) && Sound(ar, c) && Sound(ar, d) && c <= d && i <= k
    ensures c <= QuietSum(ar, c, i) <= QuietSum(ar, d, k) && Sound(ar, QuietSum(ar, c, i))
  {
    hide Rounds, Arithmetic.Round, Sound, AfterQuiet, Raised;
    AfterQuietMonotone(ar, c, d, i, k);
    AfterQuietGrows(ar, c, i);
    AfterQuietGrows(ar, d, k);
    var p, q := AfterQuiet(ar, c, i), AfterQuiet(ar, d, k);
    RaisedMonotone(ar, p, q, 0.02);
    RaisedGrows(ar, p, 0.02);
    RaisedGrows(ar, q, 0.02);
  }

  /** The confidence of a fresh agent after `k` chunks of steady silence. */
  function Silent(ar: Arithmetic, k: nat): real {
    if k == 0 then 0.0 else QuietSum(ar, Silent(ar, k - 1), k)
  }

  lemma {:induction false} SilentGrows(ar: Arithmetic, k: nat, n: nat)
    requires Rounds(ar) && k <= n
    ensures Sound(ar, Silent(ar, k)) && Sound(ar, Silent(ar, n)) && Silent(ar, k) <= Silent(ar, n)
    decreases n
  {
    hide QuietSum, Rounds;
    if n == 0 {
      assert ar.Round(0.0) == 0.0 by { ZeroRounds(ar); }
    } else {
      SilentGrows(ar, if k < n then k else n - 1, n - 1);
      var c := Silent(ar, n - 1);
      QuietSumMonotone(ar, c, c, n, n);
    }
  }

  lemma SilentStep(ar: Arithmetic, k: nat)
    requires Rounds(ar)
    ensures Sound(ar, Silent(ar, k)) && Silent(ar, k) <= Silent(ar, k + 1) <= 1.0
    ensures Silent(ar, k + 1) == QuietSum(ar, Silent(ar, k), k + 1)
  {
    hide QuietSum, Rounds, Arithmetic.Round;
    SilentGrows(ar, k, k + 1);
  }

  lemma ZeroRounds(ar: Arithmetic)
    requires Rounds(ar)
    ensures ar.Round(0.0) == 0.0
  {
  }

  /** A chunk, without the cue it may publish. */
  function Heard(s: State, volume: real, variance: real, ar: Arithmetic): State {
    AfterVariance(AfterVolume(s, volume < 0.05, ar), volume < 0.05, volume, variance, ar)
  }

  lemma HeardSound(s: State, volume: real, variance: real, ar: Arithmetic)
    requires Rounds(ar) && Sound(ar, s.confidence)
    ensures Sound(ar, Heard(s, volume, variance, ar).confidence)
  {
    hide Sound, Rounds, Raised, Lowered, AfterQuiet, Arithmetic.Round;
    var c, silence := s.confidence, s.silence + 1;
    if volume < 0.05 {
      AfterQuietGrows(ar, c, silence);
      var d := AfterQuiet(ar, c, silence);
      RaisedGrows(ar, d, 0.02);
      RaisedGrows(ar, Raised(ar, d, 0.02), 0.02);
    } else {
      LoweredShrinks(ar, c, 0.05);
      LoweredShrinks(ar, Lowered(ar, c, 0.05), 0.1);
    }
  }

  /** Confidence stays in [0, 1] under every order of chunks, interruptions and settlements,
      in every arithmetic that rounds. */
  lemma {:induction false} ConfidenceInUnit(s: State, es: seq<Event>, ar: Arithmetic)
    requires Rounds(ar) && Possible(s, es, ar) && Sound(ar, s.confidence)
    ensures Sound(ar, Run(s, es, ar).confidence)
    decreases |es|
  {
    if es != [] {
      ConfidenceStep(s, es[0], ar);
      hide Next, Sound, Rounds;
      ConfidenceInUnit(Next(s, es[0], ar), es[1..], ar);
    }
  }

  lemma ConfidenceStep(s: State, e: Event, ar: Arithmetic)
    requires Rounds(ar) && Enabled(s, e) && Sound(ar, s.confidence)
    ensures Sound(ar, Next(s, e, ar).confidence)
  {
    match e {
      case Chunk(rms, variance, samples, now, breathing) =>
        HeardSound(Observe(s, rms, samples, breathing), rms, variance, ar);
        hide Sound, Rounds, AfterVolume, AfterVariance;
      case Interruption => LoweredShrinks(ar, s.confidence, 0.3);
      case Settled(_, _) =>
        NonNegative(ar, 0.8);
        Ordered(ar, 0.8, 1.0);
        assert ar.Round(ar.Round(0.8)) == ar.Round(0.8);
    }
  }

  /** The most that the k-th chunk of a silent streak can add before breathing is analysed. */
  function Gain(k: nat): real {
    0.01 + MinReal(0.4, k as real * 0.02) * 0.01 + if k > 10 then 0.02 else 0.0
  }

  /** The most that k chunks can add to the confidence of a fresh agent. */
  function Ceiling(k: nat): real {
    if k == 0 then 0.0 else Ceiling(k - 1) + Gain(k)
  }

  lemma CeilingValues()
    ensures Ceiling(20) == 0.442 && Ceiling(21) == 0.476
    ensures Ceiling(31) == 0.816 && Ceiling(32) == 0.85 && Ceiling(33) == 0.884
  {
    assert Ceiling(8) == 0.0872;
    assert Ceiling(16) == 0.3072;
    assert Ceiling(24) == 0.578;
  }

  lemma {:induction false} CeilingGrows(k: nat, m: nat)
    requires k <= m
    ensures 0.0 <= Ceiling(k) <= Ceiling(m)
    decreases m
  {
    if k < m {
      CeilingGrows(k, m - 1);
    } else if k > 0 {
      CeilingGrows(k - 1, m - 1);
    }
  }

  /** What k chunks leave behind in an agent that has published nothing. */
  ghost predicate YoungAfter(s: State, k: nat, ar: Arithmetic) {
    s.silence <= k && Sound(ar, s.confidence) && s.confidence <= Silent(ar, k) &&
    |s.envelope| <= k && !s.breathing && s.pending == [] && s.cues == []
  }

  lemma HeardQuiet(s: State, volume: real, variance: real, ar: Arithmetic)
    requires volume < 0.05
    ensures
      var silence := s.silence + 1;
      var p := if variance < 0.01 then QuietSum(ar, s.confidence, silence) else AfterQuiet(ar, s.confidence, silence);
      var t := Heard(s, volume, variance, ar);
      t.silence == silence && t.confidence == if s.breathing && silence > 20 then Raised(ar, p, 0.02) else p
  {
    hide Raised, AfterQuiet;
  }

  lemma HeardLoud(s: State, volume: real, variance: real, ar: Arithmetic)
    requires volume >= 0.05
    ensures
      var p := Lowered(ar, s.confidence, 0.05);
      Heard(s, volume, variance, ar).confidence in [p, Lowered(ar, p, 0.1)]
  {
    hide Lowered;
  }

  lemma AtMostSum(ar: Arithmetic, c: real, silence: nat)
    requires Rounds(ar) && Sound(ar, c)
    ensures AfterQuiet(ar, c, silence) <= QuietSum(ar, c, silence)
  {
    hide Rounds, Sound, Raised, AfterQuiet, Arithmetic.Round;
    AfterQuietGrows(ar, c, silence);
    RaisedGrows(ar, AfterQuiet(ar, c, silence), 0.02);
  }

  /** No chunk raises the confidence more than the next one of an unbroken silence would. */
  lemma HeardAtMostSilent(s: State, volume: real, variance: real, k: nat, ar: Arithmetic)
    requires Rounds(ar) && Sound(ar, s.confidence) && s.confidence <= Silent(ar, k)
    requires s.silence <= k && !s.breathing
    ensures Heard(s, volume, variance, ar).confidence <= Silent(ar, k + 1)
  {
    hide Sound, Rounds, Raised, Lowered, AfterQuiet, QuietSum, Silent, Heard, Arithmetic.Round;
    SilentStep(ar, k);
    var c, silence := s.confidence, s.silence + 1;
    if volume < 0.05 {
      HeardQuiet(s, volume, variance, ar);
      AtMostSum(ar, c, silence);
      QuietSumMonotone(ar, c, Silent(ar, k), silence, k + 1);
    } else {
      HeardLoud(s, volume, variance, ar);
      LoweredShrinks(ar, c, 0.05);
      LoweredShrinks(ar, Lowered(ar, c, 0.05), 0.1);
    }
  }

  lemma YoungStep(s: State, e: Event, k: nat, ar: Arithmetic)
    requires Rounds(ar) && YoungAfter(s, k, ar) && Enabled(s, e)
    requires e.Chunk? ==> k < 255 && Silent(ar, k + 1) <= ar.Round(0.85)
    ensures YoungAfter(Next(s, e, ar), if e.Chunk? then k + 1 else k, ar)
  {
    hide Sound, Rounds, Raised, Lowered, AfterQuiet, Silent, Arithmetic.Round;
    ConfidenceStep(s, e, ar);
    if e.Chunk? {
      var t := Observe(s, e.rms, e.samples, e.breathing);
      assert |t.envelope| <= k + 1 && !t.breathing && t.silence == s.silence && t.confidence == s.confidence;
      HeardAtMostSilent(t, e.rms, e.variance, k, ar);
      HeardKeeps(t, e.rms, e.variance, ar);
      hide AfterVolume, AfterVariance, Observe;
    } else {
      LoweredShrinks(ar, s.confidence, 0.3);
    }
  }

  lemma HeardKeeps(s: State, volume: real, variance: real, ar: Arithmetic)
    ensures
      var t := Heard(s, volume, variance, ar);
      t == s.(confidence := t.confidence, silence := t.silence) && t.silence <= s.silence + 1
  {
    hide Raised, Lowered, AfterQuiet;
  }

  lemma {:induction false} YoungRun(s: State, es: seq<Event>, k: nat, n: nat, ar: Arithmetic)
    requires Rounds(ar) && YoungAfter(s, k, ar) && Possible(s, es, ar)
    requires k + Chunks(es) <= n < 256 && Silent(ar, n) <= ar.Round(0.85)
    ensures YoungAfter(Run(s, es, ar), k + Chunks(es), ar)
    decreases |es|
  {
    hide Next, YoungAfter, Rounds, Silent, Sound, Arithmetic.Round;
    if es != [] {
      var k' := if es[0].Chunk? then k + 1 else k;
      if es[0].Chunk? {
        SilentGrows(ar, k', n);
      }
      YoungStep(s, es[0], k, ar);
      YoungRun(Next(s, es[0], ar), es[1..], k', n, ar);
    }
  }

  lemma FreshIsYoung(ar: Arithmetic)
    requires Rounds(ar)
    ensures YoungAfter(FRESH, 0, ar)
  {
  }

  /** In any run of at most n chunks, as long as n chunks of silence do not get there, a
      fresh agent publishes no cue, whatever interruptions come between, and is no more
      confident than after that silence. */
  lemma NoCueWithin(es: seq<Event>, n: nat, ar: Arithmetic)
    requires Rounds(ar) && Possible(FRESH, es, ar) && Chunks(es) <= n < 256
    requires Silent(ar, n) <= ar.Round(0.85)
    ensures Run(FRESH, es, ar).cues == [] && Run(FRESH, es, ar).confidence <= Silent(ar, n)
  {
    hide Rounds, Arithmetic.Round;
    FreshIsYoung(ar);
    YoungRun(FRESH, es, 0, n, ar);
    SilentGrows(ar, Chunks(es), n);
  }

  /** In real numbers silence adds up to the ceiling. */
  lemma {:induction false} SilentIsCeiling(k: nat)
    requires k <= 33
    ensures Silent(Exact, k) == Ceiling(k)
  {
    if k > 0 {
      SilentIsCeiling(k - 1);
      CeilingValues();
      CeilingGrows(k - 1, k);
      CeilingGrows(k, 33);
    }
  }

  /** In its first 31 chunks a fresh agent publishes no cue in real arithmetic, and its
      confidence stays 0.034 below the threshold. Breathing cannot be analysed before 256
      envelope samples. */
  lemma NoCueIn31Chunks(es: seq<Event>)
    requires Possible(FRESH, es) && Chunks(es) <= 31
    ensures Run(FRESH, es).cues == [] && Run(FRESH, es).confidence <= 0.816
  {
    hide Rounds, Silent, Ceiling, Possible, Run;
    ExactRounds();
    SilentIsCeiling(31);
    CeilingValues();
    NoCueWithin(es, 31, Exact);
  }

  /** In exact reals the 32nd chunk stays silent too, but only because 0.85 is not above
      0.85: a sum that rounds up publishes here. */
  lemma ExactNoCueIn32Chunks(es: seq<Event>)
    requires Possible(FRESH, es) && Chunks(es) <= 32
    ensures Run(FRESH, es).cues == []
  {
    hide Rounds, Silent, Ceiling, Possible, Run;
    ExactRounds();
    SilentIsCeiling(32);
    CeilingValues();
    NoCueWithin(es, 32, Exact);
  }

  /** A quiet chunk leaves at least the confidence of the next chunk of a silence. */
  lemma QuietAtLeastSilent(s: State, k: nat, now: int, ar: Arithmetic)
    requires Rounds(ar) && Sound(ar, s.confidence) && s.silence >= k && s.confidence >= Silent(ar, k)
    ensures
      var t := Next(s, Quiet(now), ar);
      t.silence >= k + 1 && t.confidence >= Silent(ar, k + 1) && t.confidence >= s.confidence &&
      t.cues == if CueDue(t, now, ar) then s.cues + [now] else s.cues
  {
    hide Sound, Rounds, Raised, Lowered, AfterQuiet, QuietSum, Silent, Heard, Observe, Arithmetic.Round;
    SilentStep(ar, k);
    var c, silence := s.confidence, s.silence + 1;
    QuietSumMonotone(ar, Silent(ar, k), c, k + 1, silence);
    QuietSumMonotone(ar, c, c, silence, silence);
    RaisedGrows(ar, QuietSum(ar, c, silence), 0.02);
    ObserveKeeps(s, 0.0, 320, false);
    var t := Observe(s, 0.0, 320, false);
    HeardQuiet(t, 0.0, 0.0, ar);
    HeardKeeps(t, 0.0, 0.0, ar);
    NextIsHeard(s, Quiet(now), ar);
  }

  /** A chunk is heard, and then publishes or not. */
  lemma NextIsHeard(s: State, e: Event, ar: Arithmetic)
    requires e.Chunk?
    ensures
      var t := Heard(Observe(s, e.rms, e.samples, e.breathing), e.rms, e.variance, ar);
      Next(s, e, ar) == if CueDue(t, e.now, ar) then t.(pending := t.pending + [e.now], cues := t.cues + [e.now]) else t
  {
    hide AfterVolume, AfterVariance, Observe;
  }

  lemma ObserveKeeps(s: State, rms: real, samples: nat, breathing: bool)
    ensures
      var t := Observe(s, rms, samples, breathing);
      t.confidence == s.confidence && t.silence == s.silence && t.lastCueAt == s.lastCueAt &&
      t.pending == s.pending && t.cues == s.cues
  {
  }

  /** From a state at least as far as k chunks of silence, if n chunks of silence exceed the
      threshold, n - k quiet chunks at a time the stamp allows are enough for a cue. */
  lemma {:induction false} SilenceRepeats(s: State, k: nat, n: nat, now: int, ar: Arithmetic)
      returns (m: nat, t: State)
    requires Rounds(ar) && Sound(ar, s.confidence) && s.silence >= k && s.confidence >= Silent(ar, k)
    requires now - s.lastCueAt > CUE_COOLDOWN_MS && Silent(ar, n) > ar.Round(0.85) && k < n
    ensures m <= n - k && Leads(s, QuietChunks(m, now), t, ar) && t.cues == s.cues + [now]
    decreases n - k
  {
    hide Next, Sound, Rounds, Silent, Leads, QuietChunks, Arithmetic.Round;
    QuietAtLeastSilent(s, k, now, ar);
    ConfidenceStep(s, Quiet(now), ar);
    ChunkCues(s, Quiet(now), ar);
    var next := Next(s, Quiet(now), ar);
    if next.cues == s.cues {
      assert !CueDue(next, now, ar);
      m, t := SilenceRepeats(next, k + 1, n, now, ar);
      LeadsFirst(s, Quiet(now), QuietChunks(m, now), t, ar);
      OneQuietMore(m, now);
      m := m + 1;
    } else {
      m, t := 1, next;
      LeadsOne(s, Quiet(now), ar);
      OneQuietMore(0, now);
    }
  }

  lemma OneQuietMore(m: nat, now: int)
    ensures QuietChunks(m + 1, now) == [Quiet(now)] + QuietChunks(m, now)
    ensures m == 0 ==> QuietChunks(m + 1, now) == [Quiet(now)]
  {
  }

  lemma {:induction false} CountQuiet(n: nat, now: int)
    ensures Chunks(QuietChunks(n, now)) == n
  {
    if n > 0 {
      CountQuiet(n - 1, now);
      assert QuietChunks(n, now)[1..] == QuietChunks(n - 1, now);
    }
  }

  /** A run of a fresh agent, of at most `n` chunks, that publishes. */
  ghost predicate PublishesWithin(es: seq<Event>, n: nat, ar: Arithmetic) {
    Possible(FRESH, es, ar) && Chunks(es) <= n && Run(FRESH, es, ar).cues != []
  }

  /** In every arithmetic that rounds, some run of at most n chunks publishes exactly when n
      chunks of steady silence exceed the rounded threshold. */
  lemma FirstCueIff(n: nat, ar: Arithmetic)
    requires Rounds(ar) && n < 256
    ensures (exists es :: PublishesWithin(es, n, ar)) <==> Silent(ar, n) > ar.Round(0.85)
  {
    if Silent(ar, n) > ar.Round(0.85) {
      NonNegative(ar, 0.85);
      assert n > 0;
      var now := CUE_COOLDOWN_MS + 1;
      FreshIsYoung(ar);
      var m, t := SilenceRepeats(FRESH, 0, n, now, ar);
      CountQuiet(m, now);
      assert PublishesWithin(QuietChunks(m, now), n, ar);
    } else {
      forall es | PublishesWithin(es, n, ar) ensures false {
        NoCueWithin(es, n, ar);
      }
    }
  }

  /** `k` quiet chunks after a state with confidence `base` and `e` envelope samples. */
  ghost predicate Streak(s: State, base: real, e: nat, k: nat) {
    s.lastCueAt == 0 && !s.breathing && s.cues == s.pending == [] && |s.envelope| <= e + k &&
    s.silence == k && s.confidence == base + Ceiling(k)
  }

  /** An agent right after its first cue. */
  ghost predicate JustPublished(s: State, now: int) {
    s.lastCueAt == 0 && !s.breathing && s.cues == s.pending == [now] && |s.envelope| <= 133 &&
    s.silence >= 20 && 0.85 < s.confidence <= 1.0
  }

  lemma StreakStep(s: State, base: real, e: nat, k: nat, now: int)
    requires Streak(s, base, e, k) && base >= 0.0 && e <= 100 && k <= 32
    ensures base + Ceiling(k + 1) <= 0.85 ==> Streak(Next(s, Quiet(now)), base, e, k + 1)
    ensures k >= 20 && 0.85 < base + Ceiling(k + 1) <= 1.0 && now > CUE_COOLDOWN_MS ==>
      JustPublished(Next(s, Quiet(now)), now)
  {
    CeilingGrows(0, k);
    CeilingGrows(k, k + 1);
  }

  lemma {:induction false} QuietStreak(s: State, base: real, e: nat, k: nat, n: nat, now: int) returns (t: State)
    requires Streak(s, base, e, k) && base >= 0.0 && e <= 100 && k + n <= 32 && base + Ceiling(k + n) <= 0.85
    ensures Leads(s, QuietChunks(n, now), t) && Streak(t, base, e, k + n)
    decreases n
  {
    if n == 0 {
      t := s;
      assert QuietChunks(0, now) == [];
    } else {
      CeilingGrows(k + 1, k + n);
      StreakStep(s, base, e, k, now);
      assert QuietChunks(n, now) == [Quiet(now)] + QuietChunks(n - 1, now);
      hide Next, Streak, Leads, QuietChunks, Ceiling;
      t := QuietStreak(Next(s, Quiet(now)), base, e, k + 1, n - 1, now);
      LeadsFirst(s, Quiet(now), QuietChunks(n - 1, now), t);
    }
  }

  /** The bound is sharp: 32 quiet chunks bring a fresh agent to the threshold itself. */
  lemma ThresholdAt32(now: int) returns (s: State)
    ensures Leads(FRESH, QuietChunks(32, now), s) && s.confidence == 0.85
  {
    hide Leads, QuietChunks;
    CeilingValues();
    s := QuietStreak(FRESH, 0.0, 0, 0, 32, now);
  }

  /** In exact reals silence alone makes the 33rd chunk publish. */
  lemma ExactCueAtChunk33(now: int) returns (s: State)
    requires now > CUE_COOLDOWN_MS
    ensures Leads(FRESH, QuietChunks(32, now) + [Quiet(now)], s) && s.cues == [now]
  {
    hide Leads, QuietChunks;
    CeilingValues();
    var t := QuietStreak(FRESH, 0.0, 0, 0, 32, now);
    s := StreakCue(FRESH, QuietChunks(32, now), t, 0.0, 0, 32, now);
  }

  lemma StreakCue(s: State, es: seq<Event>, t: State, base: real, e: nat, k: nat, now: int) returns (u: State)
    requires Leads(s, es, t) && Streak(t, base, e, k) && now > CUE_COOLDOWN_MS
    requires base >= 0.0 && e <= 100 && 20 <= k <= 32 && 0.85 < base + Ceiling(k + 1) <= 1.0
    ensures Leads(s, es + [Quiet(now)], u) && JustPublished(u, now)
  {
    StreakStep(t, base, e, k, now);
    u := Next(t, Quiet(now));
    LeadsOne(t, Quiet(now));
    hide Next, Streak, Leads, JustPublished, Ceiling;
    LeadsOn(s, es, t, [Quiet(now)], u);
  }
}
