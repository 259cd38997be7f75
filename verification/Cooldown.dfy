/** The distance between cues: when the cooldown is kept, and the runs in which it is not. */
module Cooldown {
  import opened Common
  import opened SleepSentinel
  import opened Confidence

  /** A loud chunk between two silences, after which no chunk lands on the threshold itself. */
  function BrokenSilence(now: int): seq<Event> {
    QuietChunks(20, now) + [Chunk(0.05, 0.0, 320, now, false)] + QuietChunks(20, now)
  }

  /** The confidences on the way are 0.442, 0.392 and 0.834; the last chunk makes it 0.868,
      far enough above 0.85 for any rounding. */
  lemma FirstCue(now: int) returns (s: State)
    requires now > CUE_COOLDOWN_MS
    ensures Leads(FRESH, BrokenSilence(now) + [Quiet(now)], s) && JustPublished(s, now)
  {
    hide Leads, QuietChunks;
    CeilingValues();
    var loud := Chunk(0.05, 0.0, 320, now, false);
    var t := QuietStreak(FRESH, 0.0, 0, 0, 20, now);
    var u := Next(t, loud);
    assert Streak(u, 0.392, 21, 0);
    LeadsOne(t, loud);
    hide Next, Streak;
    LeadsOn(FRESH, QuietChunks(20, now), t, [loud], u);
    var v := QuietStreak(u, 0.392, 21, 0, 20, now);
    LeadsOn(FRESH, QuietChunks(20, now) + [loud], u, QuietChunks(20, now), v);
    s := StreakCue(FRESH, BrokenSilence(now), v, 0.392, 21, 20, now);
  }

  ghost predicate Spaced(cues: seq<int>) {
    forall i, j :: 0 <= i < j < |cues| ==> cues[j] - cues[i] > CUE_COOLDOWN_MS
  }

  /** Every publish resolves before the next chunk arrives. */
  ghost predicate SettlesPromptly(s: State, es: seq<Event>, ar: Arithmetic)
    requires Possible(s, es, ar)
    decreases |es|
  {
    es == [] || (
      (es[0].Chunk? ==> s.pending == []) &&
      (es[0].Settled? ==> es[0].resolved) &&
      SettlesPromptly(Next(s, es[0], ar), es[1..], ar))
  }

  ghost predicate CooldownKept(s: State) {
    Spaced(s.cues) &&
    if s.pending == [] then s.cues == [] || s.lastCueAt == s.cues[|s.cues| - 1]
    else s.cues != [] && s.pending == [s.cues[|s.cues| - 1]]
  }

  /** With prompt, successful publishes any two cues are more than the cooldown apart, in
      whatever arithmetic. */
  lemma CuesSpaced(es: seq<Event>, ar: Arithmetic)
    requires Possible(FRESH, es, ar) && SettlesPromptly(FRESH, es, ar)
    ensures Spaced(Run(FRESH, es, ar).cues)
  {
    CooldownRun(FRESH, es, ar);
  }

  lemma CooldownStep(s: State, e: Event, ar: Arithmetic)
    requires Enabled(s, e) && CooldownKept(s)
    requires (e.Chunk? ==> s.pending == []) && (e.Settled? ==> e.resolved)
    ensures CooldownKept(Next(s, e, ar))
  {
    hide Spaced;
    if e.Chunk? {
      ChunkCues(s, e, ar);
      hide Next;
      if Next(s, e, ar).cues != s.cues {
        SpacedSnoc(s.cues, e.now);
      }
    }
  }

  lemma SpacedSnoc(cues: seq<int>, now: int)
    requires Spaced(cues) && (cues == [] || now - cues[|cues| - 1] > CUE_COOLDOWN_MS)
    ensures Spaced(cues + [now])
  {
  }

  lemma {:induction false} CooldownRun(s: State, es: seq<Event>, ar: Arithmetic)
    requires Possible(s, es, ar) && SettlesPromptly(s, es, ar) && CooldownKept(s)
    ensures CooldownKept(Run(s, es, ar))
    decreases |es|
  {
    if es != [] {
      CooldownStep(s, es[0], ar);
      hide Next, CooldownKept;
      CooldownRun(Next(s, es[0], ar), es[1..], ar);
    }
  }

  /** The clock, read at each chunk, starts at `clock` and never goes back. */
  ghost predicate ClockFrom(es: seq<Event>, clock: int)
    decreases |es|
  {
    es == [] ||
    if es[0].Chunk? then clock <= es[0].now && ClockFrom(es[1..], es[0].now) else ClockFrom(es[1..], clock)
  }

  /** Whatever is heard and however publishes settle from time `clock` on, the next cue keeps
      its distance from the last. */
  ghost predicate NextCueSpaced(s: State, clock: int, ar: Arithmetic)
    requires s.cues != []
  {
    forall es :: Possible(s, es, ar) && ClockFrom(es, clock) && |Run(s, es, ar).cues| == |s.cues| + 1 ==>
      Run(s, es, ar).cues[|s.cues|] - s.cues[|s.cues| - 1] > CUE_COOLDOWN_MS
  }

  /** lastCueAtMs names no cue before `last`, and no pending publish can set it back to one. */
  ghost predicate StampCurrent(s: State, last: int) {
    s.lastCueAt >= last && forall p :: p in s.pending ==> p >= last
  }

  /** The next cue is sure to keep its distance exactly when lastCueAtMs has caught up with
      the last cue and no older publish is pending, or the cooldown is over anyway. The
      stamp is behind while the last cue's publish is pending, once it has rejected, or when
      an older publish settles after it and overwrites the stamp. This is for every
      arithmetic in which a long enough silence publishes. */
  lemma CooldownIffStampCurrent(s: State, clock: int, n: nat, ar: Arithmetic)
    requires Rounds(ar) && Silent(ar, n) > ar.Round(0.85)
    requires s.cues != [] && Sound(ar, s.confidence) && clock >= s.cues[|s.cues| - 1]
    ensures
      var last := s.cues[|s.cues| - 1];
      NextCueSpaced(s, clock, ar) <==> StampCurrent(s, last) || clock - last > CUE_COOLDOWN_MS
  {
    var last := s.cues[|s.cues| - 1];
    if StampCurrent(s, last) || clock - last > CUE_COOLDOWN_MS {
      forall es | Possible(s, es, ar) && ClockFrom(es, clock) && |Run(s, es, ar).cues| == |s.cues| + 1
        ensures Run(s, es, ar).cues[|s.cues|] - last > CUE_COOLDOWN_MS
      {
        FirstNewCue(s, es, clock, last, ar);
      }
    } else {
      NonNegative(ar, 0.85);
      assert n > 0;
      var es, t := CueTooSoon(s, clock, n, ar);
    }
  }

  /** The same in real arithmetic, where 33 chunks of silence publish. */
  lemma CooldownIffExact(s: State, clock: int)
    requires s.cues != [] && 0.0 <= s.confidence <= 1.0 && clock >= s.cues[|s.cues| - 1]
    ensures
      var last := s.cues[|s.cues| - 1];
      NextCueSpaced(s, clock, Exact) <==> StampCurrent(s, last) || clock - last > CUE_COOLDOWN_MS
  {
    hide Rounds, Silent, Ceiling, NextCueSpaced;
    ExactRounds();
    SilentIsCeiling(33);
    CeilingValues();
    CooldownIffStampCurrent(s, clock, 33, Exact);
  }

  /** A continuation in which the next cue comes within the cooldown of the last. */
  lemma CueTooSoon(s: State, clock: int, n: nat, ar: Arithmetic) returns (es: seq<Event>, t: State)
    requires Rounds(ar) && Silent(ar, n) > ar.Round(0.85) && n > 0
    requires s.cues != [] && Sound(ar, s.confidence)
    requires
      var last := s.cues[|s.cues| - 1];
      !StampCurrent(s, last) && last <= clock <= last + CUE_COOLDOWN_MS
    ensures Leads(s, es, t, ar) && ClockFrom(es, clock)
    ensures |t.cues| == |s.cues| + 1 && t.cues[|s.cues|] - s.cues[|s.cues| - 1] <= CUE_COOLDOWN_MS
  {
    hide Leads, Rounds, Sound, Silent;
    var last := s.cues[|s.cues| - 1];
    if s.lastCueAt < last {
      es, t := SilenceTooSoon(s, clock, n, ar);
    } else {
      var i :| 0 <= i < |s.pending| && s.pending[i] < last;
      var e := Settled(i, true);
      var u := Next(s, e, ar);
      ConfidenceStep(s, e, ar);
      es, t := SilenceTooSoon(u, clock, n, ar);
      LeadsFirst(s, e, es, t, ar);
      es := [e] + es;
      assert es[1..] == es[1..];
    }
  }

  lemma SilenceTooSoon(s: State, clock: int, n: nat, ar: Arithmetic) returns (es: seq<Event>, t: State)
    requires Rounds(ar) && Silent(ar, n) > ar.Round(0.85) && n > 0
    requires s.cues != [] && Sound(ar, s.confidence)
    requires
      var last := s.cues[|s.cues| - 1];
      s.lastCueAt < last <= clock <= last + CUE_COOLDOWN_MS
    ensures Leads(s, es, t, ar) && ClockFrom(es, clock)
    ensures |t.cues| == |s.cues| + 1 && t.cues[|s.cues|] - s.cues[|s.cues| - 1] <= CUE_COOLDOWN_MS
  {
    var now := if clock - s.lastCueAt > CUE_COOLDOWN_MS then clock else s.lastCueAt + CUE_COOLDOWN_MS + 1;
    hide Leads, Rounds;
    var m;
    m, t := SilenceRepeats(s, 0, n, now, ar);
    es := QuietChunks(m, now);
    QuietClock(m, now, clock);
  }

  lemma {:induction false} QuietClock(n: nat, now: int, clock: int)
    requires clock <= now
    ensures ClockFrom(QuietChunks(n, now), clock)
  {
    if n > 0 {
      QuietClock(n - 1, now, now);
      assert QuietChunks(n, now)[1..] == QuietChunks(n - 1, now);
    }
  }

  /** A confident agent publishes at every quiet chunk the stamp allows. */
  lemma QuietRepeats(s: State, now: int)
    requires 0.85 < s.confidence <= 1.0 && |s.envelope| < 255 && now - s.lastCueAt > CUE_COOLDOWN_MS
    ensures
      var t := Next(s, Quiet(now));
      t.cues == s.cues + [now] && t.pending == s.pending + [now] && t.lastCueAt == s.lastCueAt &&
      |t.envelope| <= |s.envelope| + 1 && t.silence == s.silence + 1 && t.breathing == s.breathing
  {
  }

  /** A fresh agent publishes twice within the cooldown while the first publish is pending. */
  lemma RepeatWhilePending(a: int, d: nat) returns (s: State)
    requires a > CUE_COOLDOWN_MS
    ensures Leads(FRESH, BrokenSilence(a) + [Quiet(a)] + [Quiet(a + d)], s)
    ensures s.cues == s.pending == [a, a + d] && s.lastCueAt == 0
    ensures |s.envelope| <= 134 && s.silence >= 20 && !s.breathing
  {
    hide Leads, BrokenSilence;
    var t := FirstCue(a);
    QuietRepeats(t, a + d);
    s := Next(t, Quiet(a + d));
    LeadsOne(t, Quiet(a + d));
    LeadsOn(FRESH, BrokenSilence(a) + [Quiet(a)], t, [Quiet(a + d)], s);
  }

  /** So it does after the first publish has rejected. */
  lemma RepeatAfterRejection(a: int, d: nat) returns (s: State)
    requires a > CUE_COOLDOWN_MS
    ensures Leads(FRESH, BrokenSilence(a) + [Quiet(a)] + [Settled(0, false), Quiet(a + d)], s)
    ensures s.cues == [a, a + d]
  {
    hide Leads, BrokenSilence;
    var t := FirstCue(a);
    var u := Next(t, Settled(0, false));
    QuietRepeats(u, a + d);
    s := Next(u, Quiet(a + d));
    LeadsOne(u, Quiet(a + d));
    LeadsFirst(t, Settled(0, false), [Quiet(a + d)], s);
    assert [Settled(0, false)] + [Quiet(a + d)] == [Settled(0, false), Quiet(a + d)];
    LeadsOn(FRESH, BrokenSilence(a) + [Quiet(a)], t, [Settled(0, false), Quiet(a + d)], s);
  }

  /** The newer publish resolves first and the older one overwrites its stamp. */
  function OverwrittenStamp(): seq<Event> { [Settled(1, true), Settled(0, true)] }

  /** The first moment from `a + d` on at which the stamp `a` lets a cue through. */
  function AfterStamp(a: int, d: nat): int {
    if d > CUE_COOLDOWN_MS then a + d else a + CUE_COOLDOWN_MS + 1
  }

  /** Both publishes have resolved, the older one last: the third cue waits for the cooldown
      after the first only, so it comes up to the whole cooldown too soon after the second. */
  lemma RepeatAfterOverwrite(a: int, d: nat) returns (s: State)
    requires a > CUE_COOLDOWN_MS
    ensures
      var late := AfterStamp(a, d);
      var twoCues := BrokenSilence(a) + [Quiet(a)] + [Quiet(a + d)];
      Leads(FRESH, twoCues + OverwrittenStamp() + [Quiet(late), Quiet(late)], s) && s.cues == [a, a + d, late]
  {
    hide Leads, BrokenSilence;
    var late := AfterStamp(a, d);
    var twoCues := BrokenSilence(a) + [Quiet(a)] + [Quiet(a + d)];
    var t := RepeatWhilePending(a, d);
    var u := StampOverwritten(t, a, a + d);
    LeadsOn(FRESH, twoCues, t, OverwrittenStamp(), u);
    s := TwoMoreChunks(u, late);
    LeadsOn(FRESH, twoCues + OverwrittenStamp(), u, [Quiet(late), Quiet(late)], s);
  }

  lemma StampOverwritten(s: State, a: int, b: int) returns (t: State)
    requires s.pending == [a, b]
    ensures Leads(s, OverwrittenStamp(), t)
    ensures t == s.(pending := [], confidence := 0.8, lastCueAt := a)
  {
    hide Leads;
    var u := Next(s, Settled(1, true));
    t := Next(u, Settled(0, true));
    LeadsOne(u, Settled(0, true));
    LeadsFirst(s, Settled(1, true), [Settled(0, true)], t);
    assert [Settled(1, true)] + [Settled(0, true)] == OverwrittenStamp();
  }

  /** From 0.8 two quiet chunks of a long silence are enough. */
  lemma TwoMoreChunks(s: State, now: int) returns (t: State)
    requires s.confidence == 0.8 && s.silence >= 20 && !s.breathing && |s.envelope| < 254
    requires now - s.lastCueAt > CUE_COOLDOWN_MS
    ensures Leads(s, [Quiet(now), Quiet(now)], t) && t.cues == s.cues + [now]
  {
    hide Leads;
    var u := Next(s, Quiet(now));
    assert u.confidence == 0.834 && u.cues == s.cues && |u.envelope| <= |s.envelope| + 1 && !u.breathing;
    t := Next(u, Quiet(now));
    LeadsOne(u, Quiet(now));
    LeadsFirst(s, Quiet(now), [Quiet(now)], t);
    assert [Quiet(now)] + [Quiet(now)] == [Quiet(now), Quiet(now)];
  }

  lemma OtherKeepsStamp(s: State, e: Event, last: int, ar: Arithmetic)
    requires Enabled(s, e) && !e.Chunk?
    ensures Next(s, e, ar).cues == s.cues && (StampCurrent(s, last) ==> StampCurrent(Next(s, e, ar), last))
  {
    var t := Next(s, e, ar);
    assert forall p :: p in t.pending ==> p in s.pending;
    assert e.Settled? ==> s.pending[e.index] in s.pending;
  }

  /** The first new cue comes no earlier than `clock`, and more than the cooldown after every
      time the stamp can have by then. */
  lemma {:induction false} FirstNewCue(s: State, es: seq<Event>, clock: int, last: int, ar: Arithmetic)
    requires Possible(s, es, ar) && ClockFrom(es, clock) && |Run(s, es, ar).cues| == |s.cues| + 1
    ensures Run(s, es, ar).cues[|s.cues|] >= clock
    ensures StampCurrent(s, last) ==> Run(s, es, ar).cues[|s.cues|] - last > CUE_COOLDOWN_MS
    decreases |es|
  {
    var t, clock' := Next(s, es[0], ar), if es[0].Chunk? then es[0].now else clock;
    if es[0].Chunk? {
      ChunkCues(s, es[0], ar);
    } else {
      OtherKeepsStamp(s, es[0], last, ar);
    }
    hide Next;
    if t.cues == s.cues {
      FirstNewCue(t, es[1..], clock', last, ar);
    } else {
      CuesGrow(t, es[1..], ar);
    }
  }
}
