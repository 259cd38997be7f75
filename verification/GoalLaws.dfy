/** The goal stack in numbers: how far a beat takes its goal, and what a new goal leaves of
    the old ones (ActiveGoal.ts, lines 87-124; BedtimeConductorAgent.ts, lines 361-394 and
    439-460). */
module GoalLaws {
  import opened Common
  import opened GoalStack

  /** `p` is 100 * (i + 1) / n rounded to the nearest whole number, halves up. */
  predicate Nearest(p: int, i: nat, n: nat) {
    200 * (i + 1) - n < 2 * n * p <= 200 * (i + 1) + n
  }

  lemma RoundedNearest(i: nat, n: nat)
    requires n > 0
    ensures ((i + 1) as real / n as real * 100.0 + 0.5).Floor >= 0
    ensures Nearest(((i + 1) as real / n as real * 100.0 + 0.5).Floor, i, n)
  {
    var x, m, y := (i + 1) as real / n as real, n as real, (i + 1) as real;
    assert x * m == y;
    var p := (x * 100.0 + 0.5).Floor;
    NearestOf(x, m, y, p as real);
    assert (n * p) as real == m * p as real;
  }

  lemma NearestOf(x: real, m: real, y: real, q: real)
    requires m > 0.0 && x * m == y && q <= x * 100.0 + 0.5 < q + 1.0
    ensures 200.0 * y - m < 2.0 * (m * q) <= 200.0 * y + m
  {
    var low, high := x * 100.0 + 0.5 - q, q + 0.5 - x * 100.0;
    Scale(m, 0.0, low);
    ProductPositive(m, high);
    assert m * low == 100.0 * y + 0.5 * m - m * q;
    assert m * high == m * q + 0.5 * m - 100.0 * y;
  }

  /** A goal that a beat does not complete stays on top, with the beat's share of the story
      in whole percent; nothing else about it changes, and the goals below stay. */
  lemma BeatProgress(s: Session, beat: Beat, now: int)
    requires WellFormed(s) && Goals(s) != [] && 0 <= beat.beatIndex < beat.totalBeats
    ensures
      var goals, after := Goals(s), Goals(BeatSession(s, beat, now));
      var i, n := beat.beatIndex, beat.totalBeats;
      if n - 1 - i <= n / 200 then after == goals[1..]
      else
        |after| == |goals| && after[1..] == goals[1..] &&
        after[0].progress.Percent? && after[0] == goals[0].(progress := after[0].progress) &&
        Nearest(after[0].progress.value, i, n)
  {
    var i, n := beat.beatIndex, beat.totalBeats;
    CompletesIff(i, n);
    RoundedNearest(i, n);
    BeatOnStack(s, beat, now);
    assert Goals(s)[0] in Goals(s);
    hide BeatSession, Nearest;
  }

  /** One more percentage is never less: shares of the same story come in order. */
  lemma NearestInOrder(p: int, q: int, i: nat, k: nat, n: nat)
    requires n > 0 && i <= k && Nearest(p, i, n) && Nearest(q, k, n)
    ensures p <= q
  {
    assert 2 * n * (q + 1) == 2 * n * q + 2 * n;
    MultipleBelow(q + 1, p, n);
  }

  lemma MultipleBelow(a: int, b: int, n: nat)
    ensures a <= b ==> 2 * n * a <= 2 * n * b
  {
    if a <= b {
      assert 2 * n * b == 2 * n * a + 2 * n * (b - a);
    }
  }

  lemma {:induction false} DeliverSnoc(sessions: Sessions, beats: seq<Beat>, times: seq<int>)
    requires |beats| == |times| > 0
    ensures
      var n := |beats| - 1;
      DeliverFrom(sessions, beats, times)
        == NextBeat(DeliverFrom(sessions, beats[..n], times[..n]), beats[n], times[n])
    decreases |beats|
  {
    hide NextBeat;
    var n := |beats| - 1;
    if n == 0 {
      assert beats[1..] == [] && beats[..0] == [];
    } else {
      DeliverSnoc(NextBeat(sessions, beats[0], times[0]), beats[1..], times[1..]);
      assert beats[1..][..n - 1] == beats[..n][1..] && times[1..][..n - 1] == times[..n][1..];
    }
  }

  /** While a story of n beats completes nothing, the goal on top stays on top. After beat i
      its progress is the share of the story told; so it never goes down. */
  lemma {:induction false} StoryProgress(sessions: Sessions, n: nat, i: nat, times: seq<int>)
    requires AllWellFormed(sessions) && i < n && n - 1 - i > n / 200 && |times| == i + 1
    requires Goals(GetOrInit(sessions, DEFAULT_SESSION)) != []
    ensures
      var after := DeliverFrom(sessions, StoryBeats(n)[..i + 1], times);
      AllWellFormed(after) && DEFAULT_SESSION in after &&
      Told(Goals(GetOrInit(sessions, DEFAULT_SESSION)), Goals(after[DEFAULT_SESSION]), i, n)
    decreases i
  {
    var beats, before := StoryBeats(n)[..i + 1], Goals(GetOrInit(sessions, DEFAULT_SESSION));
    var prev := DeliverFrom(sessions, beats[..i], times[..i]);
    if i == 0 {
      assert beats[..0] == [];
    } else {
      assert beats[..i] == StoryBeats(n)[..i - 1 + 1];
      StoryProgress(sessions, n, i - 1, times[..i]);
      StillThere(prev);
    }
    DeliverSnoc(sessions, beats, times);
    StoryStep(prev, n, i, times[i]);
    assert beats[i] == Beat("", "", i, n);
    assert WellFormed(GetOrInit(prev, DEFAULT_SESSION));
    BeatProgress(GetOrInit(prev, DEFAULT_SESSION), beats[i], times[i]);
  }

  /** The stack with its head so far through the story. */
  predicate Told(before: seq<GoalProps>, after: seq<GoalProps>, i: nat, n: nat) {
    |after| == |before| > 0 && after[1..] == before[1..] && after[0].progress.Percent? &&
    after[0] == before[0].(progress := after[0].progress) && Nearest(after[0].progress.value, i, n)
  }

  lemma StillThere(sessions: Sessions)
    requires AllWellFormed(sessions) && DEFAULT_SESSION in sessions
    ensures GetOrInit(sessions, DEFAULT_SESSION) == sessions[DEFAULT_SESSION]
  {
  }

  /** Between any two beats of a story that completes nothing in between, the progress of the
      goal on top does not go down. */
  lemma ProgressNeverDown(sessions: Sessions, n: nat, i: nat, k: nat, times: seq<int>)
    requires AllWellFormed(sessions) && i <= k < n && n - 1 - k > n / 200 && |times| == k + 1
    requires Goals(GetOrInit(sessions, DEFAULT_SESSION)) != []
    ensures
      var early := DeliverFrom(sessions, StoryBeats(n)[..i + 1], times[..i + 1]);
      var late := DeliverFrom(sessions, StoryBeats(n)[..k + 1], times);
      DEFAULT_SESSION in early && DEFAULT_SESSION in late &&
      var g, h := Goals(early[DEFAULT_SESSION]), Goals(late[DEFAULT_SESSION]);
      |g| == |h| > 0 && g[0].progress.Percent? && h[0].progress.Percent? &&
      g[0].progress.value <= h[0].progress.value
  {
    StoryProgress(sessions, n, i, times[..i + 1]);
    StoryProgress(sessions, n, k, times);
    hide Nearest, DeliverFrom, Goals, GetOrInit;
    var g := Goals(DeliverFrom(sessions, StoryBeats(n)[..i + 1], times[..i + 1])[DEFAULT_SESSION]);
    var h := Goals(DeliverFrom(sessions, StoryBeats(n)[..k + 1], times)[DEFAULT_SESSION]);
    NearestInOrder(g[0].progress.value, h[0].progress.value, i, k, n);
  }

  /** A new goal goes on top of the newest four; it is active, at 0, and due in so many minutes. */
  lemma NewGoalOnTop(s: Session, id: nat, goalType: GoalType, minutes: int, now: int)
    requires WellFormed(s)
    ensures
      var after, older := Goals(SetGoalSession(s, NewGoal(id, goalType, minutes, now))), Goals(s);
      after != [] && after[1..] == (if |older| <= 4 then older else older[..4]) &&
      after[0] == GoalProps(id, goalType, now + 60_000 * minutes, Active, Percent(0), now, None)
  {
  }

  /** A goal that completes leaves with status achieved; it is written nowhere, only taken
      off, and the next goal becomes the active one. */
  lemma CompletedGoalLeaves(s: Session, beat: Beat, now: int)
    requires WellFormed(s) && Goals(s) != [] && 0 <= beat.beatIndex < beat.totalBeats
    requires beat.totalBeats - 1 - beat.beatIndex <= beat.totalBeats / 200
    ensures
      var t := BeatSession(s, beat, now);
      if |Goals(s)| == 1 then t == NO_GOALS else t == Session(Some(Goals(s)[1..]), Some(Goals(s)[1]))
  {
    CompletesIff(beat.beatIndex, beat.totalBeats);
    assert Goals(s)[0] in Goals(s);
  }

  /** Beats before the first leave the goal at 0; beats past the last complete it. */
  lemma BeatOutOfRange(s: Session, beat: Beat, now: int)
    requires WellFormed(s) && Goals(s) != [] && beat.totalBeats > 0
    ensures
      var goals, after := Goals(s), Goals(BeatSession(s, beat, now));
      (beat.beatIndex < 0 ==> after == goals[0 := goals[0].(progress := Percent(0))]) &&
      (beat.beatIndex >= beat.totalBeats ==> after == goals[1..])
  {
    SharesOutOfRange(beat.beatIndex, beat.totalBeats);
    assert Goals(s)[0] in Goals(s);
    BeatOnStack(s, beat, now);
    hide BeatSession, Progress;
  }

  lemma SharesOutOfRange(i: int, n: int)
    requires n > 0
    ensures Progress(i, n).Percent?
    ensures i < 0 ==> Progress(i, n).value <= 0
    ensures i >= n ==> Progress(i, n).value >= 100
  {
    var x := (i + 1) as real / n as real;
    ShareOf(x, n as real, (i + 1) as real);
  }

  lemma ShareOf(x: real, m: real, y: real)
    requires m > 0.0 && x == y / m
    ensures (y <= 0.0 ==> x <= 0.0) && (y > m ==> x > 1.0)
  {
    assert x * m == y;
    ScaledInOrder(0.0, x, m);
    ScaledInOrder(1.0, x, m);
  }

  /** A beat goes to the session of its context, else to its own, else to the default one,
      and touches no other. */
  lemma Addressed(sessions: Sessions, context: string, own: string, i: int, n: int, now: int, other: string)
    ensures
      var t := NextBeat(sessions, Beat(context, own, i, n), now);
      var target := if context != "" then context else if own != "" then own else "session_default";
      t == NextBeat(sessions, Beat("", target, i, n), now) &&
      (other != target ==> (other in t <==> other in sessions) && (other in t ==> t[other] == sessions[other]))
  {
    var target := if context != "" then context else if own != "" then own else "session_default";
    OnlySharesMatter(GetOrInit(sessions, target), Beat(context, own, i, n), now);
    hide BeatSession, GetOrInit;
  }

  lemma OnlySharesMatter(s: Session, beat: Beat, now: int)
    ensures forall id: string ::
      BeatSession(s, Beat("", id, beat.beatIndex, beat.totalBeats), now) == BeatSession(s, beat, now)
  {
  }

  /** A session stored with a single goal counts as a stack of that goal. */
  lemma SingleGoalIsAStack(sessions: Sessions, id: string, goal: GoalProps)
    requires id in sessions && sessions[id] == Session(None, Some(goal))
    ensures GetOrInit(sessions, id) == Session(Some([goal]), Some(goal))
    ensures InProgress(goal) ==> WellFormed(GetOrInit(sessions, id))
  {
  }
}
