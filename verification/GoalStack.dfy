/** The goal stack of a bedtime session (ActiveGoal.ts; BedtimeConductorAgent.ts, lines
    112-141, 361-394 and 439-460), driven by the beats of a story (GenerateStoryUseCase.ts,
    lines 318-339). Events are handled to completion one after the other. */
module GoalStack {
  import opened Common

  datatype Status = Active | Achieved | Abandoned

  datatype GoalType = ChildAsleep | StoryCompleted | RelaxationAchieved

  /** A JavaScript number that is an integer or NaN. */
  datatype Percent = Percent(value: int) | NaN

  datatype GoalProps = GoalProps(
    id: nat,
    goalType: GoalType,
    targetTime: int,
    status: Status,
    progress: Percent,
    createdAt: int,
    achievedAt: Option<int>
  )

  /** The goal-related fields of a session's state. */
  datatype Session = Session(activeGoals: Option<seq<GoalProps>>, activeGoal: Option<GoalProps>)

  type Sessions = map<string, Session>

  datatype Beat = Beat(contextSessionId: string, sessionId: string, beatIndex: int, totalBeats: int)

  const MAX_GOALS := 5
  const DEFAULT_SESSION := "session_default"
  const NO_GOALS := Session(None, None)

  /** Math.min(100, Math.max(0, p)). */
  function Clamp(p: Percent): Percent {
    if p.NaN? then NaN else Percent(if p.value < 0 then 0 else if p.value > 100 then 100 else p.value)
  }

  class ActiveGoal {
    const id: nat
    const goalType: GoalType
    const targetTime: int
    var status: Status
    var progress: Percent
    const createdAt: int
    var achievedAt: Option<int>

    constructor Create(props: GoalProps)
      ensures ToJSON() == props
    {
      id, goalType, targetTime, createdAt := props.id, props.goalType, props.targetTime, props.createdAt;
      status, progress, achievedAt := props.status, props.progress, props.achievedAt;
    }

    constructor CreateNew(id: nat, goalType: GoalType, targetMinutes: int, now: int)
      ensures ToJSON() == NewGoal(id, goalType, targetMinutes, now)
    {
      this.id, this.goalType, targetTime, createdAt := id, goalType, now + targetMinutes * 60 * 1000, now;
      status, progress, achievedAt := Active, Percent(0), None;
    }

    function ToJSON(): GoalProps
      reads this
    {
      GoalProps(id, goalType, targetTime, status, progress, createdAt, achievedAt)
    }

    method UpdateProgress(p: Percent)
      modifies this`progress
      ensures ToJSON() == old(ToJSON()).(progress := Clamp(p))
    {
      progress := Clamp(p);
    }

    method MarkAchieved(now: int)
      modifies this`status, this`progress, this`achievedAt
      ensures ToJSON() == old(ToJSON()).(status := Achieved, progress := Percent(100), achievedAt := Some(now))
    {
      status := Achieved;
      progress := Percent(100);
      achievedAt := Some(now);
    }
  }

  function NewGoal(id: nat, goalType: GoalType, targetMinutes: int, now: int): GoalProps {
    GoalProps(id, goalType, now + targetMinutes * 60 * 1000, Active, Percent(0), now, None)
  }

  /** Math.round(((beatIndex + 1) / totalBeats) * 100). An infinity is written as the
      number it clamps to; both take the same branch of `progress >= 100`. */
  function Progress(beatIndex: int, totalBeats: int): Percent {
    if totalBeats == 0 then
      if beatIndex + 1 == 0 then NaN else Percent(if beatIndex + 1 > 0 then 100 else 0)
    else Percent(((beatIndex + 1) as real / totalBeats as real * 100.0 + 0.5).Floor)
  }

  predicate Completes(p: Percent) { p.Percent? && p.value >= 100 }

  /** _getOrInitState: a missing session is created, an old one-goal session migrated. */
  function GetOrInit(sessions: Sessions, sessionId: string): Session {
    if sessionId !in sessions then NO_GOALS
    else
      var s := sessions[sessionId];
      if s.activeGoals.None? && s.activeGoal.Some? then s.(activeGoals := Some([s.activeGoal.value])) else s
  }

  /** state.activeGoals?.[0] ?? state.activeGoal */
  function HeadGoal(s: Session): Option<GoalProps> {
    if s.activeGoals.Some? && s.activeGoals.value != [] then Some(s.activeGoals.value[0]) else s.activeGoal
  }

  function SessionOf(beat: Beat): string {
    if beat.contextSessionId != "" then beat.contextSessionId
    else if beat.sessionId != "" then beat.sessionId
    else DEFAULT_SESSION
  }

  /** Lines 379-392: the session written back, given the goal after this beat. */
  function WithHead(s: Session, updated: GoalProps, pop: bool): Session {
    var goals := if s.activeGoals.Some? then s.activeGoals.value else [];
    var stack := if goals != [] then goals[0 := updated] else [updated];
    var rest := if pop then stack[1..] else stack;
    if rest == [] then NO_GOALS else Session(Some(rest), Some(rest[0]))
  }

  /** What one beat does to the session it reads. */
  function BeatSession(s: Session, beat: Beat, now: int): Session {
    var goal := HeadGoal(s);
    if goal.None? || goal.value.status != Active then s
    else
      var p := Progress(beat.beatIndex, beat.totalBeats);
      var updated := goal.value.(progress := Clamp(p));
      if Completes(p) then
        WithHead(s, updated.(status := Achieved, progress := Percent(100), achievedAt := Some(now)), true)
      else WithHead(s, updated, false)
  }

  function NextBeat(sessions: Sessions, beat: Beat, now: int): Sessions {
    var id := SessionOf(beat);
    sessions[id := BeatSession(GetOrInit(sessions, id), beat, now)]
  }

  function SetGoalSession(s: Session, goal: GoalProps): Session {
    var existing :=
      if s.activeGoals.Some? then s.activeGoals.value
      else if s.activeGoal.Some? then [s.activeGoal.value] else [];
    var stack := [goal] + existing;
    var kept := if |stack| > MAX_GOALS then stack[..MAX_GOALS] else stack;
    Session(Some(kept), Some(kept[0]))
  }

  class BedtimeConductorAgent {
    var sessions: Sessions

    constructor ()
      ensures sessions == map[]
    {
      sessions := map[];
    }

    method GetOrInitState(sessionId: string) returns (state: Session)
      modifies this
      ensures state == GetOrInit(old(sessions), sessionId)
      ensures sessions == old(sessions)[sessionId := state]
    {
      if sessionId !in sessions {
        state := NO_GOALS;
        sessions := sessions[sessionId := state];
      } else {
        state := sessions[sessionId];
        if state.activeGoals.None? && state.activeGoal.Some? {
          state := state.(activeGoals := Some([state.activeGoal.value]));
          sessions := sessions[sessionId := state];
        }
      }
    }

    method HandleStoryBeat(beat: Beat, now: int)
      modifies this
      ensures sessions == NextBeat(old(sessions), beat, now)
    {
      var sessionId := SessionOf(beat);
      var state := GetOrInitState(sessionId);
      var goalProps := HeadGoal(state);
      if goalProps.None? {
        return;
      }
      var activeGoal := new ActiveGoal.Create(goalProps.value);
      if activeGoal.status != Active {
        return;
      }
      var progress := Progress(beat.beatIndex, beat.totalBeats);
      activeGoal.UpdateProgress(progress);
      if Completes(progress) {
        activeGoal.MarkAchieved(now);
      }
      var updated := activeGoal.ToJSON();
      var stack := if state.activeGoals.Some? then state.activeGoals.value else [];
      if |stack| > 0 {
        stack := stack[0 := updated];
      } else {
        stack := [updated] + stack;
        assert stack == [updated];
      }
      if Completes(progress) {
        stack := stack[1..];
      }
      state := Session(if |stack| > 0 then Some(stack) else None, if |stack| > 0 then Some(stack[0]) else None);
      sessions := sessions[sessionId := state];
    }

    method SetGoal(sessionId: string, id: nat, goalType: GoalType, minutes: int, now: int)
      modifies this
      ensures sessions == old(sessions)[sessionId :=
        SetGoalSession(GetOrInit(old(sessions), sessionId), NewGoal(id, goalType, minutes, now))]
    {
      var state := GetOrInitState(sessionId);
      var goal := new ActiveGoal.CreateNew(id, goalType, minutes, now);
      var goalJson := goal.ToJSON();
      var existing :=
        if state.activeGoals.Some? then state.activeGoals.value
        else if state.activeGoal.Some? then [state.activeGoal.value] else [];
      var stack := [goalJson] + existing;
      if |stack| > MAX_GOALS {
        stack := stack[..MAX_GOALS];
      }
      sessions := sessions[sessionId := Session(Some(stack), Some(stack[0]))];
    }
  }

  predicate InProgress(g: GoalProps) {
    g.status == Active && g.progress.Percent? && 0 <= g.progress.value <= 99
  }

  /** At most five goals, all in progress, and activeGoal is the head of the stack. */
  predicate WellFormed(s: Session) {
    s == NO_GOALS || (
      s.activeGoals.Some? && 1 <= |s.activeGoals.value| <= MAX_GOALS &&
      s.activeGoal == Some(s.activeGoals.value[0]) &&
      forall g :: g in s.activeGoals.value ==> InProgress(g))
  }

  ghost predicate AllWellFormed(sessions: Sessions) {
    forall id :: id in sessions ==> WellFormed(sessions[id])
  }

  function Goals(s: Session): seq<GoalProps> {
    if s.activeGoals.Some? then s.activeGoals.value else []
  }

  /** One beat on a well-formed stack: the head moves on, or goes. */
  lemma BeatOnStack(s: Session, beat: Beat, now: int)
    requires WellFormed(s) && Progress(beat.beatIndex, beat.totalBeats) != NaN
    ensures WellFormed(BeatSession(s, beat, now))
    ensures
      var p := Progress(beat.beatIndex, beat.totalBeats);
      Goals(BeatSession(s, beat, now)) ==
        if Goals(s) == [] then []
        else if Completes(p) then Goals(s)[1..]
        else Goals(s)[0 := Goals(s)[0].(progress := Clamp(p))]
  {
    var goals := Goals(s);
    if goals != [] {
      var p := Progress(beat.beatIndex, beat.totalBeats);
      var done := goals[0].(status := Achieved, progress := Percent(100), achievedAt := Some(now));
      assert goals[0] in goals;
      assert goals[0 := done][1..] == goals[1..];
      var moved := goals[0].(progress := Clamp(p));
      assert moved.(status := Achieved, progress := Percent(100), achievedAt := Some(now)) == done;
    }
  }

  datatype Event =
    | BeatEvent(beat: Beat)
    | GoalEvent(sessionId: string, id: nat, goalType: GoalType, minutes: int)

  function Next(sessions: Sessions, e: Event, now: int): Sessions {
    match e
    case BeatEvent(beat) => NextBeat(sessions, beat, now)
    case GoalEvent(sessionId, id, goalType, minutes) =>
      sessions[sessionId := SetGoalSession(GetOrInit(sessions, sessionId), NewGoal(id, goalType, minutes, now))]
  }

  /** Exactly which events keep every session well formed: a beat numbered -1 of 0 makes
      the progress NaN if there is a goal to write it to. */
  lemma StepKeepsIff(sessions: Sessions, e: Event, now: int)
    requires AllWellFormed(sessions)
    ensures AllWellFormed(Next(sessions, e, now)) <==>
      !(e.BeatEvent? && e.beat.beatIndex == -1 && e.beat.totalBeats == 0 &&
        Goals(GetOrInit(sessions, SessionOf(e.beat))) != [])
  {
    if e.BeatEvent? {
      var s := GetOrInit(sessions, SessionOf(e.beat));
      if Progress(e.beat.beatIndex, e.beat.totalBeats) != NaN {
        BeatOnStack(s, e.beat, now);
      } else if Goals(s) != [] {
        var t := BeatSession(s, e.beat, now);
        assert Clamp(NaN) == NaN && !Completes(NaN) && HeadGoal(s) == Some(Goals(s)[0]) && Goals(s)[0] in Goals(s);
        assert t == WithHead(s, Goals(s)[0].(progress := NaN), false);
        assert t.activeGoals.value[0].progress == NaN && t.activeGoals.value[0] in t.activeGoals.value;
        assert !WellFormed(Next(sessions, e, now)[SessionOf(e.beat)]);
      }
    } else {
      var s := SetGoalSession(GetOrInit(sessions, e.sessionId), NewGoal(e.id, e.goalType, e.minutes, now));
      assert WellFormed(s);
    }
  }

  /** Run any events at any times. */
  function Run(sessions: Sessions, es: seq<Event>, times: seq<int>): Sessions
    requires |es| == |times|
    decreases |es|
  {
    if es == [] then sessions else Run(Next(sessions, es[0], times[0]), es[1..], times[1..])
  }

  /** Every reachable session is well formed. */
  lemma {:induction false} ReachableWellFormed(sessions: Sessions, es: seq<Event>, times: seq<int>)
    requires |es| == |times| && AllWellFormed(sessions)
    requires forall e :: e in es && e.BeatEvent? ==> !(e.beat.beatIndex == -1 && e.beat.totalBeats == 0)
    ensures AllWellFormed(Run(sessions, es, times))
    decreases |es|
  {
    if es != [] {
      assert es[0] in es;
      StepKeepsIff(sessions, es[0], times[0]);
      ReachableWellFormed(Next(sessions, es[0], times[0]), es[1..], times[1..]);
    }
  }

  /** The beat events a story of `n` paragraphs publishes: no session id in the payload. */
  function StoryBeats(n: nat): (bs: seq<Beat>)
    ensures |bs| == n
  {
    seq(n, i requires 0 <= i < n => Beat("", "", i, n))
  }

  method EmitBeats(totalBeats: nat) returns (published: seq<Beat>)
    ensures published == StoryBeats(totalBeats)
  {
    published := [];
    for i := 0 to totalBeats
      invariant published == StoryBeats(totalBeats)[..i]
    {
      published := published + [Beat("", "", i, totalBeats)];
    }
  }

  /** Half a percent counts as done: the last n/200 + 1 beats each complete a goal. */
  lemma CompletesIff(i: nat, n: nat)
    requires i < n
    ensures Completes(Progress(i, n)) <==> n - 1 - i <= n / 200
    ensures Progress(i, n).Percent?
  {
    RoundsUpIff((i + 1) as real / n as real, n as real, (i + 1) as real);
  }

  lemma RoundsUpIff(q: real, m: real, y: real)
    requires m > 0.0 && q * m == y
    ensures (q * 100.0 + 0.5).Floor >= 100 <==> y * 200.0 >= 199.0 * m
  {
    if q >= 0.995 {
      assert (q - 0.995) * m >= 0.0;
    } else {
      assert (0.995 - q) * m > 0.0;
    }
  }

  /** Each beat is handled at its own time. */
  function DeliverFrom(sessions: Sessions, beats: seq<Beat>, times: seq<int>): Sessions
    requires |beats| == |times|
    decreases |beats|
  {
    if beats == [] then sessions
    else DeliverFrom(NextBeat(sessions, beats[0], times[0]), beats[1..], times[1..])
  }

  /** Exactly `k` goals, or all if there are fewer, came off the default session's stack; the
      goals below are as they were, and no other session changed. */
  predicate Popped(sessions: Sessions, after: Sessions, k: nat) {
    var before := Goals(GetOrInit(sessions, DEFAULT_SESSION));
    DEFAULT_SESSION in after && Goals(after[DEFAULT_SESSION]) == before[Min(|before|, k)..] &&
    after - {DEFAULT_SESSION} == sessions - {DEFAULT_SESSION}
  }

  /** Delivering all beats of a story of n paragraphs takes exactly min(depth, n/200 + 1)
      goals off the default session's stack, whatever session the goals were set for. */
  lemma StoryPops(sessions: Sessions, n: nat, times: seq<int>)
    requires AllWellFormed(sessions) && n > 0 && |times| == n
    ensures Popped(sessions, DeliverFrom(sessions, StoryBeats(n), times), n / 200 + 1)
  {
    StoryPopsFrom(sessions, n, 0, times);
    assert StoryBeats(n)[0..] == StoryBeats(n);
  }

  lemma {:induction false} StoryPopsFrom(sessions: Sessions, n: nat, i: nat, times: seq<int>)
    requires AllWellFormed(sessions) && i <= n && n > 0 && |times| == n - i
    requires i == n ==> DEFAULT_SESSION in sessions
    ensures Popped(sessions, DeliverFrom(sessions, StoryBeats(n)[i..], times), Min(n - i, n / 200 + 1))
    decreases n - i
  {
    hide NextBeat, GetOrInit, StoryBeats, Goals, AllWellFormed, Popped;
    if i == n {
      assert StoryBeats(n)[n..] == [];
      PoppedNothing(sessions);
    } else {
      StoryStep(sessions, n, i, times[0]);
      NextOfStory(sessions, n, i, times);
      var t := NextBeat(sessions, Beat("", "", i, n), times[0]);
      hide DeliverFrom;
      StoryPopsFrom(t, n, i + 1, times[1..]);
      PoppedMore(sessions, t, DeliverFrom(t, StoryBeats(n)[i + 1..], times[1..]), n - i, n / 200 + 1);
    }
  }

  lemma PoppedNothing(sessions: Sessions)
    requires AllWellFormed(sessions) && DEFAULT_SESSION in sessions
    ensures Popped(sessions, sessions, 0)
  {
  }

  lemma PoppedMore(sessions: Sessions, t: Sessions, after: Sessions, left: nat, last: nat)
    requires left >= 1 && last >= 1 && DEFAULT_SESSION in t && Popped(t, after, Min(left - 1, last))
    requires GetOrInit(t, DEFAULT_SESSION) == t[DEFAULT_SESSION]
    requires t - {DEFAULT_SESSION} == sessions - {DEFAULT_SESSION}
    requires
      var g, h := Goals(GetOrInit(sessions, DEFAULT_SESSION)), Goals(t[DEFAULT_SESSION]);
      |h| == |g| - (if g != [] && left <= last then 1 else 0) && (g != [] ==> h[|h| - |g| + 1..] == g[1..])
    ensures Popped(sessions, after, Min(left, last))
  {
    hide GetOrInit, Goals;
    TailsAgree(Goals(GetOrInit(sessions, DEFAULT_SESSION)), Goals(t[DEFAULT_SESSION]), left, last);
  }

  lemma NextOfStory(sessions: Sessions, n: nat, i: nat, times: seq<int>)
    requires i < n && |times| == n - i
    ensures DeliverFrom(sessions, StoryBeats(n)[i..], times)
         == DeliverFrom(NextBeat(sessions, Beat("", "", i, n), times[0]), StoryBeats(n)[i + 1..], times[1..])
  {
    hide NextBeat;
    var beats := StoryBeats(n)[i..];
    assert beats[0] == Beat("", "", i, n) && beats[1..] == StoryBeats(n)[i + 1..];
  }

  /** `t` is `g` with its head replaced, or removed once no more than `last` beats remain. */
  lemma TailsAgree(g: seq<GoalProps>, t: seq<GoalProps>, left: nat, last: nat)
    requires left >= 1 && last >= 1
    requires |t| == |g| - if g != [] && left <= last then 1 else 0
    requires g != [] ==> t[|t| - |g| + 1..] == g[1..]
    ensures t[Min(|t|, Min(left - 1, last))..] == g[Min(|g|, Min(left, last))..]
  {
    if g != [] {
      var k := Min(|g|, Min(left, last));
      assert g[1..][k - 1..] == g[k..];
      assert t[|t| - |g| + 1..][k - 1..] == t[|t| - |g| + k..];
    }
  }

  /** One beat of the story, seen by the default session. */
  lemma StoryStep(sessions: Sessions, n: nat, i: nat, now: int)
    requires AllWellFormed(sessions) && i < n
    ensures
      var after := NextBeat(sessions, Beat("", "", i, n), now);
      var before := Goals(GetOrInit(sessions, DEFAULT_SESSION));
      AllWellFormed(after) && DEFAULT_SESSION in after &&
      after - {DEFAULT_SESSION} == sessions - {DEFAULT_SESSION} &&
      GetOrInit(after, DEFAULT_SESSION) == after[DEFAULT_SESSION] &&
      |Goals(after[DEFAULT_SESSION])| == |before| - (if before != [] && n - 1 - i <= n / 200 then 1 else 0) &&
      (before != [] ==> Goals(after[DEFAULT_SESSION])[|Goals(after[DEFAULT_SESSION])| - |before| + 1..] == before[1..])
  {
    CompletesIff(i, n);
    BeatOnStack(GetOrInit(sessions, DEFAULT_SESSION), Beat("", "", i, n), now);
  }

  /** A story of up to 199 paragraphs completes exactly one goal, at its last beat. */
  lemma ShortStoryPopsOne(sessions: Sessions, n: nat, i: nat)
    requires 0 < n <= 199 && i < n
    ensures Completes(Progress(i, n)) <==> i == n - 1
  {
    CompletesIff(i, n);
  }
}
