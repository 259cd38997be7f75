/** Handlers that interleave: of a beat or of a new goal, each one reads a session and
    writes it back later (BedtimeConductorAgent, lines 361-394 and 439-460; the subscription
    in container.ts, lines 394-399, does not wait for them). */
module GoalInterleaving {
  import opened Common
  import opened GoalStack

  /** The session an event is about. */
  function Target(e: Event): string {
    match e
    case BeatEvent(beat) => SessionOf(beat)
    case GoalEvent(sessionId, _, _, _) => sessionId
  }

  /** What the handler of `e` makes of the session it has read. */
  function After(s: Session, e: Event, now: int): Session {
    match e
    case BeatEvent(beat) => BeatSession(s, beat, now)
    case GoalEvent(_, id, goalType, minutes) => SetGoalSession(s, NewGoal(id, goalType, minutes, now))
  }

  /** A beat handler without an active goal returns and writes nothing. */
  predicate Writes(s: Session, e: Event) {
    e.GoalEvent? || (HeadGoal(s).Some? && HeadGoal(s).value.status == Active)
  }

  /** A handler between its two awaits: it has read `snapshot` and not written yet. */
  datatype InFlight = InFlight(event: Event, snapshot: Session)

  /** The stored sessions, in a store whose `get` hands out copies, and the running handlers. */
  datatype System = System(sessions: Sessions, inFlight: seq<InFlight>)

  datatype Action =
    | Read(event: Event)
    | Write(index: nat, now: int)

  /** Reading creates or migrates the session. */
  function ReadStep(sessions: Sessions, e: Event): Sessions {
    sessions[Target(e) := GetOrInit(sessions, Target(e))]
  }

  function WriteStep(sessions: Sessions, h: InFlight, now: int): Sessions {
    if Writes(h.snapshot, h.event) then sessions[Target(h.event) := After(h.snapshot, h.event, now)] else sessions
  }

  /** The serial step is a read and a write in one. */
  lemma SerialStep(sessions: Sessions, e: Event, now: int)
    ensures
      var s := GetOrInit(sessions, Target(e));
      Next(sessions, e, now) == sessions[Target(e) := After(s, e, now)] && (!Writes(s, e) ==> After(s, e, now) == s)
  {
  }

  function Act(sys: System, a: Action): System
    requires a.Write? ==> a.index < |sys.inFlight|
  {
    match a
    case Read(e) =>
      System(ReadStep(sys.sessions, e), sys.inFlight + [InFlight(e, GetOrInit(sys.sessions, Target(e)))])
    case Write(i, now) =>
      System(WriteStep(sys.sessions, sys.inFlight[i], now), sys.inFlight[..i] + sys.inFlight[i + 1..])
  }

  ghost predicate Busy(inFlight: seq<InFlight>, id: string) {
    exists i :: 0 <= i < |inFlight| && Target(inFlight[i].event) == id
  }

  /** Every handler of the run starts when no other handler of its session is running. */
  ghost predicate Isolated(sys: System, acts: seq<Action>)
    decreases |acts|
  {
    acts == [] || (
      (match acts[0]
       case Read(e) => !Busy(sys.inFlight, Target(e))
       case Write(i, _) => i < |sys.inFlight|) &&
      Isolated(Act(sys, acts[0]), acts[1..]))
  }

  ghost function RunActions(sys: System, acts: seq<Action>): System
    requires Isolated(sys, acts)
    decreases |acts|
  {
    if acts == [] then sys else RunActions(Act(sys, acts[0]), acts[1..])
  }

  /** The events in the order of their writes, handled one after the other. */
  ghost function InWriteOrder(sys: System, serial: Sessions, acts: seq<Action>): Sessions
    requires Isolated(sys, acts)
    decreases |acts|
  {
    if acts == [] then serial
    else
      InWriteOrder(Act(sys, acts[0]),
                   if acts[0].Write? then Next(serial, sys.inFlight[acts[0].index].event, acts[0].now) else serial,
                   acts[1..])
  }

  /** The interleaved store against the serial one: they differ only in sessions whose
      running handler has already created or migrated what it read. */
  ghost predicate Mirrors(sys: System, serial: Sessions) {
    (forall i, j :: 0 <= i < j < |sys.inFlight| ==>
      Target(sys.inFlight[i].event) != Target(sys.inFlight[j].event)) &&
    (forall i :: 0 <= i < |sys.inFlight| ==> Current(sys.sessions, serial, sys.inFlight[i])) &&
    (forall k :: !Busy(sys.inFlight, k) ==> SameAt(sys.sessions, serial, k))
  }

  /** The snapshot is what the store holds, and what the serial order would read. */
  predicate Current(sessions: Sessions, serial: Sessions, h: InFlight) {
    var id := Target(h.event);
    id in sessions && sessions[id] == h.snapshot == GetOrInit(serial, id)
  }

  predicate SameAt(sessions: Sessions, serial: Sessions, k: string) {
    (k in sessions <==> k in serial) && (k in sessions ==> sessions[k] == serial[k])
  }

  /** When handlers of one session do not overlap, any interleaving of handlers does what
      their events do one after the other, in the order of their writes. */
  lemma IsolatedIsSerial(sessions: Sessions, acts: seq<Action>)
    requires Isolated(System(sessions, []), acts) && RunActions(System(sessions, []), acts).inFlight == []
    ensures RunActions(System(sessions, []), acts).sessions == InWriteOrder(System(sessions, []), sessions, acts)
  {
    assert Mirrors(System(sessions, []), sessions);
    MirrorsRun(System(sessions, []), sessions, acts);
    MirrorsIdle(RunActions(System(sessions, []), acts), InWriteOrder(System(sessions, []), sessions, acts));
  }

  lemma MirrorsIdle(sys: System, serial: Sessions)
    requires Mirrors(sys, serial) && sys.inFlight == []
    ensures sys.sessions == serial
  {
    forall k ensures k in sys.sessions <==> k in serial {
      assert SameAt(sys.sessions, serial, k);
    }
    forall k | k in serial ensures sys.sessions[k] == serial[k] {
      assert SameAt(sys.sessions, serial, k);
    }
    assert sys.sessions.Keys == serial.Keys;
  }

  lemma {:induction false} MirrorsRun(sys: System, serial: Sessions, acts: seq<Action>)
    requires Isolated(sys, acts) && Mirrors(sys, serial)
    ensures Mirrors(RunActions(sys, acts), InWriteOrder(sys, serial, acts))
    decreases |acts|
  {
    if acts != [] {
      match acts[0] {
        case Read(e) =>
          MirrorsRead(sys, serial, e);
          hide Mirrors, Act;
          MirrorsRun(Act(sys, acts[0]), serial, acts[1..]);
        case Write(i, now) =>
          MirrorsWrite(sys, serial, i, now);
          hide Mirrors, Act, Next;
          MirrorsRun(Act(sys, acts[0]), Next(serial, sys.inFlight[i].event, now), acts[1..]);
      }
    }
  }

  lemma MirrorsRead(sys: System, serial: Sessions, e: Event)
    requires Mirrors(sys, serial) && !Busy(sys.inFlight, Target(e))
    ensures Mirrors(Act(sys, Read(e)), serial)
  {
    hide Target;
    var id, t := Target(e), Act(sys, Read(e));
    assert SameAt(sys.sessions, serial, id);
    assert GetOrInit(sys.sessions, id) == GetOrInit(serial, id);
    forall i | 0 <= i < |t.inFlight| ensures Current(t.sessions, serial, t.inFlight[i]) {
      if i < |sys.inFlight| {
        assert Current(sys.sessions, serial, sys.inFlight[i]) && Target(sys.inFlight[i].event) != id;
      }
    }
    forall k | !Busy(t.inFlight, k) ensures SameAt(t.sessions, serial, k) {
      assert Target(t.inFlight[|sys.inFlight|].event) == id;
      assert forall i :: 0 <= i < |sys.inFlight| ==> t.inFlight[i] == sys.inFlight[i];
      assert SameAt(sys.sessions, serial, k);
    }
  }

  lemma MirrorsWrite(sys: System, serial: Sessions, i: nat, now: int)
    requires Mirrors(sys, serial) && i < |sys.inFlight|
    ensures Mirrors(Act(sys, Write(i, now)), Next(serial, sys.inFlight[i].event, now))
  {
    hide Target, GetOrInit, HeadGoal, After, Next, Writes;
    var h, t := sys.inFlight[i], Act(sys, Write(i, now));
    var id, serial' := Target(h.event), Next(serial, h.event, now);
    SerialStep(serial, h.event, now);
    assert Current(sys.sessions, serial, h);
    assert t.sessions == sys.sessions[id := After(h.snapshot, h.event, now)];
    forall j | 0 <= j < |t.inFlight| ensures Current(t.sessions, serial', t.inFlight[j]) {
      var j' := if j < i then j else j + 1;
      assert t.inFlight[j] == sys.inFlight[j'] && Current(sys.sessions, serial, sys.inFlight[j']);
      SameReading(serial, serial', Target(sys.inFlight[j'].event));
    }
    forall k | !Busy(t.inFlight, k) ensures SameAt(t.sessions, serial', k) {
      if k != id {
        NotBusyBefore(sys.inFlight, i, k);
        assert SameAt(sys.sessions, serial, k);
      }
    }
  }

  lemma SameReading(a: Sessions, b: Sessions, id: string)
    requires SameAt(a, b, id)
    ensures GetOrInit(a, id) == GetOrInit(b, id)
  {
  }

  lemma NotBusyBefore(hs: seq<InFlight>, i: nat, k: string)
    requires i < |hs| && !Busy(hs[..i] + hs[i + 1..], k) && k != Target(hs[i].event)
    ensures !Busy(hs, k)
  {
    var rest := hs[..i] + hs[i + 1..];
    forall j | 0 <= j < |hs| ensures Target(hs[j].event) != k {
      if j != i {
        assert hs[j] == rest[if j < i then j else j - 1];
      }
    }
  }

  /** Two handlers of one session both read, `second` writes, then `first` writes. */
  function Overtaken(sessions: Sessions, first: Event, second: Event, now: int): Sessions {
    var bothRead := Act(Act(System(sessions, []), Read(first)), Read(second));
    Act(Act(bothRead, Write(1, now)), Write(0, now)).sessions
  }

  /** The write that comes last wins: what the overtaking handler did is lost. */
  lemma LostUpdate(sessions: Sessions, first: Event, second: Event, now: int)
    requires Target(first) == Target(second) && Writes(GetOrInit(sessions, Target(first)), first)
    ensures Overtaken(sessions, first, second, now) == Next(sessions, first, now)
  {
    hide After, Writes, Next;
    SerialStep(sessions, first, now);
    var id := Target(first);
    var s := GetOrInit(sessions, id);
    assert GetOrInit(sessions[id := s], id) == s;
    var done := After(s, first, now);
    assert sessions[id := s][id := s][id := After(s, second, now)][id := done] == sessions[id := done];
    assert sessions[id := s][id := s][id := done] == sessions[id := done];
  }

  /** Why beats must be serial: any beat that completes nothing, overtaken by one that
      completes the goal, brings the popped goal back, while one after the other they pop it. */
  lemma StaleWriteRestoresGoal(sessions: Sessions, first: Beat, second: Beat, now: int)
    requires SessionOf(first) == SessionOf(second)
    requires WellFormed(GetOrInit(sessions, SessionOf(first))) && Goals(GetOrInit(sessions, SessionOf(first))) != []
    requires Progress(first.beatIndex, first.totalBeats) != NaN
    requires !Completes(Progress(first.beatIndex, first.totalBeats))
    requires Completes(Progress(second.beatIndex, second.totalBeats))
    ensures
      var id, goals := SessionOf(first), Goals(GetOrInit(sessions, SessionOf(first)));
      var p := Progress(first.beatIndex, first.totalBeats);
      Goals(NextBeat(NextBeat(sessions, first, now), second, now)[id]) == goals[1..] &&
      Goals(Overtaken(sessions, BeatEvent(first), BeatEvent(second), now)[id])
        == goals[0 := goals[0].(progress := Clamp(p))]
  {
    hide BeatSession, Overtaken;
    var id := SessionOf(first);
    var s := GetOrInit(sessions, id);
    assert Goals(s)[0] in Goals(s);
    LostUpdate(sessions, BeatEvent(first), BeatEvent(second), now);
    BeatOnStack(s, first, now);
    var t := BeatSession(s, first, now);
    assert GetOrInit(NextBeat(sessions, first, now), id) == t;
    BeatOnStack(t, second, now);
  }

  /** A goal set while a beat is being handled is lost: the stack is as after the beat alone,
      where one after the other they leave the new goal on top. */
  lemma NewGoalLost(sessions: Sessions, beat: Beat, id: nat, goalType: GoalType, minutes: int, now: int)
    requires WellFormed(GetOrInit(sessions, SessionOf(beat))) && Goals(GetOrInit(sessions, SessionOf(beat))) != []
    requires Progress(beat.beatIndex, beat.totalBeats) != NaN
    ensures
      var e := GoalEvent(SessionOf(beat), id, goalType, minutes);
      var goals := Goals(GetOrInit(sessions, SessionOf(beat)));
      var p := Progress(beat.beatIndex, beat.totalBeats);
      Goals(Overtaken(sessions, BeatEvent(beat), e, now)[SessionOf(beat)])
        == (if Completes(p) then goals[1..] else goals[0 := goals[0].(progress := Clamp(p))]) &&
      Goals(Next(NextBeat(sessions, beat, now), e, now)[SessionOf(beat)])[0] == NewGoal(id, goalType, minutes, now)
  {
    hide BeatSession, Overtaken;
    var s := GetOrInit(sessions, SessionOf(beat));
    assert Goals(s)[0] in Goals(s);
    LostUpdate(sessions, BeatEvent(beat), GoalEvent(SessionOf(beat), id, goalType, minutes), now);
    BeatOnStack(s, beat, now);
  }
}
