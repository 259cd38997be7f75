/** The in-memory fixed-window rate limiter (rateLimit.ts, lines 15-54 and 181-190).
    The clock is an input and never runs backwards. */
module RateLimit {

  const WINDOW_MS := 60 * 1000
  const MAX_REQUESTS := 30
  const PRUNE_SIZE := 10_000

  datatype Record = Record(count: nat, windowStart: int)

  datatype Reply = Reply(count: nat, ttl: int)

  datatype Call = Call(key: string, now: int)

  type Store = map<string, Record>

  /** Math.ceil(ms / 1000). */
  function CeilSeconds(ms: int): int { -((-ms) / 1000) }

  /** Lines 33-40: the record of `key` after one more request. */
  function Touch(m: Store, c: Call, windowMs: nat): Record {
    if c.key !in m || c.now - m[c.key].windowStart > windowMs then Record(1, c.now)
    else Record(m[c.key].count + 1, m[c.key].windowStart)
  }

  predicate Stale(r: Record, now: int, windowMs: nat) {
    now - r.windowStart > windowMs * 2
  }

  function Prune(m: Store, now: int, windowMs: nat): Store {
    if |m| > PRUNE_SIZE then map k | k in m && !Stale(m[k], now, windowMs) :: m[k] else m
  }

  function ReplyOf(r: Record, now: int, windowMs: nat): Reply {
    Reply(r.count, CeilSeconds(r.windowStart + windowMs - now))
  }

  /** The store after a request: with the size-triggered prune, and without it. */
  function Next(m: Store, c: Call, windowMs: nat, pruning: bool): Store {
    var m' := m[c.key := Touch(m, c, windowMs)];
    if pruning then Prune(m', c.now, windowMs) else m'
  }

  /** All replies of a run. */
  function Replies(m: Store, cs: seq<Call>, windowMs: nat, pruning: bool): (rs: seq<Reply>)
    ensures |rs| == |cs|
    decreases |cs|
  {
    if cs == [] then []
    else
      [ReplyOf(Touch(m, cs[0], windowMs), cs[0].now, windowMs)] +
      Replies(Next(m, cs[0], windowMs, pruning), cs[1..], windowMs, pruning)
  }

  ghost predicate Ordered(cs: seq<Call>) {
    forall i, j :: 0 <= i < j < |cs| ==> cs[i].now <= cs[j].now
  }

  class InMemoryRateLimitStore {
    var requests: Store

    constructor ()
      ensures requests == map[]
    {
      requests := map[];
    }

    method Increment(key: string, windowMs: nat, now: int) returns (reply: Reply)
      modifies this
      ensures requests == Next(old(requests), Call(key, now), windowMs, true)
      ensures reply == ReplyOf(Touch(old(requests), Call(key, now), windowMs), now, windowMs)
    {
      var record := if key in requests then requests[key] else Record(0, now);
      if now - record.windowStart > windowMs {
        record := Record(0, now);
      }
      record := record.(count := record.count + 1);
      requests := requests[key := record];
      if |requests| > PRUNE_SIZE {
        PruneEntries(now, windowMs);
      }
      var ttl := CeilSeconds(record.windowStart + windowMs - now);
      reply := Reply(record.count, ttl);
    }

    /** Lines 44-48, in whatever order the entries come. */
    method PruneEntries(now: int, windowMs: nat)
      modifies this
      ensures requests == map k | k in old(requests) && !Stale(old(requests)[k], now, windowMs) :: old(requests)[k]
    {
      var todo := requests.Keys;
      while todo != {}
        invariant todo <= requests.Keys <= old(requests).Keys
        invariant forall k :: k in requests ==> requests[k] == old(requests)[k]
        invariant forall k :: k in old(requests) && k !in todo ==>
          (k in requests <==> !Stale(old(requests)[k], now, windowMs))
        decreases |todo|
      {
        var k :| k in todo;
        todo := todo - {k};
        if now - requests[k].windowStart > windowMs * 2 {
          requests := requests - {k};
        }
      }
    }

    /** verifyRateLimit (lines 181-190): None is admission, else the retryAfter. */
    method VerifyRateLimit(clientIp: string, now: int) returns (success: bool, retryAfter: int)
      modifies this
      ensures requests == Next(old(requests), Call(clientIp, now), WINDOW_MS, true)
      ensures
        var reply := ReplyOf(Touch(old(requests), Call(clientIp, now), WINDOW_MS), now, WINDOW_MS);
        success == Admitted(reply) && retryAfter == reply.ttl
    {
      var reply := Increment(clientIp, WINDOW_MS, now);
      success := reply.count <= MAX_REQUESTS;
      retryAfter := reply.ttl;
    }
  }

  predicate Admitted(r: Reply) { r.count <= MAX_REQUESTS }

  /** `p` is `u` less some records whose window has already run out. */
  ghost predicate Agrees(p: Store, u: Store, now: int, windowMs: nat) {
    p.Keys <= u.Keys &&
    (forall k :: k in p ==> p[k] == u[k]) &&
    (forall k :: k in u && k !in p ==> now - u[k].windowStart > windowMs)
  }

  lemma AgreesStep(p: Store, u: Store, c: Call, windowMs: nat, now: int)
    requires Agrees(p, u, now, windowMs) && now <= c.now
    ensures Touch(p, c, windowMs) == Touch(u, c, windowMs)
    ensures Agrees(Next(p, c, windowMs, true), Next(u, c, windowMs, false), c.now, windowMs)
  {
  }

  /** Pruning is invisible: every reply is the one a store that never deletes would give. */
  lemma PruningInvisible(cs: seq<Call>, windowMs: nat)
    requires Ordered(cs)
    ensures Replies(map[], cs, windowMs, true) == Replies(map[], cs, windowMs, false)
  {
    PruningInvisibleFrom(map[], map[], cs, windowMs, if cs == [] then 0 else cs[0].now);
  }

  lemma {:induction false} PruningInvisibleFrom(p: Store, u: Store, cs: seq<Call>, windowMs: nat, now: int)
    requires Ordered(cs) && Agrees(p, u, now, windowMs) && (cs != [] ==> now <= cs[0].now)
    ensures Replies(p, cs, windowMs, true) == Replies(u, cs, windowMs, false)
    decreases |cs|
  {
    if cs != [] {
      AgreesStep(p, u, cs[0], windowMs, now);
      hide Agrees, Next, Touch;
      var p', u' := Next(p, cs[0], windowMs, true), Next(u, cs[0], windowMs, false);
      PruningInvisibleFrom(p', u', cs[1..], windowMs, cs[0].now);
    }
  }

  /** How many requests of `key` made within [a, a + windowMs] are admitted. */
  function AdmittedIn(cs: seq<Call>, rs: seq<Reply>, key: string, a: int, windowMs: nat): nat
    requires |cs| == |rs|
  {
    if cs == [] then 0
    else
      (if cs[0].key == key && a <= cs[0].now <= a + windowMs && Admitted(rs[0]) then 1 else 0) +
      AdmittedIn(cs[1..], rs[1..], key, a, windowMs)
  }

  /** What the record of `key` still allows from time `a` on, within [a, a + windowMs]:
      the rest of its own window, and one more window if its own began before `a`. */
  function Allowance(m: Store, key: string, a: int): nat {
    if key !in m then MAX_REQUESTS
    else
      (if m[key].count <= MAX_REQUESTS then MAX_REQUESTS - m[key].count else 0) +
      (if m[key].windowStart < a then MAX_REQUESTS else 0)
  }

  ghost predicate Counted(m: Store) {
    forall k :: k in m ==> m[k].count >= 1
  }

  lemma {:induction false} AllowanceSuffices(m: Store, cs: seq<Call>, key: string, a: int, windowMs: nat)
    requires Ordered(cs) && (cs != [] ==> a <= cs[0].now)
    ensures AdmittedIn(cs, Replies(m, cs, windowMs, false), key, a, windowMs) <= Allowance(m, key, a)
    decreases |cs|
  {
    if cs != [] {
      var m' := Next(m, cs[0], windowMs, false);
      AllowanceSuffices(m', cs[1..], key, a, windowMs);
      var rs := Replies(m, cs, windowMs, false);
      assert rs[1..] == Replies(m', cs[1..], windowMs, false);
      if cs[0].key == key && cs[0].now > a + windowMs {
        NothingLater(cs, rs, key, a, windowMs);
      }
    }
  }

  /** Requests before `a` only use the first place of a window up, so at most
      2 * MAX_REQUESTS - 1 remain. */
  lemma {:induction false} BoundFrom(m: Store, cs: seq<Call>, key: string, a: int, windowMs: nat)
    requires Ordered(cs) && Counted(m)
    ensures AdmittedIn(cs, Replies(m, cs, windowMs, false), key, a, windowMs) <= 2 * MAX_REQUESTS - 1
    decreases |cs|
  {
    if cs != [] && cs[0].now < a {
      BoundFrom(Next(m, cs[0], windowMs, false), cs[1..], key, a, windowMs);
      assert Replies(m, cs, windowMs, false)[1..] == Replies(Next(m, cs[0], windowMs, false), cs[1..], windowMs, false);
    } else {
      AllowanceSuffices(m, cs, key, a, windowMs);
    }
  }

  lemma {:induction false} NothingLater(cs: seq<Call>, rs: seq<Reply>, key: string, a: int, windowMs: nat)
    requires |cs| == |rs| && Ordered(cs) && (cs != [] ==> cs[0].now > a + windowMs)
    ensures AdmittedIn(cs, rs, key, a, windowMs) == 0
  {
    if cs != [] {
      NothingLater(cs[1..], rs[1..], key, a, windowMs);
    }
  }

  /** Over any run, any interval of one window's length admits fewer than twice the limit. */
  lemma SlidingBound(cs: seq<Call>, key: string, a: int, windowMs: nat)
    requires Ordered(cs)
    ensures AdmittedIn(cs, Replies(map[], cs, windowMs, true), key, a, windowMs) <= 2 * MAX_REQUESTS - 1
  {
    PruningInvisible(cs, windowMs);
    BoundFrom(map[], cs, key, a, windowMs);
  }

  /** How many requests of `key` are admitted in the window that starts at `start`. */
  function AdmittedInWindow(m: Store, cs: seq<Call>, key: string, start: int, windowMs: nat, pruning: bool): nat
    decreases |cs|
  {
    if cs == [] then 0
    else
      var r := Touch(m, cs[0], windowMs);
      (if cs[0].key == key && r.windowStart == start && r.count <= MAX_REQUESTS then 1 else 0) +
      AdmittedInWindow(Next(m, cs[0], windowMs, pruning), cs[1..], key, start, windowMs, pruning)
  }

  /** Pruning does not change what a window admits. */
  lemma {:induction false} WindowsAgree(
      p: Store, u: Store, cs: seq<Call>, key: string, start: int, windowMs: nat, now: int)
    requires Ordered(cs) && Agrees(p, u, now, windowMs) && (cs != [] ==> now <= cs[0].now)
    ensures AdmittedInWindow(p, cs, key, start, windowMs, true) == AdmittedInWindow(u, cs, key, start, windowMs, false)
    decreases |cs|
  {
    if cs != [] {
      AgreesStep(p, u, cs[0], windowMs, now);
      hide Agrees, Next, Touch;
      var p', u' := Next(p, cs[0], windowMs, true), Next(u, cs[0], windowMs, false);
      WindowsAgree(p', u', cs[1..], key, start, windowMs, cs[0].now);
    }
  }

  /** A window admits no more than the limit, and nothing once a later one has begun, in
      every run of the store with its prune. */
  lemma WindowBound(m: Store, cs: seq<Call>, key: string, start: int, windowMs: nat)
    requires Ordered(cs) && (cs != [] ==> Begun(m, cs[0].now))
    ensures AdmittedInWindow(m, cs, key, start, windowMs, true) <=
      if key !in m || m[key].windowStart < start then MAX_REQUESTS
      else if m[key].windowStart > start || m[key].count > MAX_REQUESTS then 0
      else MAX_REQUESTS - m[key].count
  {
    WindowsAgree(m, m, cs, key, start, windowMs, if cs == [] then 0 else cs[0].now);
    WindowBoundFrom(m, cs, key, start, windowMs);
  }

  /** Window starts only move forward, and by more than the window each time. */
  lemma {:induction false} WindowBoundFrom(m: Store, cs: seq<Call>, key: string, start: int, windowMs: nat)
    requires Ordered(cs) && (cs != [] ==> Begun(m, cs[0].now))
    ensures AdmittedInWindow(m, cs, key, start, windowMs, false) <=
      if key !in m || m[key].windowStart < start then MAX_REQUESTS
      else if m[key].windowStart > start || m[key].count > MAX_REQUESTS then 0
      else MAX_REQUESTS - m[key].count
    decreases |cs|
  {
    if cs != [] {
      if cs[0].key in m {
        WindowStartsApart(m, cs[0], windowMs);
      }
      WindowBoundFrom(Next(m, cs[0], windowMs, false), cs[1..], key, start, windowMs);
    }
  }

  lemma WindowStartsApart(m: Store, c: Call, windowMs: nat)
    requires c.key in m
    ensures
      var r := Touch(m, c, windowMs);
      r == m[c.key].(count := m[c.key].count + 1) || (r.count == 1 && r.windowStart > m[c.key].windowStart + windowMs)
  {
  }

  /** `n` requests of `key` at the same moment. */
  function Burst(key: string, now: int, n: nat): (cs: seq<Call>)
    ensures |cs| == n && forall i :: 0 <= i < n ==> cs[i] == Call(key, now)
  {
    if n == 0 then [] else [Call(key, now)] + Burst(key, now, n - 1)
  }

  lemma AdmittedCons(m: Store, c: Call, rest: seq<Call>, a: int, windowMs: nat)
    ensures
      AdmittedIn([c] + rest, Replies(m, [c] + rest, windowMs, false), c.key, a, windowMs) ==
      (if a <= c.now <= a + windowMs && Touch(m, c, windowMs).count <= MAX_REQUESTS then 1 else 0) +
      AdmittedIn(rest, Replies(Next(m, c, windowMs, false), rest, windowMs, false), c.key, a, windowMs)
  {
    assert ([c] + rest)[1..] == rest;
    assert Replies(m, [c] + rest, windowMs, false)[1..] == Replies(Next(m, c, windowMs, false), rest, windowMs, false);
  }

  lemma {:induction false} BurstAdmitted(
      m: Store, n: nat, key: string, now: int, rest: seq<Call>, a: int, windowMs: nat)
    requires key in m && 0 <= now - m[key].windowStart <= windowMs && m[key].count + n <= MAX_REQUESTS
    requires a <= now <= a + windowMs
    ensures
      var cs := Burst(key, now, n) + rest;
      var m' := m[key := Record(m[key].count + n, m[key].windowStart)];
      AdmittedIn(cs, Replies(m, cs, windowMs, false), key, a, windowMs)
        == n + AdmittedIn(rest, Replies(m', rest, windowMs, false), key, a, windowMs)
  {
    var cs := Burst(key, now, n) + rest;
    if n == 0 {
      assert cs == rest && m[key := Record(m[key].count, m[key].windowStart)] == m;
    } else {
      var c, tail := Call(key, now), Burst(key, now, n - 1) + rest;
      assert cs == [c] + tail;
      AdmittedCons(m, c, tail, a, windowMs);
      var m1 := Next(m, c, windowMs, false);
      assert m1 == m[key := Record(m[key].count + 1, m[key].windowStart)];
      hide Replies, AdmittedIn, Burst, Next;
      BurstAdmitted(m1, n - 1, key, now, rest, a, windowMs);
      assert m1[key := Record(m[key].count + n, m[key].windowStart)]
          == m[key := Record(m[key].count + n, m[key].windowStart)];
    }
  }

  /** One request, a full burst as its window closes, and a full burst just after. */
  function WorstCase(key: string, windowMs: nat): seq<Call> {
    [Call(key, 0)] + (Burst(key, windowMs, MAX_REQUESTS - 1) +
      ([Call(key, windowMs + 1)] + Burst(key, windowMs + 1, MAX_REQUESTS - 1)))
  }

  lemma WorstCaseOrdered(key: string, windowMs: nat)
    ensures Ordered(WorstCase(key, windowMs))
  {
    hide Burst;
    var cs := WorstCase(key, windowMs);
    assert forall i :: 0 <= i < |cs| ==>
      cs[i].now == if i == 0 then 0 else if i < MAX_REQUESTS then windowMs else windowMs + 1;
  }

  /** The bound is attained. */
  lemma SlidingBoundAttained(key: string, windowMs: nat)
    requires windowMs > 0
    ensures Ordered(WorstCase(key, windowMs))
    ensures AdmittedIn(WorstCase(key, windowMs), Replies(map[], WorstCase(key, windowMs), windowMs, true),
                       key, windowMs, windowMs) == 2 * MAX_REQUESTS - 1
  {
    hide Replies, AdmittedIn, Burst;
    var n, late := MAX_REQUESTS - 1, windowMs + 1;
    WorstCaseOrdered(key, windowMs);
    PruningInvisible(WorstCase(key, windowMs), windowMs);
    var last := Burst(key, late, n);
    var second := [Call(key, late)] + last;
    AdmittedCons(map[], Call(key, 0), Burst(key, windowMs, n) + second, windowMs, windowMs);
    var m1: Store := map[key := Record(1, 0)];
    var m2 := m1[key := Record(MAX_REQUESTS, 0)];
    BurstAdmitted(m1, n, key, windowMs, second, windowMs, windowMs);
    AdmittedCons(m2, Call(key, late), last, windowMs, windowMs);
    var m3 := Next(m2, Call(key, late), windowMs, false);
    BurstAdmitted(m3, n, key, late, [], windowMs, windowMs);
    assert last + [] == last;
    NoCalls(m3[key := Record(m3[key].count + n, m3[key].windowStart)], key, windowMs, windowMs);
  }

  lemma NoCalls(m: Store, key: string, a: int, windowMs: nat)
    ensures AdmittedIn([], Replies(m, [], windowMs, false), key, a, windowMs) == 0
  {
  }

  /** Windows of a record never begin in the future. */
  ghost predicate Begun(m: Store, now: int) {
    forall k :: k in m ==> m[k].windowStart <= now
  }

  /** Every ttl of every run lies between 0 and the window in whole seconds. */
  lemma {:induction false} TtlInRange(m: Store, cs: seq<Call>, windowMs: nat)
    requires Ordered(cs) && (cs != [] ==> Begun(m, cs[0].now))
    ensures forall i :: 0 <= i < |cs| ==>
      0 <= Replies(m, cs, windowMs, true)[i].ttl <= CeilSeconds(windowMs)
    decreases |cs|
  {
    if cs != [] {
      TtlInRange(Next(m, cs[0], windowMs, true), cs[1..], windowMs);
    }
  }

  /** After a refusal, a request strictly later than retryAfter seconds is admitted as long
      as the key made none in between, whatever other keys did. */
  lemma RetryAfterSuffices(m: Store, refused: Call, others: seq<Call>, retry: Call, windowMs: nat)
    requires Ordered([refused] + others + [retry])
    requires retry.key == refused.key && forall c :: c in others ==> c.key != refused.key
    requires !Admitted(Replies(m, [refused], windowMs, true)[0])
    requires retry.now > refused.now + 1000 * Replies(m, [refused], windowMs, true)[0].ttl
    ensures Admitted(Replies(AfterAll(m, [refused] + others, windowMs), [retry], windowMs, true)[0])
  {
    var m1 := Next(m, refused, windowMs, true);
    assert ([refused] + others)[1..] == others;
    OthersLeaveAlone(m1, others, refused.key, windowMs);
  }

  function AfterAll(m: Store, cs: seq<Call>, windowMs: nat): Store
    decreases |cs|
  {
    if cs == [] then m else AfterAll(Next(m, cs[0], windowMs, true), cs[1..], windowMs)
  }

  /** Requests of other keys can only prune a record, never change it. */
  lemma {:induction false} OthersLeaveAlone(m: Store, cs: seq<Call>, key: string, windowMs: nat)
    requires forall c :: c in cs ==> c.key != key
    ensures key in AfterAll(m, cs, windowMs) ==> key in m && AfterAll(m, cs, windowMs)[key] == m[key]
    decreases |cs|
  {
    if cs != [] {
      assert cs[0] in cs;
      OthersLeaveAlone(Next(m, cs[0], windowMs, true), cs[1..], key, windowMs);
    }
  }

  /** Waiting exactly retryAfter seconds is enough only when the rest of the window is not
      a whole number of seconds: the reset test is strict. */
  lemma RetryAtRetryAfterIff(m: Store, refused: Call, windowMs: nat)
    requires !Admitted(Replies(m, [refused], windowMs, true)[0])
    ensures
      var reply := Replies(m, [refused], windowMs, true)[0];
      var r := Touch(m, refused, windowMs);
      var retry := Call(refused.key, refused.now + 1000 * reply.ttl);
      Admitted(Replies(Next(m, refused, windowMs, true), [retry], windowMs, true)[0]) <==>
        (r.windowStart + windowMs - refused.now) % 1000 != 0
  {
  }

  function Requests(cs: seq<Call>, key: string): nat {
    if cs == [] then 0 else (if cs[0].key == key then 1 else 0) + Requests(cs[1..], key)
  }

  /** Within the window of a record every request of its key is told its number, counted on
      the requests, whatever other keys do and whatever is pruned. */
  lemma {:induction false} NumberedInWindow(m: Store, cs: seq<Call>, key: string, windowMs: nat, i: nat)
    requires key in m && i < |cs| && cs[i].key == key
    requires forall c :: c in cs ==> c.now <= m[key].windowStart + windowMs
    ensures
      var reply := Replies(m, cs, windowMs, true)[i];
      reply.count == m[key].count + Requests(cs[..i + 1], key) &&
      1000 * (reply.ttl - 1) < m[key].windowStart + windowMs - cs[i].now <= 1000 * reply.ttl
    decreases |cs|
  {
    assert cs[0] in cs && forall c :: c in cs[1..] ==> c in cs;
    var t := Next(m, cs[0], windowMs, true);
    assert cs[..i + 1][0] == cs[0];
    if i > 0 {
      assert cs[..i + 1][1..] == cs[1..][..i];
      NumberedInWindow(t, cs[1..], key, windowMs, i - 1);
    } else {
      assert cs[..1][1..] == [];
    }
  }

  /** The first request of a key, or of a new window, starts a window of windowMs; in it the
      first thirty requests of the key are admitted, and no others. */
  lemma FirstThirty(m: Store, cs: seq<Call>, windowMs: nat, i: nat)
    requires i < |cs| && cs[i].key == cs[0].key
    requires cs[0].key in m ==> cs[0].now - m[cs[0].key].windowStart > windowMs
    requires forall c :: c in cs ==> c.now <= cs[0].now + windowMs
    ensures Admitted(Replies(m, cs, windowMs, true)[i]) <==> Requests(cs[..i + 1], cs[0].key) <= 30
  {
    var key, t := cs[0].key, Next(m, cs[0], windowMs, true);
    assert cs[..i + 1][0] == cs[0] && cs[..i + 1][1..] == cs[1..][..i];
    if i > 0 {
      NumberedInWindow(t, cs[1..], key, windowMs, i - 1);
    }
  }

  /** What a request does to the records of the other keys: nothing, until there are more
      than 10000 records; then those older than two windows go, and only those. */
  lemma OthersKept(m: Store, c: Call, windowMs: nat, key: string)
    requires key != c.key
    ensures
      var t := Next(m, c, windowMs, true);
      if |m.Keys + {c.key}| > 10_000 && key in m && c.now - m[key].windowStart > 2 * windowMs then key !in t
      else (key in t <==> key in m) && (key in m ==> t[key] == m[key])
  {
    assert m[c.key := Touch(m, c, windowMs)].Keys == m.Keys + {c.key};
  }
}
