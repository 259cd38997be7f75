/** The AI gateway's circuit breaker accounting (GeminiAIGateway.ts, lines 110-191), over a
    cache with expiry times. Calls are serial: one check, then at most one outcome. */
module CircuitBreaker {
  import opened Common

  const DAY_MS := 60 * 60 * 24 * 1000

  /** `sharedCounters`: whether increment(key) and get(key) see the same entry, as CachePort
      and the Redis adapter have it; the in-memory adapter keeps them apart. */
  datatype Config = Config(
    tokenBudget: int,
    costThreshold: real,
    failureThreshold: int,
    resetMs: nat,
    sharedCounters: bool
  )

  datatype Cell<V> = Absent | Cell(value: V, expiresAt: int)

  datatype State = State(open: Cell<bool>, cost: Cell<real>, tokens: Cell<int>, failures: Cell<int>)

  const EMPTY := State(Absent, Absent, Absent, Absent)

  /** An entry is read until its expiry has passed. */
  predicate Live<V>(c: Cell<V>, now: int) { c.Cell? && now <= c.expiresAt }

  function Read<V>(c: Cell<V>, now: int, otherwise: V): V { if Live(c, now) then c.value else otherwise }

  /** toFixed(6), read back by parseFloat: ties go up in magnitude. */
  function ToFixed6(x: real): real {
    if x < 0.0 then -((-x * 1000000.0 + 0.5).Floor as real) / 1000000.0
    else (x * 1000000.0 + 0.5).Floor as real / 1000000.0
  }

  datatype Verdict = Allowed | Refused

  /** What checkCircuitBreaker answers (lines 123-145). */
  function Check(cfg: Config, s: State, now: int): Verdict {
    if Live(s.open, now) || Read(s.cost, now, 0.0) >= cfg.costThreshold || Read(s.tokens, now, 0) >= cfg.tokenBudget
    then Refused else Allowed
  }

  function Open(cfg: Config, s: State, now: int): State { s.(open := Cell(true, now + cfg.resetMs)) }

  /** The check reopens the circuit when a budget refuses the call. */
  function AfterCheck(cfg: Config, s: State, now: int): State {
    if Live(s.open, now) || Check(cfg, s, now) == Allowed then s else Open(cfg, s, now)
  }

  /** recordSuccess (lines 156-172). */
  function AfterSuccess(cfg: Config, s: State, tokensUsed: nat, costUsd: real, now: int): State {
    var counted := Read(s.tokens, now, 0) + if cfg.sharedCounters then 1 else 0;
    s.(failures := Absent,
       tokens := Cell(counted + tokensUsed, now + DAY_MS),
       cost := Cell(ToFixed6(Read(s.cost, now, 0.0) + costUsd), now + DAY_MS))
  }

  /** recordFailure (lines 174-180): the counter expires resetMs after its creation. */
  function AfterFailure(cfg: Config, s: State, now: int): State {
    var n := Read(s.failures, now, 0) + 1;
    var t := s.(failures := Cell(n, if Live(s.failures, now) then s.failures.expiresAt else now + cfg.resetMs));
    if n >= cfg.failureThreshold then Open(cfg, t, now) else t
  }

  class Breaker {
    const cfg: Config
    var open: Cell<bool>
    var cost: Cell<real>
    var tokens: Cell<int>
    var failures: Cell<int>

    ghost function Abstract(): State
      reads this
    {
      State(open, cost, tokens, failures)
    }

    constructor (cfg: Config)
      ensures this.cfg == cfg && Abstract() == EMPTY
    {
      this.cfg := cfg;
      open, cost, tokens, failures := Absent, Absent, Absent, Absent;
    }

    method CheckCircuitBreaker(now: int) returns (verdict: Verdict)
      modifies this`open
      ensures verdict == Check(cfg, old(Abstract()), now)
      ensures Abstract() == AfterCheck(cfg, old(Abstract()), now)
    {
      if Live(open, now) {
        return Refused;
      }
      var totalCostUsd := Read(cost, now, 0.0);
      if totalCostUsd >= cfg.costThreshold {
        OpenCircuit(now);
        return Refused;
      }
      var tokensUsed := Read(tokens, now, 0);
      if tokensUsed >= cfg.tokenBudget {
        OpenCircuit(now);
        return Refused;
      }
      verdict := Allowed;
    }

    method OpenCircuit(now: int)
      modifies this`open
      ensures Abstract() == Open(cfg, old(Abstract()), now)
    {
      open := Cell(true, now + cfg.resetMs);
    }

    method RecordSuccess(tokensUsed: nat, costUsd: real, now: int)
      modifies this`failures, this`tokens, this`cost
      ensures Abstract() == AfterSuccess(cfg, old(Abstract()), tokensUsed, costUsd, now)
    {
      failures := Absent;
      var currentTokens := Read(tokens, now, 0);
      if cfg.sharedCounters {
        currentTokens := currentTokens + 1;  // cache.increment adds one before the add below
      }
      tokens := Cell(currentTokens + tokensUsed, now + DAY_MS);
      var currentCost := Read(cost, now, 0.0);
      cost := Cell(ToFixed6(currentCost + costUsd), now + DAY_MS);
    }

    method RecordFailure(now: int)
      modifies this`failures, this`open
      ensures Abstract() == AfterFailure(cfg, old(Abstract()), now)
    {
      if Live(failures, now) {
        failures := failures.(value := failures.value + 1);
      } else {
        failures := Cell(1, now + cfg.resetMs);
      }
      if failures.value >= cfg.failureThreshold {
        OpenCircuit(now);
      }
    }
  }

  /** What follows an allowed check. A response that arrives but does not parse is recorded
      as a success and then as a failure; usage may be missing. */
  datatype Outcome = Outcome(usage: Option<(nat, real)>, fails: bool)

  /** One gateway call: checked at `start`, recorded at `finish`. */
  datatype Call = Call(start: int, finish: int, outcome: Outcome)

  function AfterCall(cfg: Config, s: State, c: Call): State {
    var t := AfterCheck(cfg, s, c.start);
    if Check(cfg, s, c.start) == Refused then t
    else
      var u := if c.outcome.usage.Some? then
                 AfterSuccess(cfg, t, c.outcome.usage.value.0, c.outcome.usage.value.1, c.finish)
               else t;
      if c.outcome.fails then AfterFailure(cfg, u, c.finish) else u
  }

  function Run(cfg: Config, s: State, cs: seq<Call>): State
    decreases |cs|
  {
    if cs == [] then s else Run(cfg, AfterCall(cfg, s, cs[0]), cs[1..])
  }

  /** The usage recorded by the allowed calls of a run, in order. */
  function Recorded(cfg: Config, s: State, cs: seq<Call>): seq<(nat, real)>
    decreases |cs|
  {
    if cs == [] then []
    else
      (if Check(cfg, s, cs[0].start) == Allowed && cs[0].outcome.usage.Some? then [cs[0].outcome.usage.value] else []) +
      Recorded(cfg, AfterCall(cfg, s, cs[0]), cs[1..])
  }

  function SumTokens(us: seq<(nat, real)>): nat {
    if us == [] then 0 else us[0].0 + SumTokens(us[1..])
  }

  function SumCosts(us: seq<(nat, real)>): real {
    if us == [] then 0.0 else us[0].1 + SumCosts(us[1..])
  }

  /** All calls fall between `from` and `to`. */
  ghost predicate Within(cs: seq<Call>, from: int, to: int) {
    cs == [] || (from <= cs[0].start <= to && from <= cs[0].finish <= to && Within(cs[1..], from, to))
  }

  /** No entry of `s` can have expired by `to`. */
  ghost predicate Fresh(s: State, to: int) {
    (s.tokens.Cell? ==> to <= s.tokens.expiresAt) && (s.cost.Cell? ==> to <= s.cost.expiresAt)
  }

  function TokensOf(s: State): int { if s.tokens.Cell? then s.tokens.value else 0 }

  function CostOf(s: State): real { if s.cost.Cell? then s.cost.value else 0.0 }

  /** Within a day the token counter is the sum of the recorded tokens, plus one for every
      recorded success when counters and values share their entries. */
  lemma {:induction false} TokensExact(cfg: Config, s: State, cs: seq<Call>, from: int)
    requires Within(cs, from, from + DAY_MS) && Fresh(s, from + DAY_MS)
    ensures
      var us := Recorded(cfg, s, cs);
      TokensOf(Run(cfg, s, cs)) == TokensOf(s) + SumTokens(us) + if cfg.sharedCounters then |us| else 0
    decreases |cs|
  {
    if cs != [] {
      CallEffect(cfg, s, cs[0], from);
      hide AfterCall, Check;
      TokensExact(cfg, AfterCall(cfg, s, cs[0]), cs[1..], from);
      var more := Recorded(cfg, AfterCall(cfg, s, cs[0]), cs[1..]);
      if Check(cfg, s, cs[0].start) == Allowed && cs[0].outcome.usage.Some? {
        assert ([cs[0].outcome.usage.value] + more)[1..] == more;
      } else {
        assert [] + more == more;
      }
    }
  }

  /** What one call does to the two usage counters. */
  lemma CallEffect(cfg: Config, s: State, c: Call, from: int)
    requires Within([c], from, from + DAY_MS) && Fresh(s, from + DAY_MS)
    ensures
      var t := AfterCall(cfg, s, c);
      Fresh(t, from + DAY_MS) &&
      if Check(cfg, s, c.start) == Allowed && c.outcome.usage.Some? then
        TokensOf(t) == TokensOf(s) + c.outcome.usage.value.0 + (if cfg.sharedCounters then 1 else 0) &&
        CostOf(t) == ToFixed6(CostOf(s) + c.outcome.usage.value.1)
      else TokensOf(t) == TokensOf(s) && CostOf(t) == CostOf(s)
  {
    hide ToFixed6;
  }

  /** Rounding to six decimals moves a value by at most half a millionth. */
  lemma ToFixed6Error(x: real)
    ensures -0.0000005 <= ToFixed6(x) - x <= 0.0000005
  {
    var y := if x < 0.0 then -x * 1000000.0 else x * 1000000.0;
    assert (y + 0.5).Floor as real <= y + 0.5 < (y + 0.5).Floor as real + 1.0;
  }

  /** After k recorded successes the cost counter is within k half-millionths of the sum. */
  lemma {:induction false} CostDrift(cfg: Config, s: State, cs: seq<Call>, from: int)
    requires Within(cs, from, from + DAY_MS) && Fresh(s, from + DAY_MS)
    ensures
      var us := Recorded(cfg, s, cs);
      var drift := CostOf(Run(cfg, s, cs)) - (CostOf(s) + SumCosts(us));
      -0.0000005 * |us| as real <= drift <= 0.0000005 * |us| as real
    decreases |cs|
  {
    if cs != [] {
      CallEffect(cfg, s, cs[0], from);
      hide AfterCall, Check, ToFixed6;
      CostDrift(cfg, AfterCall(cfg, s, cs[0]), cs[1..], from);
      var more := Recorded(cfg, AfterCall(cfg, s, cs[0]), cs[1..]);
      if Check(cfg, s, cs[0].start) == Allowed && cs[0].outcome.usage.Some? {
        ToFixed6Error(CostOf(s) + cs[0].outcome.usage.value.1);
        assert ([cs[0].outcome.usage.value] + more)[1..] == more;
      } else {
        assert [] + more == more;
      }
    }
  }

  /** In every serial run, expiry or not, the counter overshoots the budget by at most the
      largest single call. */
  lemma {:induction false} TokensBounded(cfg: Config, s: State, cs: seq<Call>, largest: nat)
    requires cfg.tokenBudget > 0 && TokensOf(s) <= cfg.tokenBudget + largest
    requires forall c :: c in cs && c.outcome.usage.Some? ==> c.outcome.usage.value.0 <= largest
    requires ForwardInTime(cs)
    ensures TokensOf(Run(cfg, s, cs)) <= cfg.tokenBudget + largest
    decreases |cs|
  {
    if cs != [] {
      assert cs[0] in cs && forall c :: c in cs[1..] ==> c in cs;
      TokensBounded(cfg, AfterCall(cfg, s, cs[0]), cs[1..], largest);
    }
  }

  /** A call is recorded no earlier than it was checked. */
  ghost predicate ForwardInTime(cs: seq<Call>) {
    cs == [] || (cs[0].start <= cs[0].finish && ForwardInTime(cs[1..]))
  }

  /** Once the token budget or the cost threshold is reached, every later check refuses
      while the counters last, and refusals leave them alone. */
  lemma {:induction false} RefusesForever(cfg: Config, s: State, cs: seq<Call>, from: int)
    requires Within(cs, from, from + DAY_MS) && Fresh(s, from + DAY_MS)
    requires
      (s.tokens.Cell? && s.tokens.value >= cfg.tokenBudget) ||
      (s.cost.Cell? && s.cost.value >= cfg.costThreshold)
    ensures forall i :: 0 <= i < |cs| ==> Check(cfg, Run(cfg, s, cs[..i]), cs[i].start) == Refused
    ensures TokensOf(Run(cfg, s, cs)) == TokensOf(s) && CostOf(Run(cfg, s, cs)) == CostOf(s)
    decreases |cs|
  {
    if cs != [] {
      var t := AfterCall(cfg, s, cs[0]);
      assert Check(cfg, s, cs[0].start) == Refused;
      assert t.tokens == s.tokens && t.cost == s.cost;
      RefusesForever(cfg, t, cs[1..], from);
      forall i | 0 <= i < |cs| ensures Check(cfg, Run(cfg, s, cs[..i]), cs[i].start) == Refused {
        if i == 0 {
          assert cs[..0] == [];
        } else {
          assert cs[..i][0] == cs[0] && cs[..i][1..] == cs[1..][..i - 1];
          assert cs[i] == cs[1..][i - 1];
        }
      }
    }
  }

  /** Failures recorded since the last recorded success, counted from `already`. */
  function FailuresSince(cfg: Config, s: State, cs: seq<Call>, already: nat): nat
    decreases |cs|
  {
    if cs == [] then already
    else
      var o, allowed := cs[0].outcome, Check(cfg, s, cs[0].start) == Allowed;
      var base := if allowed && o.usage.Some? then 0 else already;
      FailuresSince(cfg, AfterCall(cfg, s, cs[0]), cs[1..], base + if allowed && o.fails then 1 else 0)
  }

  /** The failure counter, within one reset period, with the circuit it drives. */
  ghost predicate FailuresTracked(cfg: Config, s: State, n: nat, to: int) {
    n <= cfg.failureThreshold &&
    (if s.failures.Absent? then n == 0 else s.failures.value == n && to <= s.failures.expiresAt) &&
    (n == cfg.failureThreshold ==> s.open.Cell? && to <= s.open.expiresAt)
  }

  /** Within one reset period the failure counter is the number of failures since the last
      recorded success (a failure after a success of the same call counts), and it never
      passes the threshold, because reaching it opens the circuit for the rest. */
  lemma {:induction false} FailuresExact(cfg: Config, s: State, cs: seq<Call>, n: nat, from: int)
    requires cfg.failureThreshold > 0 && Within(cs, from, from + cfg.resetMs)
    requires FailuresTracked(cfg, s, n, from + cfg.resetMs)
    ensures FailuresTracked(cfg, Run(cfg, s, cs), FailuresSince(cfg, s, cs, n), from + cfg.resetMs)
    decreases |cs|
  {
    if cs != [] {
      FailureStep(cfg, s, cs[0], n, from);
      var o, allowed := cs[0].outcome, Check(cfg, s, cs[0].start) == Allowed;
      var base: nat := if allowed && o.usage.Some? then 0 else n;
      hide AfterCall, Check, FailuresTracked;
      FailuresExact(cfg, AfterCall(cfg, s, cs[0]), cs[1..], base + if allowed && o.fails then 1 else 0, from);
    }
  }

  lemma FailureStep(cfg: Config, s: State, c: Call, n: nat, from: int)
    requires cfg.failureThreshold > 0 && Within([c], from, from + cfg.resetMs)
    requires FailuresTracked(cfg, s, n, from + cfg.resetMs)
    ensures
      var allowed := Check(cfg, s, c.start) == Allowed;
      var base := if allowed && c.outcome.usage.Some? then 0 else n;
      FailuresTracked(cfg, AfterCall(cfg, s, c), base + if allowed && c.outcome.fails then 1 else 0, from + cfg.resetMs)
  {
    hide ToFixed6;
  }

  /** Some limit has been reached: tokens, cost, or `n` failures in a row. */
  predicate LimitReached(cfg: Config, s: State, n: nat) {
    TokensOf(s) >= cfg.tokenBudget || CostOf(s) >= cfg.costThreshold || n == cfg.failureThreshold
  }

  /** A state reached within one reset period; the circuit is open only for a reason. */
  ghost predicate Consistent(cfg: Config, s: State, n: nat, to: int) {
    FailuresTracked(cfg, s, n, to) && Fresh(s, to) && (s.open.Cell? ==> LimitReached(cfg, s, n))
  }

  /** The source's defaults replace zero limits; a reset period is at most a day. */
  predicate Sensible(cfg: Config) {
    cfg.tokenBudget > 0 && cfg.costThreshold > 0.0 && cfg.failureThreshold > 0 && cfg.resetMs <= DAY_MS
  }

  /** Within one reset period of a fresh breaker a check refuses exactly when a limit has been
      reached by the calls so far: never early, never late. */
  lemma RefusedIffLimitReached(cfg: Config, cs: seq<Call>, from: int, now: int)
    requires Sensible(cfg) && Within(cs, from, from + cfg.resetMs) && from <= now <= from + cfg.resetMs
    ensures Check(cfg, Run(cfg, EMPTY, cs), now) == Refused <==>
      LimitReached(cfg, Run(cfg, EMPTY, cs), FailuresSince(cfg, EMPTY, cs, 0))
  {
    ConsistentRun(cfg, EMPTY, cs, 0, from);
  }

  lemma {:induction false} ConsistentRun(cfg: Config, s: State, cs: seq<Call>, n: nat, from: int)
    requires Sensible(cfg) && Within(cs, from, from + cfg.resetMs)
    requires Consistent(cfg, s, n, from + cfg.resetMs)
    ensures Consistent(cfg, Run(cfg, s, cs), FailuresSince(cfg, s, cs, n), from + cfg.resetMs)
    decreases |cs|
  {
    if cs != [] {
      ConsistentStep(cfg, s, cs[0], n, from);
      var o, allowed := cs[0].outcome, Check(cfg, s, cs[0].start) == Allowed;
      var base: nat := if allowed && o.usage.Some? then 0 else n;
      hide AfterCall, Check, Consistent;
      ConsistentRun(cfg, AfterCall(cfg, s, cs[0]), cs[1..], base + if allowed && o.fails then 1 else 0, from);
    }
  }

  lemma ConsistentStep(cfg: Config, s: State, c: Call, n: nat, from: int)
    requires Sensible(cfg) && Within([c], from, from + cfg.resetMs)
    requires Consistent(cfg, s, n, from + cfg.resetMs)
    ensures
      var allowed := Check(cfg, s, c.start) == Allowed;
      var base := if allowed && c.outcome.usage.Some? then 0 else n;
      Consistent(cfg, AfterCall(cfg, s, c), base + if allowed && c.outcome.fails then 1 else 0, from + cfg.resetMs)
  {
    hide ToFixed6;
    FailureStep(cfg, s, c, n, from);
  }
}
