/** When the circuit opens, and when it closes again: expiry in milliseconds, over checks
    and records at given times (GeminiAIGateway.ts, lines 123-180). */
module BreakerLaws {
  import opened Common
  import opened CircuitBreaker

  /** What can still be read of a counter has reached its limit. */
  predicate TokensSpent(cfg: Config, s: State, now: int) {
    (if s.tokens.Cell? && now <= s.tokens.expiresAt then s.tokens.value else 0) >= cfg.tokenBudget
  }

  predicate CostSpent(cfg: Config, s: State, now: int) {
    (if s.cost.Cell? && now <= s.cost.expiresAt then s.cost.value else 0.0) >= cfg.costThreshold
  }

  predicate BudgetSpent(cfg: Config, s: State, now: int) {
    TokensSpent(cfg, s, now) || CostSpent(cfg, s, now)
  }

  /** How many failures are on record at `now`. */
  function FailuresOn(s: State, now: int): int {
    if s.failures.Cell? && now <= s.failures.expiresAt then s.failures.value else 0
  }

  /** The failure that reaches the threshold at `t` closes the gateway for exactly resetMs:
      every check up to then refuses, and every later one is allowed unless a budget is spent. */
  lemma OpenForResetMs(cfg: Config, s: State, t: int, now: int)
    requires FailuresOn(s, t) + 1 >= cfg.failureThreshold && t <= now
    ensures Check(cfg, AfterFailure(cfg, s, t), now) == Refused <==>
      now <= t + cfg.resetMs || BudgetSpent(cfg, s, now)
  {
  }

  /** A failure short of the threshold opens nothing. */
  lemma FailureShortOfThreshold(cfg: Config, s: State, t: int, now: int)
    requires FailuresOn(s, t) + 1 < cfg.failureThreshold
    ensures Check(cfg, AfterFailure(cfg, s, t), now) == Check(cfg, s, now)
    ensures FailuresOn(AfterFailure(cfg, s, t), t) == FailuresOn(s, t) + 1
  {
  }

  /** The record of failures lasts resetMs from its first failure, and then starts anew. */
  lemma FailureRecordExpires(cfg: Config, s: State, t: int, now: int)
    requires t <= now && !(s.failures.Cell? && t <= s.failures.expiresAt)
    ensures FailuresOn(AfterFailure(cfg, s, t), now) == if now <= t + cfg.resetMs then 1 else 0
  {
  }

  /** Later failures do not prolong it. */
  lemma RecordNotProlonged(cfg: Config, s: State, t: int, now: int)
    requires t <= now && FailuresOn(s, t) > 0
    ensures FailuresOn(AfterFailure(cfg, s, t), now) ==
      if now <= s.failures.expiresAt then FailuresOn(s, t) + 1 else 0
  {
  }

  /** A check that finds a budget spent refuses and opens the circuit, also for resetMs. */
  lemma BudgetOpens(cfg: Config, s: State, t: int, now: int)
    requires BudgetSpent(cfg, s, t) && !(s.open.Cell? && t <= s.open.expiresAt) && t <= now
    ensures Check(cfg, s, t) == Refused
    ensures Check(cfg, AfterCheck(cfg, s, t), now) == Refused <==>
      now <= t + cfg.resetMs || BudgetSpent(cfg, s, now)
  {
  }

  /** A check of an open circuit refuses and does not prolong it; an allowed one moves nothing. */
  lemma OtherChecksMoveNothing(cfg: Config, s: State, t: int)
    requires (s.open.Cell? && t <= s.open.expiresAt) || !BudgetSpent(cfg, s, t)
    ensures AfterCheck(cfg, s, t) == s
  {
  }

  /** Usage is kept for a day, 86400000 ms from the last success, and forgotten then. */
  lemma UsageKeptADay(cfg: Config, s: State, tokensUsed: nat, costUsd: real, t: int, now: int)
    requires t <= now
    ensures
      var u := AfterSuccess(cfg, s, tokensUsed, costUsd, t);
      if now <= t + 86_400_000 then
        (TokensSpent(cfg, u, now) <==> u.tokens.value >= cfg.tokenBudget) &&
        (CostSpent(cfg, u, now) <==> u.cost.value >= cfg.costThreshold)
      else
        (TokensSpent(cfg, u, now) <==> 0 >= cfg.tokenBudget) && (CostSpent(cfg, u, now) <==> 0.0 >= cfg.costThreshold)
  {
    hide ToFixed6;
  }

  /** A success adds its usage to what can still be read, and clears the failures. */
  lemma SuccessAdds(cfg: Config, s: State, tokensUsed: nat, costUsd: real, t: int)
    ensures
      var u := AfterSuccess(cfg, s, tokensUsed, costUsd, t);
      var before := if s.tokens.Cell? && t <= s.tokens.expiresAt then s.tokens.value else 0;
      var cost := if s.cost.Cell? && t <= s.cost.expiresAt then s.cost.value else 0.0;
      u.tokens.Cell? && u.tokens.value == before + tokensUsed + (if cfg.sharedCounters then 1 else 0) &&
      u.cost.Cell? && -0.0000005 <= u.cost.value - (cost + costUsd) <= 0.0000005 &&
      FailuresOn(u, t) == 0 && u.open == s.open
  {
    var cost := if s.cost.Cell? && t <= s.cost.expiresAt then s.cost.value else 0.0;
    ToFixed6Error(cost + costUsd);
    hide ToFixed6;
  }

  /** The store after checks at `ts`, with nothing recorded in between. */
  function Checked(cfg: Config, s: State, ts: seq<int>): State
    decreases |ts|
  {
    if ts == [] then s else Checked(cfg, AfterCheck(cfg, s, ts[0]), ts[1..])
  }

  /** Up to when the circuit is open after checks at `ts`, if it was until `until`: a check
      that finds it closed and a budget spent opens it again. */
  function OpenUntil(cfg: Config, s: State, until: int, ts: seq<int>): int
    decreases |ts|
  {
    if ts == [] then until
    else
      OpenUntil(cfg, s, if ts[0] > until && BudgetSpent(cfg, s, ts[0]) then ts[0] + cfg.resetMs else until, ts[1..])
  }

  /** After the failure that reaches the threshold at `t`, over any checks that follow with
      nothing recorded: a check refuses exactly while the circuit is open or a budget spent. */
  lemma AfterThreshold(cfg: Config, s: State, t: int, ts: seq<int>, now: int)
    requires FailuresOn(s, t) + 1 >= cfg.failureThreshold
    ensures Check(cfg, Checked(cfg, AfterFailure(cfg, s, t), ts), now) == Refused <==>
      now <= OpenUntil(cfg, s, t + cfg.resetMs, ts) || BudgetSpent(cfg, s, now)
  {
    CheckedRun(cfg, s, AfterFailure(cfg, s, t), t + cfg.resetMs, ts);
  }

  lemma {:induction false} CheckedRun(cfg: Config, s: State, u: State, until: int, ts: seq<int>)
    requires u.open == Cell(true, until) && u.tokens == s.tokens && u.cost == s.cost
    ensures
      var v := Checked(cfg, u, ts);
      v.open == Cell(true, OpenUntil(cfg, s, until, ts)) && v.tokens == s.tokens && v.cost == s.cost
    decreases |ts|
  {
    if ts != [] {
      var next := if ts[0] > until && BudgetSpent(cfg, s, ts[0]) then ts[0] + cfg.resetMs else until;
      CheckedRun(cfg, s, AfterCheck(cfg, u, ts[0]), next, ts[1..]);
    }
  }

  /** With no budget spent, the failures alone decide: refused up to t + resetMs, allowed
      ever after, however often it is checked. */
  lemma ClosesAgain(cfg: Config, s: State, t: int, ts: seq<int>, now: int)
    requires FailuresOn(s, t) + 1 >= cfg.failureThreshold
    requires forall c: int :: !BudgetSpent(cfg, s, c)
    ensures Check(cfg, Checked(cfg, AfterFailure(cfg, s, t), ts), now) == Refused <==> now <= t + cfg.resetMs
  {
    AfterThreshold(cfg, s, t, ts, now);
    NeverReopened(cfg, s, t + cfg.resetMs, ts);
  }

  lemma {:induction false} NeverReopened(cfg: Config, s: State, until: int, ts: seq<int>)
    requires forall c: int :: !BudgetSpent(cfg, s, c)
    ensures OpenUntil(cfg, s, until, ts) == until
    decreases |ts|
  {
    if ts != [] {
      assert !BudgetSpent(cfg, s, ts[0]);
      NeverReopened(cfg, s, until, ts[1..]);
    }
  }
}
