/** withRetry (resilience.ts, lines 20-54). `fn(i)` is what the i-th call of the wrapped
    function does; the waits are collected instead of slept. */
module Retry {
  import opened Common

  datatype Outcome<V, E> = Returned(value: V) | Threw(error: E)

  /** None is the undefined that is thrown when the loop never runs. */
  datatype Ending<V, E> = Result(value: V) | Error(lastError: Option<E>)

  function Backoff(base: real, attempt: nat): real { base * Pow2(attempt) as real }

  function Delay(base: real, cap: real, attempt: nat): real { MinReal(Backoff(base, attempt), cap) }

  function Delays(base: real, cap: real, r: nat): (ds: seq<real>)
    ensures |ds| == r
  {
    seq(r, i requires 0 <= i < r => Delay(base, cap, i))
  }

  /** `k` is the first call that returns. */
  ghost predicate FirstSuccess<V, E>(fn: nat -> Outcome<V, E>, k: nat) {
    fn(k).Returned? && forall i :: 0 <= i < k ==> fn(i).Threw?
  }

  ghost predicate AllThrow<V, E>(fn: nat -> Outcome<V, E>, maxRetries: int) {
    forall i: nat :: i <= maxRetries ==> fn(i).Threw?
  }

  method WithRetry<V, E>(fn: nat -> Outcome<V, E>, maxRetries: int, base: real, cap: real)
      returns (ending: Ending<V, E>, calls: nat, delays: seq<real>)
    ensures ending.Result? <==> calls > 0 && calls - 1 <= maxRetries && FirstSuccess(fn, calls - 1)
    ensures ending.Result? ==> ending.value == fn(calls - 1).value && delays == Delays(base, cap, calls - 1)
    ensures ending.Error? ==>
      AllThrow(fn, maxRetries) && calls == (if maxRetries < 0 then 0 else maxRetries + 1) &&
      ending.lastError == (if maxRetries < 0 then None else Some(fn(maxRetries).error)) &&
      delays == Delays(base, cap, if maxRetries < 0 then 0 else maxRetries)
  {
    var lastError: Option<E> := None;
    var attempt := 0;
    calls, delays := 0, [];
    while attempt <= maxRetries
      invariant attempt == calls && 0 <= attempt && (maxRetries < 0 || attempt <= maxRetries)
      invariant forall i: nat :: i < attempt ==> fn(i).Threw?
      invariant maxRetries < 0 ==> attempt == 0 && lastError == None
      invariant delays == Delays(base, cap, attempt)
      decreases maxRetries - attempt
    {
      calls := calls + 1;
      var outcome := fn(attempt);
      if outcome.Returned? {
        return Result(outcome.value), calls, delays;
      }
      lastError := Some(outcome.error);
      if attempt == maxRetries {
        break;
      }
      delays := delays + [Delay(base, cap, attempt)];
      attempt := attempt + 1;
    }
    ending := Error(lastError);
  }

  /** base + 2*base + ... over r retries: the waits without a cap. */
  function Uncapped(base: real, r: nat): real { base * (Pow2(r) as real - 1.0) }

  /** r waits of the full cap. */
  function AllCapped(cap: real, r: nat): real { cap * r as real }

  lemma UncappedStep(base: real, r: nat)
    ensures Uncapped(base, 0) == 0.0
    ensures Uncapped(base, r + 1) == Uncapped(base, r) + Backoff(base, r)
  {
    var p := Pow2(r) as real;
    assert Pow2(r + 1) as real == 2.0 * p;
    assert base * (2.0 * p - 1.0) == base * (p - 1.0) + base * p;
  }

  lemma AllCappedStep(cap: real, r: nat)
    ensures AllCapped(cap, 0) == 0.0
    ensures AllCapped(cap, r + 1) == AllCapped(cap, r) + cap
  {
    var x := r as real;
    assert (r + 1) as real == x + 1.0;
    assert cap * (x + 1.0) == cap * x + cap;
  }

  /** r retries wait at most the uncapped geometric sum, and at most r caps. */
  lemma {:induction false} TotalDelayBound(base: real, cap: real, r: nat)
    ensures Sum(Delays(base, cap, r)) <= MinReal(Uncapped(base, r), AllCapped(cap, r))
  {
    hide Uncapped, AllCapped, Sum, Delays, Backoff;
    if r == 0 {
      UncappedStep(base, 0);
      AllCappedStep(cap, 0);
      SumDelaysStep(base, cap, 0);
    } else {
      TotalDelayBound(base, cap, r - 1);
      UncappedStep(base, r - 1);
      AllCappedStep(cap, r - 1);
      SumDelaysStep(base, cap, r - 1);
    }
  }

  lemma SumDelaysStep(base: real, cap: real, r: nat)
    ensures Sum(Delays(base, cap, 0)) == 0.0
    ensures Sum(Delays(base, cap, r + 1)) == Sum(Delays(base, cap, r)) + Delay(base, cap, r)
  {
    hide Delay;
    assert Delays(base, cap, r + 1)[..r] == Delays(base, cap, r);
  }

  /** Delays never shrink as long as the base is not negative. */
  lemma DelaysGrow(base: real, cap: real, i: nat, j: nat)
    requires base >= 0.0 && i <= j
    ensures Delay(base, cap, i) <= Delay(base, cap, j)
  {
    hide Backoff;
    BackoffGrows(base, i, j);
  }

  lemma BackoffGrows(base: real, i: nat, j: nat)
    requires base >= 0.0 && i <= j
    ensures Backoff(base, i) <= Backoff(base, j)
  {
    Pow2Grows(i, j);
    hide Pow2;
    var x, y := Pow2(i) as real, Pow2(j) as real;
    Scale(base, x, y);
  }

  lemma {:induction false} Pow2Grows(i: nat, j: nat)
    requires i <= j
    ensures Pow2(i) <= Pow2(j)
    decreases j
  {
    if i < j {
      Pow2Grows(i, j - 1);
    }
  }

  /** The exact waits: the first is the base, every next one twice the one before, all up to
      the cap. */
  lemma DelayDoubles(base: real, cap: real, i: nat)
    requires cap >= 0.0
    ensures Delay(base, cap, 0) == if base <= cap then base else cap
    ensures
      var twice := 2.0 * Delay(base, cap, i);
      Delay(base, cap, i + 1) == if twice <= cap then twice else cap
  {
    BackoffDoubles(base, i);
    hide Backoff;
  }

  lemma BackoffDoubles(base: real, i: nat)
    ensures Backoff(base, 0) == base && Backoff(base, i + 1) == 2.0 * Backoff(base, i)
  {
    var p := Pow2(i) as real;
    assert Pow2(i + 1) as real == 2.0 * p;
    assert base * (2.0 * p) == 2.0 * (base * p);
  }
}
