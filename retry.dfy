/** The `retry_on_conflict` decorator: it calls the wrapped operation again each time the
    operation raises ConcurrentModification, up to a budget. The wrapped operation is an
    oracle: `outcome(i)` is what its `i`-th call (counting from 0) returns or raises. */
module Retry {
  import opened Common

  /** `max_retries or configured`: Python's `or` falls back for both `None` and `0`. */
  function EffectiveBudget(maxRetries: Option<int>, configured: int): int
  {
    if maxRetries.Some? && maxRetries.value != 0 then maxRetries.value else configured
  }

  predicate IsConflict<T>(r: Result<T>)
  {
    r.Err? && r.error == ConcurrentModification
  }

  /** What the wrapper does from attempt `from` on, when `conflicted` says whether an earlier
      attempt conflicted: its result (`None` for the `return None` after an empty loop) and the
      number of calls made to the wrapped operation so far. */
  function Run<T>(outcome: nat -> Result<T>, from: nat, budget: int, conflicted: bool): (Option<Result<T>>, nat)
    decreases budget - from
  {
    if budget <= from then (if conflicted then Some(Err(ConcurrentModification)) else None, from)
    else if IsConflict(outcome(from)) then Run(outcome, from + 1, budget, true)
    else (Some(outcome(from)), from + 1)
  }

  /** The wrapper: a `for attempt in range(budget)` loop that returns the first outcome that is
      not a conflict and re-raises the last conflict once the budget is spent. */
  method RetryOnConflict<T>(outcome: nat -> Result<T>, maxRetries: Option<int>, configured: int)
    returns (result: Option<Result<T>>, calls: nat)
    ensures (result, calls) == Run(outcome, 0, EffectiveBudget(maxRetries, configured), false)
  {
    var budget := EffectiveBudget(maxRetries, configured);
    var lastConflict := false;
    var attempt: nat := 0;
    calls := 0;
    while attempt < budget
      invariant calls == attempt
      invariant lastConflict <==> attempt > 0
      invariant Run(outcome, 0, budget, false) == Run(outcome, attempt, budget, lastConflict)
      decreases budget - attempt
    {
      var r := outcome(attempt);
      calls := calls + 1;
      if !IsConflict(r) {
        return Some(r), calls;
      }
      lastConflict := true;
      attempt := attempt + 1;
    }
    if lastConflict {
      return Some(Err(ConcurrentModification)), calls;
    }
    return None, calls;
  }

  /** Every call before the last conflicted; the result is what the last call produced, and the
      wrapper stopped either because that call did not conflict or because the budget was
      spent. With no budget there is no call and no result. */
  lemma {:induction false} RunShape<T>(outcome: nat -> Result<T>, from: nat, budget: int, conflicted: bool)
    ensures var (res, calls) := Run(outcome, from, budget, conflicted);
      && (budget <= from ==> calls == from && (res.Some? <==> conflicted))
      && (from < budget ==>
            && from < calls <= budget
            && (forall i :: from <= i < calls - 1 ==> IsConflict(outcome(i)))
            && res == Some(outcome(calls - 1))
            && (IsConflict(outcome(calls - 1)) ==> calls == budget))
    decreases budget - from
  {
    if from < budget && IsConflict(outcome(from)) {
      RunShape(outcome, from + 1, budget, true);
    }
  }

  /** The wrapped operation is called at most `budget` times, and not at all when the budget is
      not positive. */
  lemma CallsBounded<T>(outcome: nat -> Result<T>, budget: int)
    ensures Run(outcome, 0, budget, false).1 <= Max(budget, 0)
    ensures budget <= 0 ==> Run(outcome, 0, budget, false).0 == None
  {
    RunShape(outcome, 0, budget, false);
  }

  /** The first attempt that does not conflict decides the result, and no later attempt runs:
      a plain success or any error other than a conflict propagates as it is. */
  lemma {:induction false} FirstSettledWins<T>(outcome: nat -> Result<T>, from: nat, budget: int, conflicted: bool, k: nat)
    requires from <= k < budget
    requires forall i :: from <= i < k ==> IsConflict(outcome(i))
    requires !IsConflict(outcome(k))
    ensures Run(outcome, from, budget, conflicted) == (Some(outcome(k)), k + 1)
    decreases k - from
  {
    if from < k {
      FirstSettledWins(outcome, from + 1, budget, true, k);
    }
  }

  /** A conflict on every attempt: exactly `budget` calls, then the conflict is re-raised. */
  lemma {:induction false} AllConflictsReraise<T>(outcome: nat -> Result<T>, from: nat, budget: int, conflicted: bool)
    requires from < budget
    requires forall i :: from <= i < budget ==> IsConflict(outcome(i))
    ensures Run(outcome, from, budget, conflicted) == (Some(Err(ConcurrentModification)), budget)
    decreases budget - from
  {
    if from + 1 < budget {
      AllConflictsReraise(outcome, from + 1, budget, true);
    }
  }

  /** Two conflicts followed by a success: three calls, and the success is the result. */
  lemma TwoConflictsThenSuccess(v: int, budget: int)
    requires budget >= 3
    ensures var outcome := (i: nat) => if i < 2 then Err(ConcurrentModification) else Ok(v);
      Run(outcome, 0, budget, false) == (Some(Ok(v)), 3)
  {
    var outcome := (i: nat) => if i < 2 then Err(ConcurrentModification) else Ok(v);
    FirstSettledWins(outcome, 0, budget, false, 2);
  }

  /** A budget of 0 falls back to the configured one, exactly as no budget does. */
  lemma ZeroFallsBack(configured: int)
    ensures EffectiveBudget(Some(0), configured) == EffectiveBudget(None, configured) == configured
  {
  }
}
