/** Retrying with exponential backoff under a budget that concurrent calls share. */
module Retry {
  import opened Collections

  /** `jitter` is modelled by the draws passed to the retry loop; without it the draws are ignored. */
  datatype RetryPolicy = RetryPolicy(maxAttempts: int, baseDelay: real, maxDelay: real, jitter: bool)

  /** One attempt of the wrapped call: a value, an error in `retryable_errors`, or any other exception. */
  datatype Attempt<+V> = Returned(value: V) | Transient | Fatal

  datatype Outcome<+V> =
    | Value(value: V)        // the call returned
    | LastTransient          // the last attempt's transient error is re-raised
    | NotRetryable           // the exception of the attempt is re-raised at once
    | BudgetExhausted        // RetryBudgetExhaustedError
    | NothingToRaise         // no attempt allowed: the loop body never runs and `raise None` fails

  datatype Decision = GiveUp | OutOfBudget | SleepAndRetry

  /** What happens after attempt number `attempt` (counted from 1) failed with a transient error. */
  function AfterTransient(maxAttempts: int, attempt: nat, canRetry: bool): Decision {
    if attempt >= maxAttempts then GiveUp
    else if !canRetry then OutOfBudget
    else SleepAndRetry
  }

  class RetryBudget {
    const maxRetries: int
    var used: nat

    constructor (maxRetries: int)
      ensures this.maxRetries == maxRetries && used == 0
    {
      this.maxRetries, used := maxRetries, 0;
    }

    predicate CanRetry()
      reads this
    {
      used < maxRetries
    }

    method RecordRetry()
      modifies this
      ensures used == old(used) + 1
    {
      used := used + 1;
    }
  }

  function Pow2(n: nat): (r: nat)
    ensures r >= 1
  {
    if n == 0 then 1 else 2 * Pow2(n - 1)
  }

  /** The product, under a name that keeps the proofs below linear. */
  function Times(a: real, b: real): real {
    a * b
  }

  function Min(a: real, b: real): real {
    if a <= b then a else b
  }

  /** The delay before the retry that follows attempt `i` (counted from 0); `draw` is the uniform draw in [0, 1]. */
  function Delay(p: RetryPolicy, i: nat, draw: real): real {
    var delay := Min(Times(p.baseDelay, Pow2(i) as real), p.maxDelay);
    if p.jitter then delay + Times(draw, delay * 0.5) else delay
  }

  /** The sum of the first `n` delays. */
  function TotalDelay(p: RetryPolicy, draws: nat -> real, n: nat): real {
    if n == 0 then 0.0 else TotalDelay(p, draws, n - 1) + Delay(p, n - 1, draws(n - 1))
  }

  /** Retries that other calls record on the shared budget while this one is suspended in its attempts. */
  function Interference(others: nat -> nat, n: nat): nat {
    if n == 0 then 0 else Interference(others, n - 1) + others(n - 1)
  }

  /**
   The retry loop. Attempt `i` ends as `attempts(i)`; before it ends, other calls record `others(i)`
   retries. `calls` counts the attempts and `slept` the time asked of `sleep`.
   */
  method RetryWithBackoff<V>(p: RetryPolicy, budget: RetryBudget?, attempts: nat -> Attempt<V>,
                             others: nat -> nat, draws: nat -> real)
    returns (outcome: Outcome<V>, calls: nat, slept: real)
    modifies budget
    ensures calls <= if p.maxAttempts < 0 then 0 else p.maxAttempts
    ensures forall i :: 0 <= i < calls - 1 ==> attempts(i).Transient?
    ensures slept == TotalDelay(p, draws, if calls == 0 then 0 else calls - 1)
    ensures budget != null ==>
      budget.used == old(budget.used) + Interference(others, calls) + if calls == 0 then 0 else calls - 1
    ensures budget != null && calls > 1 ==>
      old(budget.used) + Interference(others, calls - 1) + calls - 1 <= budget.maxRetries
    ensures match outcome
            case NothingToRaise => calls == 0 && p.maxAttempts <= 0
            case Value(v) => calls > 0 && attempts(calls - 1) == Returned(v)
            case NotRetryable => calls > 0 && attempts(calls - 1) == Fatal
            case LastTransient => calls > 0 && attempts(calls - 1) == Transient && calls == p.maxAttempts
            case BudgetExhausted =>
              && calls > 0 && attempts(calls - 1) == Transient && calls < p.maxAttempts
              && budget != null && budget.used >= budget.maxRetries
  {
    calls, slept := 0, 0.0;
    while calls < p.maxAttempts
      invariant calls <= if p.maxAttempts < 0 then 0 else p.maxAttempts
      invariant forall i :: 0 <= i < calls ==> attempts(i).Transient?
      invariant slept == TotalDelay(p, draws, calls)
      invariant budget != null ==> budget.used == old(budget.used) + Interference(others, calls) + calls
      invariant budget != null && calls > 0 ==>
        old(budget.used) + Interference(others, calls) + calls <= budget.maxRetries
      invariant calls > 0 ==> calls < p.maxAttempts
    {
      var attempt := attempts(calls);
      if budget != null {
        budget.used := budget.used + others(calls);
      }
      calls := calls + 1;
      match attempt {
        case Returned(v) =>
          outcome := Value(v);
          return;
        case Fatal =>
          outcome := NotRetryable;
          return;
        case Transient =>
          var decision := AfterTransient(p.maxAttempts, calls, budget == null || budget.CanRetry());
          match decision {
            case GiveUp =>
              outcome := LastTransient;
              return;
            case OutOfBudget =>
              outcome := BudgetExhausted;
              return;
            case SleepAndRetry =>
              if budget != null {
                budget.RecordRetry();
              }
              slept := slept + Delay(p, calls - 1, draws(calls - 1));
          }
      }
    }
    outcome := NothingToRaise;
  }

  // ---- How long a call can sleep --------------------------------------------------------

  lemma TimesMono(a: real, b: real, c: real)
    requires a <= b && 0.0 <= c
    ensures Times(a, c) <= Times(b, c)
  {
  }

  lemma TimesMonoRight(a: real, b: real, c: real)
    requires b <= c && 0.0 <= a
    ensures Times(a, b) <= Times(a, c)
  {
  }

  lemma TimesUnits(a: real)
    ensures Times(1.0, a) == a && Times(0.0, a) == 0.0 && Times(a, 0.0) == 0.0
  {
  }

  lemma TimesAdd(a: real, b: real, c: real)
    ensures Times(a, b + c) == Times(a, b) + Times(a, c)
    ensures Times(b + c, a) == Times(b, a) + Times(c, a)
  {
  }

  lemma {:induction false} Pow2Mono(m: nat, n: nat)
    requires m <= n
    ensures Pow2(m) <= Pow2(n)
  {
    if m < n {
      Pow2Mono(m, n - 1);
    }
  }

  lemma {:induction false} OneDelay(p: RetryPolicy, i: nat, draw: real)
    requires 0.0 <= p.baseDelay && 0.0 <= p.maxDelay && 0.0 <= draw <= 1.0
    ensures var plain := Min(Times(p.baseDelay, Pow2(i) as real), p.maxDelay);
            0.0 <= plain <= Delay(p, i, draw) <= 1.5 * plain
  {
    hide Times, Pow2;
    var plain := Min(Times(p.baseDelay, Pow2(i) as real), p.maxDelay);
    TimesMonoRight(p.baseDelay, 0.0, Pow2(i) as real);
    TimesUnits(p.baseDelay);
    TimesMono(draw, 1.0, plain * 0.5);
    TimesMono(0.0, draw, plain * 0.5);
    TimesUnits(plain * 0.5);
  }

  /** Without jitter a delay is the base, doubled for every attempt before, and cut at the maximum. */
  lemma {:induction false} DelayDoubles(p: RetryPolicy, i: nat, draw: real, next: real)
    requires 0.0 <= p.baseDelay && 0.0 <= p.maxDelay && !p.jitter
    ensures Delay(p, 0, draw) == if p.baseDelay <= p.maxDelay then p.baseDelay else p.maxDelay
    ensures var twice := 2.0 * Delay(p, i, draw);
            Delay(p, i + 1, next) == if twice <= p.maxDelay then twice else p.maxDelay
  {
    hide Times;
    var k := Pow2(i) as real;
    TimesUnits(p.baseDelay);
    assert Times(p.baseDelay, 1.0) == p.baseDelay by { TimesCommutes(p.baseDelay, 1.0); }
    assert Pow2(i + 1) as real == k + k;
    TimesAdd(p.baseDelay, k, k);
    TimesMonoRight(p.baseDelay, 0.0, k);
  }

  lemma TimesCommutes(a: real, b: real)
    ensures Times(a, b) == Times(b, a)
  {
  }

  /** Jitter spreads the delay evenly over the half above that: the draw says how far. */
  lemma {:induction false} JitterSpreads(p: RetryPolicy, i: nat, draw: real, other: real)
    requires p.jitter
    ensures var plain := Delay(p.(jitter := false), i, other);
            && Delay(p, i, 0.0) == plain && Delay(p, i, 1.0) == 1.5 * plain
            && Delay(p, i, draw) == (1.0 - draw) * plain + draw * (1.5 * plain)
  {
    var plain := Delay(p.(jitter := false), i, other);
    assert Times(draw, plain * 0.5) == draw * (1.5 * plain) - draw * plain;
  }

  /** Without jitter, and as long as none is cut, the delays add up to the geometric sum. */
  lemma {:induction false} UncutTotal(p: RetryPolicy, draws: nat -> real, n: nat)
    requires !p.jitter && 0.0 <= p.baseDelay && (n > 0 ==> Times(p.baseDelay, Pow2(n - 1) as real) <= p.maxDelay)
    ensures TotalDelay(p, draws, n) == Times(p.baseDelay, Pow2(n) as real - 1.0)
  {
    hide Times;
    if n == 0 {
      TimesUnits(p.baseDelay);
    } else {
      var k := Pow2(n - 1) as real;
      if n > 1 {
        Pow2Mono(n - 2, n - 1);
        TimesMonoRight(p.baseDelay, Pow2(n - 2) as real, k);
      }
      UncutTotal(p, draws, n - 1);
      TimesAdd(p.baseDelay, k - 1.0, k);
      assert Pow2(n) as real - 1.0 == (k - 1.0) + k;
    }
  }

  /** The first `n` delays together: at most one and a half times the geometric sum, and of `n` capped delays. */
  lemma {:induction false} DelaysBounded(p: RetryPolicy, draws: nat -> real, n: nat)
    requires 0.0 <= p.baseDelay && 0.0 <= p.maxDelay
    requires forall i :: 0.0 <= draws(i) <= 1.0
    ensures TotalDelay(p, draws, n) <= 1.5 * Times(p.baseDelay, Pow2(n) as real - 1.0)
    ensures TotalDelay(p, draws, n) <= 1.5 * Times(n as real, p.maxDelay)
  {
    hide Times;
    if n == 0 {
      TimesUnits(p.baseDelay);
      TimesUnits(p.maxDelay);
    } else {
      var k := Pow2(n - 1) as real;
      DelaysBounded(p, draws, n - 1);
      OneDelay(p, n - 1, draws(n - 1));
      TimesAdd(p.baseDelay, k - 1.0, k);
      TimesAdd(p.maxDelay, (n - 1) as real, 1.0);
      TimesUnits(p.maxDelay);
      assert Pow2(n) as real - 1.0 == (k - 1.0) + k;
      assert n as real == (n - 1) as real + 1.0;
    }
  }

  /** A call that may make `n` attempts sleeps at most 1.5 * min(base * (2^(n-1) - 1), (n-1) * max). */
  lemma {:induction false} TotalSleepBounded(p: RetryPolicy, draws: nat -> real, calls: nat)
    requires 0.0 <= p.baseDelay && 0.0 <= p.maxDelay
    requires forall i :: 0.0 <= draws(i) <= 1.0
    requires 1 <= calls <= p.maxAttempts
    ensures TotalDelay(p, draws, calls - 1)
      <= 1.5 * Min(Times(p.baseDelay, Pow2(p.maxAttempts - 1) as real - 1.0),
                   Times((p.maxAttempts - 1) as real, p.maxDelay))
  {
    hide Times;
    var n := p.maxAttempts - 1;
    DelaysBounded(p, draws, calls - 1);
    Pow2Mono(calls - 1, n);
    TimesMonoRight(p.baseDelay, Pow2(calls - 1) as real - 1.0, Pow2(n) as real - 1.0);
    TimesMono((calls - 1) as real, n as real, p.maxDelay);
  }
}
