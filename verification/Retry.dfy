/** The bounded retry loop with capped exponential backoff and full jitter. */
module Retry {
  import opened Common

  /** How one call of the wrapped operation ends. */
  datatype Attempt<+T, +E> = Resolved(value: T) | Rejected(error: E)

  /** How the whole loop ends; `Exhausted` is the error raised when no attempt was allowed at all. */
  datatype Outcome<+T, +E> = Returned(value: T) | Threw(error: E) | Exhausted

  datatype Options<!E> = Options(maxAttempts: int, baseDelayMs: nat, maxDelayMs: nat, retryable: E -> bool)

  /** A call that the loop answers with another call. */
  predicate Retries<T, E>(call: Attempt<T, E>, options: Options<E>) {
    call.Rejected? && options.retryable(call.error)
  }

  /** The caller sees the result of the last call, whatever it was. */
  function Settle<T, E>(call: Attempt<T, E>): Outcome<T, E> {
    match call
    case Resolved(value) => Returned(value)
    case Rejected(error) => Threw(error)
  }

  function Pow2(n: nat): (p: nat)
    ensures p >= 1
  {
    if n == 0 then 1 else 2 * Pow2(n - 1)
  }

  /** The longest pause after attempt `attempt`, before jitter. */
  function CappedDelay(baseMs: nat, maxMs: nat, attempt: nat): nat
    requires attempt >= 1
  {
    Min(baseMs * Pow2(attempt - 1), maxMs)
  }

  /** The longest total pause of a loop that makes `calls` calls. */
  function WorstDelay(baseMs: nat, maxMs: nat, calls: nat): nat {
    if calls <= 1 then 0 else WorstDelay(baseMs, maxMs, calls - 1) + CappedDelay(baseMs, maxMs, calls - 1)
  }

  /** `whole` times the fraction: see TimesIsTheProduct. */
  function Times(fraction: real, whole: nat): real {
    if whole == 0 then 0.0 else Times(fraction, whole - 1) + fraction
  }

  /** The total pause of a loop that makes `calls` calls: each pause is its draw times its cap. */
  function TotalPause(random: nat -> real, baseMs: nat, maxMs: nat, calls: nat): real {
    if calls <= 1 then 0.0
    else
      TotalPause(random, baseMs, maxMs, calls - 1) + Times(random(calls - 1), CappedDelay(baseMs, maxMs, calls - 1))
  }

  /** `calls` is the number of calls the retry contract allows for the operation `fn`. */
  ghost predicate Contract<T, E>(fn: nat -> Attempt<T, E>, options: Options<E>, calls: nat) {
    && 1 <= calls <= options.maxAttempts
    && (forall n :: 1 <= n < calls ==> Retries(fn(n), options))
    && (Retries(fn(calls), options) ==> calls == options.maxAttempts)
  }

  lemma {:induction false} TimesIsTheProduct(fraction: real, whole: nat)
    ensures Times(fraction, whole) == fraction * whole as real
  {
    if whole > 0 {
      TimesIsTheProduct(fraction, whole - 1);
      var less := (whole - 1) as real;
      assert whole as real == less + 1.0;
      assert fraction * (less + 1.0) == fraction * less + fraction;
    }
  }

  lemma {:induction false} FractionStaysBelow(fraction: real, whole: nat)
    requires 0.0 <= fraction < 1.0
    ensures 0.0 <= Times(fraction, whole) <= whole as real
  {
    if whole > 0 {
      FractionStaysBelow(fraction, whole - 1);
    }
  }

  /** Full jitter: a pause drawn between 0 and the cap. */
  function Jitter(draw: real, cappedDelay: nat): (delay: real)
    requires 0.0 <= draw < 1.0
    ensures delay == Times(draw, cappedDelay)
    ensures 0.0 <= delay <= cappedDelay as real
  {
    FractionStaysBelow(draw, cappedDelay);
    TimesIsTheProduct(draw, cappedDelay);
    draw * cappedDelay as real
  }

  lemma {:induction false} PauseIsBounded(random: nat -> real, baseMs: nat, maxMs: nat, calls: nat)
    requires forall n :: 0.0 <= random(n) < 1.0
    ensures 0.0 <= TotalPause(random, baseMs, maxMs, calls) <= WorstDelay(baseMs, maxMs, calls) as real
  {
    if calls > 1 {
      PauseIsBounded(random, baseMs, maxMs, calls - 1);
      FractionStaysBelow(random(calls - 1), CappedDelay(baseMs, maxMs, calls - 1));
    }
  }

  /**
   * `fn(n)` is what the n-th call of the operation does; `random(n)` is the n-th draw from [0, 1).
   * The loop counts its calls and the time it slept, which the callers of the original cannot see.
   */
  method RetryWithBackoff<T, E>(fn: nat -> Attempt<T, E>, options: Options<E>, random: nat -> real)
    returns (outcome: Outcome<T, E>, calls: nat, sleptMs: real)
    requires forall n :: 0.0 <= random(n) < 1.0
    ensures options.maxAttempts < 1 ==> outcome == Exhausted && calls == 0 && sleptMs == 0.0
    ensures options.maxAttempts >= 1 ==> Contract(fn, options, calls) && outcome == Settle(fn(calls))
    ensures options.maxAttempts >= 1 ==>
      && 1 <= calls <= options.maxAttempts
      && (forall n :: 1 <= n < calls ==> fn(n).Rejected? && options.retryable(fn(n).error))
      && (fn(calls).Resolved? ==> outcome == Returned(fn(calls).value))
      && (fn(calls).Rejected? ==> outcome == Threw(fn(calls).error))
      && (fn(calls).Rejected? && options.retryable(fn(calls).error) ==> calls == options.maxAttempts)
    ensures sleptMs == TotalPause(random, options.baseDelayMs, options.maxDelayMs, calls)
    ensures 0.0 <= sleptMs <= WorstDelay(options.baseDelayMs, options.maxDelayMs, calls) as real
  {
    calls, sleptMs := 0, 0.0;
    var attempt := 1;
    while attempt <= options.maxAttempts
      invariant attempt >= 1 && calls == attempt - 1
      invariant options.maxAttempts >= 1 ==> attempt <= options.maxAttempts
      invariant options.maxAttempts < 1 ==> calls == 0
      invariant forall n :: 1 <= n < attempt ==> Retries(fn(n), options)
      invariant sleptMs == TotalPause(random, options.baseDelayMs, options.maxDelayMs, attempt)
      decreases options.maxAttempts - attempt
    {
      var call := fn(attempt);
      calls := attempt;
      PauseIsBounded(random, options.baseDelayMs, options.maxDelayMs, calls);
      if call.Resolved? {
        return Returned(call.value), calls, sleptMs;
      }
      var isRetryable := options.retryable(call.error);
      if !isRetryable || attempt == options.maxAttempts {
        return Threw(call.error), calls, sleptMs;
      }
      var exponentialDelay := options.baseDelayMs * Pow2(attempt - 1);
      var cappedDelay := Min(exponentialDelay, options.maxDelayMs);
      assert cappedDelay == CappedDelay(options.baseDelayMs, options.maxDelayMs, attempt);
      var jitterDelay := Jitter(random(attempt), cappedDelay);
      sleptMs := sleptMs + jitterDelay;
      attempt := attempt + 1;
    }
    outcome := Exhausted;
  }

  /** The contract leaves no freedom: an operation is called the same number of times on every run. */
  lemma ContractIsDeterministic<T, E>(fn: nat -> Attempt<T, E>, options: Options<E>, a: nat, b: nat)
    requires Contract(fn, options, a) && Contract(fn, options, b)
    ensures a == b
  {
  }

  /** How many of the pauses of a loop of `calls` calls are still doubling: those not above the cap. */
  function DoublingPauses(baseMs: nat, maxMs: nat, calls: nat): (k: nat)
    requires calls >= 1
    ensures k < calls
    ensures k > 0 ==> baseMs * Pow2(k - 1) <= maxMs
    ensures k < calls - 1 ==> baseMs * Pow2(k) > maxMs
  {
    if calls == 1 then 0
    else
      var k := DoublingPauses(baseMs, maxMs, calls - 1);
      if k == calls - 2 && baseMs * Pow2(k) <= maxMs then k + 1 else k
  }

  lemma DoublePow2(baseMs: nat, k: nat)
    requires k > 0
    ensures baseMs * Pow2(k) == 2 * (baseMs * Pow2(k - 1))
    ensures baseMs * (Pow2(k) - 1) == baseMs * (Pow2(k - 1) - 1) + baseMs * Pow2(k - 1)
  {
    var p := Pow2(k - 1);
    assert Pow2(k) == p + p;
    assert baseMs * (p + p) == baseMs * p + baseMs * p;
  }

  lemma {:induction false} DoublingStaysAbove(baseMs: nat, k: nat, n: nat)
    requires k <= n
    ensures baseMs * Pow2(k) <= baseMs * Pow2(n)
  {
    if k < n {
      DoublingStaysAbove(baseMs, k, n - 1);
      DoublePow2(baseMs, n);
    }
  }

  /** The next pause is not cut, so all pauses up to it double. */
  lemma StillDoubling(baseMs: nat, maxMs: nat, calls: nat)
    requires calls >= 2 && baseMs * Pow2(calls - 2) <= maxMs
    requires WorstDelay(baseMs, maxMs, calls - 1) == baseMs * (Pow2(calls - 2) - 1)
    ensures WorstDelay(baseMs, maxMs, calls) == baseMs * (Pow2(calls - 1) - 1)
  {
    DoublePow2(baseMs, calls - 1);
    assert CappedDelay(baseMs, maxMs, calls - 1) == baseMs * Pow2(calls - 2);
  }

  lemma {:induction false} UncutPauses(baseMs: nat, maxMs: nat, k: nat)
    requires k > 0 ==> baseMs * Pow2(k - 1) <= maxMs
    ensures WorstDelay(baseMs, maxMs, k + 1) == baseMs * (Pow2(k) - 1)
  {
    if k > 0 {
      if k > 1 {
        DoublingStaysAbove(baseMs, k - 2, k - 1);
      }
      UncutPauses(baseMs, maxMs, k - 1);
      StillDoubling(baseMs, maxMs, k + 1);
    }
  }

  lemma OneMore(n: nat, maxMs: nat)
    ensures (n + 1) * maxMs == n * maxMs + maxMs
  {
  }

  /** Once doubling is above the cap, every further pause is the cap. */
  lemma NextPauseIsCapped(baseMs: nat, maxMs: nat, calls: nat, k: nat)
    requires calls >= 2 && k <= calls - 2 && baseMs * Pow2(k) > maxMs
    ensures WorstDelay(baseMs, maxMs, calls) == WorstDelay(baseMs, maxMs, calls - 1) + maxMs
  {
    DoublingStaysAbove(baseMs, k, calls - 2);
  }

  lemma {:induction false} CappedPauses(baseMs: nat, maxMs: nat, calls: nat, k: nat)
    requires k < calls && (k < calls - 1 ==> baseMs * Pow2(k) > maxMs)
    ensures WorstDelay(baseMs, maxMs, calls) == WorstDelay(baseMs, maxMs, k + 1) + (calls - 1 - k) * maxMs
  {
    if k < calls - 1 {
      CappedPauses(baseMs, maxMs, calls - 1, k);
      NextPauseIsCapped(baseMs, maxMs, calls, k);
      OneMore(calls - 2 - k, maxMs);
    }
  }

  /** The closed form of the delay bound: `k` pauses that double from `baseMs`, then pauses of `maxMs`. */
  lemma WorstDelayClosedForm(baseMs: nat, maxMs: nat, calls: nat)
    requires calls >= 1
    ensures
      var k := DoublingPauses(baseMs, maxMs, calls);
      WorstDelay(baseMs, maxMs, calls) == baseMs * (Pow2(k) - 1) + (calls - 1 - k) * maxMs
  {
    var k := DoublingPauses(baseMs, maxMs, calls);
    UncutPauses(baseMs, maxMs, k);
    CappedPauses(baseMs, maxMs, calls, k);
  }

  // ---------------------------------------------------------------------------------------------
  // The worst case is approached: the sleep grows with the draws
  // ---------------------------------------------------------------------------------------------

  lemma {:induction false} LargerFractionIsMore(f: real, draw: real, whole: nat)
    requires draw >= f
    ensures Times(draw, whole) >= Times(f, whole)
  {
    if whole > 0 {
      LargerFractionIsMore(f, draw, whole - 1);
    }
  }

  lemma {:induction false} TimesAddsUp(f: real, a: nat, b: nat)
    ensures Times(f, a + b) == Times(f, a) + Times(f, b)
  {
    if b > 0 {
      TimesAddsUp(f, a, b - 1);
    }
  }

  lemma {:induction false} PausesHaveTheirShare(random: nat -> real, baseMs: nat, maxMs: nat, calls: nat, f: real)
    requires forall n :: 1 <= n < calls ==> random(n) >= f
    ensures TotalPause(random, baseMs, maxMs, calls) >= Times(f, WorstDelay(baseMs, maxMs, calls))
  {
    if calls > 1 {
      PausesHaveTheirShare(random, baseMs, maxMs, calls - 1, f);
      LargerFractionIsMore(f, random(calls - 1), CappedDelay(baseMs, maxMs, calls - 1));
      TimesAddsUp(f, WorstDelay(baseMs, maxMs, calls - 1), CappedDelay(baseMs, maxMs, calls - 1));
    }
  }

  /** Draws of at least `f` sleep at least that share of the worst case, so no smaller bound holds for all draws. */
  lemma DrawsApproachTheWorstCase(random: nat -> real, baseMs: nat, maxMs: nat, calls: nat, f: real)
    requires forall n :: 1 <= n < calls ==> random(n) >= f
    ensures TotalPause(random, baseMs, maxMs, calls) >= f * WorstDelay(baseMs, maxMs, calls) as real
  {
    PausesHaveTheirShare(random, baseMs, maxMs, calls, f);
    TimesIsTheProduct(f, WorstDelay(baseMs, maxMs, calls));
  }
}
