/** Retry delays (internal/orchestrator/state.go:88-123, 172-220): a continuation delay, or a doubled
    and capped failure delay with a deterministic jitter of at most a tenth. */
module Backoff {
  const CONTINUATION_BACKOFF_MS := 1_000
  const FAILURE_BACKOFF_BASE_MS := 10_000

  /** The hash of issue, attempt and cap that picks the jitter; nothing depends on how it mixes. */
  type Seed = (string, int, int) -> nat

  function Min(a: int, b: int): int {
    if a <= b then a else b
  }

  function Max(a: int, b: int): int {
    if a >= b then a else b
  }

  function Pow2(n: nat): nat {
    if n == 0 then 1 else 2 * Pow2(n - 1)
  }

  lemma {:induction false} Pow2Grows(m: nat, n: nat)
    requires m <= n
    ensures 1 <= Pow2(m) <= Pow2(n)
  {
    if m < n {
      Pow2Grows(m, n - 1);
    } else if m > 0 {
      Pow2Grows(m - 1, n - 1);
    }
  }

  /** The failure delay before jitter. */
  function FailureBackoff(attempt: int, maxMs: int): int {
    if attempt <= 1 then Min(FAILURE_BACKOFF_BASE_MS, maxMs)
    else Min(FAILURE_BACKOFF_BASE_MS * Pow2(attempt - 1), maxMs)
  }

  /** The doubling loop computes min(10000 * 2^(attempt-1), maxMs) and never holds a value above
      max(10000, maxMs), so it cannot overflow however large the attempt number is. */
  method CalculateFailureBackoff(attempt: int, maxMs: int) returns (delay: int, ghost peak: int)
    requires attempt >= 1 && maxMs >= 1
    ensures delay == Min(FAILURE_BACKOFF_BASE_MS * Pow2(attempt - 1), maxMs) == FailureBackoff(attempt, maxMs)
    ensures peak <= Max(FAILURE_BACKOFF_BASE_MS, maxMs)
  {
    delay := FAILURE_BACKOFF_BASE_MS;
    peak := delay;
    var step := 1;
    while step < attempt
      invariant 1 <= step <= attempt
      invariant delay == FAILURE_BACKOFF_BASE_MS * Pow2(step - 1)
      invariant delay <= peak <= Max(FAILURE_BACKOFF_BASE_MS, maxMs)
    {
      Pow2Grows(step, attempt - 1);
      if delay >= maxMs {
        return maxMs, peak;
      }
      if delay > maxMs / 2 {
        delay := maxMs;
        peak := Max(peak, delay);
        break;
      }
      delay := delay * 2;
      peak := Max(peak, delay);
      step := step + 1;
    }
    if delay > maxMs {
      delay := maxMs;
    }
  }

  function JitterOffset(seed: Seed, issue: string, attempt: int, maxMs: int, jitterRange: int): (offset: int)
    requires jitterRange >= 0
    ensures -jitterRange <= offset <= jitterRange
  {
    seed(issue, attempt, maxMs) % (2 * jitterRange + 1) - jitterRange
  }

  function CalculateBackoff(seed: Seed, issue: string, attempt: int, maxMs: int): int {
    if maxMs <= 0 then 0
    else if attempt <= 0 then Min(CONTINUATION_BACKOFF_MS, maxMs)
    else
      var base := FailureBackoff(attempt, maxMs);
      var jitterRange := base / 10;
      if jitterRange <= 0 then base
      else
        var delay := base + JitterOffset(seed, issue, attempt, maxMs, jitterRange);
        Min(Max(delay, Min(CONTINUATION_BACKOFF_MS, maxMs)), maxMs)
  }

  lemma FailureBackoffPositive(attempt: int, maxMs: int)
    requires attempt >= 1 && maxMs >= 1
    ensures Min(FAILURE_BACKOFF_BASE_MS, maxMs) <= FailureBackoff(attempt, maxMs) <= maxMs
  {
    Pow2Grows(0, attempt - 1);
  }

  /** Every retry delay lies in [min(1000, maxMs), maxMs], for every seed, and a failure delay stays
      within a tenth of its base. */
  lemma DelayIsBounded(seed: Seed, issue: string, attempt: int, maxMs: int)
    requires maxMs >= 1
    ensures Min(CONTINUATION_BACKOFF_MS, maxMs) <= CalculateBackoff(seed, issue, attempt, maxMs) <= maxMs
    ensures attempt >= 1 ==>
              var base := FailureBackoff(attempt, maxMs);
              base - base / 10 <= CalculateBackoff(seed, issue, attempt, maxMs) <= base + base / 10
  {
    if attempt >= 1 {
      FailureBackoffPositive(attempt, maxMs);
    }
  }

  /** Delays strictly increase from one attempt to the next while the next doubling is uncapped,
      whatever the jitter of either. */
  lemma DelaysIncrease(seed: Seed, issue: string, attempt: int, maxMs: int)
    requires attempt >= 1 && FAILURE_BACKOFF_BASE_MS * Pow2(attempt) <= maxMs
    ensures CalculateBackoff(seed, issue, attempt, maxMs) < CalculateBackoff(seed, issue, attempt + 1, maxMs)
  {
    Pow2Grows(attempt - 1, attempt);
    DelayIsBounded(seed, issue, attempt, maxMs);
    DelayIsBounded(seed, issue, attempt + 1, maxMs);
    assert FailureBackoff(attempt + 1, maxMs) == 2 * FailureBackoff(attempt, maxMs);
  }

  /** All of a tenth is used: every delay that close to the base, no sooner than a second and no later than the
      cap, is the delay for some seed. */
  lemma EveryDelayOccurs(issue: string, attempt: int, maxMs: int, delay: int) returns (seed: Seed)
    requires attempt >= 1 && maxMs >= 1 && Min(1000, maxMs) <= delay <= maxMs
    requires
      var base := Min(10000 * Pow2(attempt - 1), maxMs);
      base - base / 10 <= delay <= base + base / 10
    ensures CalculateBackoff(seed, issue, attempt, maxMs) == delay
  {
    var base := Min(10000 * Pow2(attempt - 1), maxMs);
    assert attempt == 1 ==> Pow2(attempt - 1) == 1;
    FailureBackoffPositive(attempt, maxMs);
    var offset: nat := delay - base + base / 10;
    seed := (i, a, m) => offset;
    if base / 10 > 0 {
      OffsetIs(seed, issue, attempt, maxMs, base / 10);
    }
  }

  lemma OffsetIs(seed: Seed, issue: string, attempt: int, maxMs: int, jitterRange: nat)
    requires seed(issue, attempt, maxMs) <= 2 * jitterRange
    ensures JitterOffset(seed, issue, attempt, maxMs, jitterRange) == seed(issue, attempt, maxMs) - jitterRange
  {
    SmallRemainder(seed(issue, attempt, maxMs), 2 * jitterRange + 1);
  }

  lemma SmallRemainder(a: nat, m: nat)
    requires a < m
    ensures a % m == a
  {
  }
}
