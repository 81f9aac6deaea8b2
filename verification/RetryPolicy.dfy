/** Exponential backoff with full jitter; a random draw is any real in [0, 1). */
module RetryPolicy {
  import opened Arithmetic

  // The width of the window the attempt's delay is drawn from.
  function Window(attempt: int, baseMs: int, maxMs: int): int {
    Min(maxMs, baseMs * Pow2(Max(0, attempt - 1)))
  }

  function ComputeBackoffMs(attempt: int, baseMs: int, maxMs: int, random: real): int {
    (random * Window(attempt, baseMs, maxMs) as real).Floor
  }

  predicate ShouldDeadLetter(attempts: int, maxAttempts: int) {
    attempts >= maxAttempts
  }

  lemma WindowBounds(attempt: int, baseMs: int, maxMs: int)
    requires baseMs >= 0 && maxMs >= 0
    ensures 0 <= Window(attempt, baseMs, maxMs) <= maxMs
  {
    assert baseMs * Pow2(Max(0, attempt - 1)) >= 0;
  }

  // Every delay falls inside the window.
  lemma BackoffInWindow(attempt: int, baseMs: int, maxMs: int, random: real)
    requires baseMs >= 0 && maxMs >= 0 && 0.0 <= random < 1.0
    ensures var ms, width := ComputeBackoffMs(attempt, baseMs, maxMs, random), Window(attempt, baseMs, maxMs);
      0 <= ms <= width <= maxMs && (width > 0 ==> ms < width)
  {
    WindowBounds(attempt, baseMs, maxMs);
    DrawBelow(random, Window(attempt, baseMs, maxMs));
  }

  // Every delay of the window is drawn by some draw.
  lemma BackoffReaches(attempt: int, baseMs: int, maxMs: int, ms: nat) returns (random: real)
    requires ms < Window(attempt, baseMs, maxMs)
    ensures 0.0 <= random < 1.0 && ComputeBackoffMs(attempt, baseMs, maxMs, random) == ms
  {
    random := DrawReaches(Window(attempt, baseMs, maxMs), ms);
  }

  // The window starts at the base and doubles with every attempt, up to the cap.
  lemma WindowDoubles(attempt: int, baseMs: int, maxMs: int)
    requires baseMs >= 0 && maxMs >= 0
    ensures attempt <= 1 ==> Window(attempt, baseMs, maxMs) == Min(maxMs, baseMs)
    ensures attempt >= 1 ==>
      Window(attempt + 1, baseMs, maxMs) == Min(maxMs, 2 * Window(attempt, baseMs, maxMs))
  {
    if attempt >= 1 {
      assert Pow2(attempt) == 2 * Pow2(attempt - 1);
      assert baseMs * Pow2(attempt) == 2 * (baseMs * Pow2(attempt - 1));
    }
  }
}
