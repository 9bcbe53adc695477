/** The retry delay of `src/ai/jobs/backoff.ts`, with its default base and cap. */
module Backoff {
  import opened Prelude

  const BASE_MS := 1000
  const CAP_MS := 60_000

  function Pow2(n: nat): (p: nat)
    ensures p >= 1
  {
    if n == 0 then 1 else 2 * Pow2(n - 1)
  }

  /** The delay without jitter: the base doubled with every attempt after the first, up to the cap. */
  function Spacing(attempt: int): (ms: int)
    ensures BASE_MS <= ms <= CAP_MS
  {
    var exponential := BASE_MS * Pow2(if attempt > 1 then attempt - 1 else 0);
    if exponential > CAP_MS then CAP_MS else exponential
  }

  lemma {:induction false} Pow2Grows(n: nat)
    ensures n >= 6 ==> Pow2(n) >= 64
  {
    if n > 6 {
      Pow2Grows(n - 1);
    }
  }

  /** The delays without jitter, in milliseconds. */
  lemma SpacingTable(attempt: int)
    ensures Spacing(attempt) ==
            if attempt <= 1 then 1_000
            else if attempt == 2 then 2_000
            else if attempt == 3 then 4_000
            else if attempt == 4 then 8_000
            else if attempt == 5 then 16_000
            else if attempt == 6 then 32_000
            else 60_000
  {
    if attempt > 6 {
      Pow2Grows(attempt - 1);
    } else {
      assert Pow2(0) == 1 && Pow2(1) == 2 && Pow2(2) == 4 && Pow2(3) == 8 && Pow2(4) == 16 && Pow2(5) == 32;
    }
  }

  /** Every further attempt doubles the delay, up to a minute. */
  lemma SpacingDoubles(attempt: int)
    requires attempt >= 1
    ensures Spacing(attempt + 1) == Min(60_000, 2 * Spacing(attempt))
  {
    SpacingTable(attempt);
    SpacingTable(attempt + 1);
  }

  /** What `Math.random` returns. */
  type Random = r: real | 0.0 <= r < 1.0

  /** The random part: at most a fifth of the delay, at least one millisecond's worth of it, rounded down. */
  function Jitter(exponential: int, random: Random): (ms: int)
    requires exponential >= BASE_MS
    ensures 0 <= ms && 5 * ms < exponential
    // it is the random share of that fifth, rounded down
    ensures 5.0 * ms as real <= random * exponential as real < 5.0 * ms as real + 5.0
  {
    var fifth := exponential as real * 0.2;
    var spread := if fifth > 1.0 then fifth else 1.0;
    ProductBelow(random, spread);
    FloorBelow(random * spread, exponential);
    (random * spread).Floor
  }

  lemma FloorBelow(x: real, exponential: int)
    requires 0.0 <= x < (if exponential as real * 0.2 > 1.0 then exponential as real * 0.2 else 1.0)
    requires exponential >= BASE_MS
    ensures 0 <= x.Floor && 5 * x.Floor < exponential
  {
    assert (5 * x.Floor) as real <= 5.0 * x;
    assert 5.0 * x < exponential as real;
  }

  lemma ProductBelow(random: Random, spread: real)
    requires spread > 0.0
    ensures 0.0 <= random * spread < spread
  {
  }

  /** Less than twenty percent is added, so never 1.2 times the cap. */
  function RetryDelayMs(attempt: int, random: Random): (ms: int)
    ensures Spacing(attempt) <= ms && 5 * ms < 6 * Spacing(attempt) && ms < 72_000
    // what is added is the random share of a fifth, rounded down
    ensures var spacing := Spacing(attempt);
            random * spacing as real - 5.0 < 5.0 * (ms - spacing) as real <= random * spacing as real
  {
    Spacing(attempt) + Jitter(Spacing(attempt), random)
  }
}
