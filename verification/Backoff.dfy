/** Deterministic exponential backoff with bounded jitter (outbox/state_machine.py). */
module Backoff {
  import opened Wrappers

  /** base_seconds, max_seconds, jitter_ratio. */
  datatype Params = Params(baseSeconds: int, maxSeconds: int, jitterRatio: real)
  {
    /** What the linkage contract validates before a retry is ever scheduled. */
    predicate Valid() {
      1 <= baseSeconds && 1 <= maxSeconds && 0.0 <= jitterRatio <= 1.0
    }
  }

  const DEFAULTS := Params(30, 900, 0.2)

  function Pow2(n: nat): (r: nat)
    ensures r >= 1
  {
    if n == 0 then 1 else 2 * Pow2(n - 1)
  }

  function Min(a: int, b: int): int { if a <= b then a else b }
  function Max(a: int, b: int): int { if a >= b then a else b }

  /** The exponential before jitter, capped at max_seconds. */
  function CappedExponential(p: Params, attempt: nat): int
    requires attempt >= 1
  {
    Min(p.baseSeconds * Pow2(attempt - 1), p.maxSeconds)
  }

  /** Python's `int(x)` drops the fraction towards zero. */
  function Truncate(x: real): int {
    if x >= 0.0 then x.Floor else -((-x).Floor)
  }

  function JitterWindow(p: Params, seconds: int): int {
    Max(1, Truncate(seconds as real * p.jitterRatio))
  }

  /** compute_retry_delay_seconds; `digest` is the integer read from the first four bytes of SHA-256. */
  function Delay(p: Params, attempt: int, digest: nat): Result<int> {
    if attempt <= 0 then Err("attempt_number must be >= 1")
    else
      var exp := CappedExponential(p, attempt);
      var window := JitterWindow(p, exp);
      Ok(Max(1, exp + digest % (2 * window + 1) - window))
  }

  /** The delay of a legal attempt number. */
  function Seconds(p: Params, attempt: nat, digest: nat): int
    requires attempt >= 1
  {
    Delay(p, attempt, digest).value
  }

  lemma ScaleMonotone(x: real, y: real, ratio: real)
    requires 0.0 <= ratio && 0.0 <= x <= y
    ensures 0.0 <= x * ratio <= y * ratio
  {
  }

  lemma WindowMonotone(p: Params, a: int, b: int)
    requires p.Valid() && 0 <= a <= b
    ensures JitterWindow(p, a) <= JitterWindow(p, b)
  {
    ScaleMonotone(a as real, b as real, p.jitterRatio);
    FloorMonotone(a as real * p.jitterRatio, b as real * p.jitterRatio);
  }

  lemma FloorMonotone(x: real, y: real)
    requires x <= y
    ensures x.Floor <= y.Floor
  {
  }

  lemma CappedExponentialPositive(p: Params, attempt: nat)
    requires p.Valid() && attempt >= 1
    ensures 1 <= CappedExponential(p, attempt) <= p.maxSeconds
  {
    assert p.baseSeconds * Pow2(attempt - 1) >= 1 * 1;
  }

  /** Every digest: within the jitter window of the capped exponential (or clamped to 1), so within
      [1, max + max(1, floor(max * jitter))]. */
  lemma DelayBounds(p: Params, attempt: nat, digest: nat)
    requires p.Valid() && attempt >= 1
    ensures var r := Seconds(p, attempt, digest);
            var exp := CappedExponential(p, attempt);
            && 1 <= r <= p.maxSeconds + JitterWindow(p, p.maxSeconds)
            && (r == 1 || exp - JitterWindow(p, exp) <= r)
            && r <= exp + JitterWindow(p, exp)
  {
    CappedExponentialPositive(p, attempt);
    WindowMonotone(p, CappedExponential(p, attempt), p.maxSeconds);
  }

  /** Whatever the two digests, attempt `a` waits strictly less than attempt `b`. */
  ghost predicate AlwaysShorter(p: Params, a: nat, b: nat)
    requires a >= 1 && b >= 1
  {
    forall d: nat, d': nat :: Seconds(p, a, d) < Seconds(p, b, d')
  }

  lemma {:induction false} Pow2Monotone(a: nat, b: nat)
    requires a <= b
    ensures Pow2(a) <= Pow2(b)
  {
    if a < b { Pow2Monotone(a, b - 1); }
  }

  lemma DefaultExponential(attempt: nat)
    requires attempt >= 1
    ensures CappedExponential(DEFAULTS, attempt) ==
            if attempt == 1 then 30 else if attempt == 2 then 60 else if attempt == 3 then 120
            else if attempt == 4 then 240 else if attempt == 5 then 480 else 900
  {
    assert Pow2(0) == 1 && Pow2(1) == 2 && Pow2(2) == 4;
    assert Pow2(3) == 8 && Pow2(4) == 16 && Pow2(5) == 32;
    if attempt >= 6 { Pow2Monotone(5, attempt - 1); }
  }

  /** With the shipped parameters the delay grows for every pair of digests exactly up to the attempt
      after which the exponential has reached the 900-second cap. */
  lemma DefaultDelayGrowsExactlyUntilCap(attempt: nat)
    requires attempt >= 1
    ensures AlwaysShorter(DEFAULTS, attempt, attempt + 1) <==> CappedExponential(DEFAULTS, attempt) < DEFAULTS.maxSeconds
  {
    DefaultExponential(attempt);
    DefaultExponential(attempt + 1);
    if attempt <= 5 {
      var next := attempt + 1;
      forall d: nat, d': nat
        ensures Seconds(DEFAULTS, attempt, d) < Seconds(DEFAULTS, next, d')
      {
        DelayBounds(DEFAULTS, attempt, d);
        DelayBounds(DEFAULTS, next, d');
      }
    } else {
      assert Seconds(DEFAULTS, attempt, 0) == Seconds(DEFAULTS, attempt + 1, 0);
    }
  }

  /** The jitter window is the truncated share of the exponential, but at least one second. */
  lemma JitterWindowIs(p: Params, seconds: int)
    requires p.Valid() && seconds >= 0
    ensures JitterWindow(p, seconds) >= 1
    ensures JitterWindow(p, seconds) == 1 || JitterWindow(p, seconds) as real <= seconds as real * p.jitterRatio
    ensures JitterWindow(p, seconds) as real > seconds as real * p.jitterRatio - 1.0
  {
    ScaleMonotone(0.0, seconds as real, p.jitterRatio);
  }

  /** Every delay of the window occurs, from the exponential minus the window to the exponential plus it, for some digest. */
  lemma EveryDelayOccurs(p: Params, attempt: nat, delay: int)
    requires p.Valid() && attempt >= 1 && delay >= 1
    requires var exp := CappedExponential(p, attempt); exp - JitterWindow(p, exp) <= delay <= exp + JitterWindow(p, exp)
    ensures exists digest: nat :: Seconds(p, attempt, digest) == delay
  {
    var exp := CappedExponential(p, attempt);
    var window := JitterWindow(p, exp);
    var digest: nat := delay - exp + window;
    SmallModulo(digest, 2 * window + 1);
    assert Seconds(p, attempt, digest) == delay;
  }

  lemma SmallModulo(x: nat, n: int)
    requires x < n
    ensures x % n == x
  {
  }
}
