// src/lib/retry.js over the reals: the delay for every random draw, and what it adds up to.
module Retry {

  /** config.execution */
  const BASE_DELAY_MS: real := 1000.0
  const MAX_DELAY_MS: real := 300000.0
  const JITTER: real := 0.2

  function Pow2(n: nat): (r: real)
    ensures r >= 1.0
  {
    if n == 0 then 1.0 else 2.0 * Pow2(n - 1)
  }

  function Min(a: real, b: real): real {
    if a <= b then a else b
  }

  /** Math.round: halves go up. */
  function Round(x: real): int {
    (x + 0.5).Floor
  }

  /** Math.random() */
  predicate IsDraw(d: real) {
    0.0 <= d < 1.0
  }

  /** The delay before jitter. */
  function Nominal(attempt: nat, base: real, max: real): real {
    Min(base * Pow2(attempt), max)
  }

  function Jitter(cappedDelay: real, jitterFactor: real, draw: real): real {
    cappedDelay * jitterFactor * (draw * 2.0 - 1.0)
  }

  function CalculateBackoff(attempt: nat, base: real, max: real, jitterFactor: real, draw: real): int {
    var cappedDelay := Nominal(attempt, base, max);
    var jitter := Jitter(cappedDelay, jitterFactor, draw);
    var r := Round(cappedDelay + jitter);
    if r < 0 then 0 else r
  }

  function GetRetryTime(now: int, attempt: nat, base: real, max: real, draw: real): int {
    now + CalculateBackoff(attempt, base, max, JITTER, draw)
  }

  predicate ShouldRetry(retryCount: int, maxRetries: int) {
    retryCount < maxRetries
  }

  // ----- bounds for every draw -----

  lemma Jittered(c: real, factor: real, draw: real)
    requires 0.0 <= c && 0.0 <= factor && IsDraw(draw)
    ensures -(c * factor) <= Jitter(c, factor, draw) <= c * factor
    ensures 0.0 < c && 0.0 < factor ==> Jitter(c, factor, draw) < c * factor
    ensures 0.0 <= c * factor
  {
    var w := c * factor;
    Times(0.0, factor, c);
    Times(-1.0, draw * 2.0 - 1.0, w);
    Times(draw * 2.0 - 1.0, 1.0, w);
    if 0.0 < c && 0.0 < factor {
      TimesStrictly(factor, c);
      TimesStrictly(1.0 - draw, w);
      assert w - Jitter(c, factor, draw) == 2.0 * (w * (1.0 - draw));
    }
  }

  lemma Times(a: real, b: real, w: real)
    requires a <= b && 0.0 <= w
    ensures w * a <= w * b
  {
  }

  lemma TimesStrictly(a: real, w: real)
    requires 0.0 < a && 0.0 < w
    ensures 0.0 < w * a
  {
  }

  lemma NominalIsNotNegative(attempt: nat, base: real, max: real)
    requires 0.0 <= base && 0.0 <= max
    ensures 0.0 <= Nominal(attempt, base, max) <= max
    ensures Nominal(attempt, base, max) <= base * Pow2(attempt)
  {
    assert 0.0 <= base * Pow2(attempt);
  }

  lemma ShareOf(c: real, factor: real)
    requires 0.0 <= c && factor <= 1.0
    ensures c * factor <= c
  {
    assert c * (1.0 - factor) >= 0.0;
    assert c * (1.0 - factor) == c - c * factor;
  }

  lemma RoundNear(c: real, w: real, j: real)
    requires 0.0 <= w <= c && -w <= j <= w
    ensures 0 <= Round(c + j) && -(w + 0.5) <= Round(c + j) as real - c <= w + 0.5
  {
  }

  lemma JitteredDelay(c: real, factor: real, draw: real)
    requires 0.0 <= c && 0.0 <= factor <= 1.0 && IsDraw(draw)
    ensures 0 <= Round(c + Jitter(c, factor, draw))
    ensures -(c * factor + 0.5) <= Round(c + Jitter(c, factor, draw)) as real - c <= c * factor + 0.5
  {
    hide Round, Jitter;
    Jittered(c, factor, draw);
    ShareOf(c, factor);
    RoundNear(c, c * factor, Jitter(c, factor, draw));
  }

  /** The delay is a non-negative number of milliseconds within the jitter factor of
      min(base * 2^attempt, max), up to rounding; the outer Math.max never takes effect. */
  lemma BackoffBounds(attempt: nat, base: real, max: real, factor: real, draw: real)
    requires 0.0 <= base && 0.0 <= max && 0.0 <= factor <= 1.0 && IsDraw(draw)
    ensures var c, r := Nominal(attempt, base, max), CalculateBackoff(attempt, base, max, factor, draw);
            && 0 <= r && r == Round(c + Jitter(c, factor, draw))
            && -(c * factor + 0.5) <= r as real - c <= c * factor + 0.5
  {
    hide Nominal, Round, Jitter;
    NominalIsNotNegative(attempt, base, max);
    JitteredDelay(Nominal(attempt, base, max), factor, draw);
  }

  /** Rounding gives the nearest whole number, the larger one at a half. */
  lemma RoundIsNearest(x: real)
    ensures Round(x) as real - 0.5 <= x < Round(x) as real + 0.5
  {
  }

  /** The smallest draw takes off the whole jitter, the middle one none of it. */
  lemma DelayAtDraws(attempt: nat, base: real, max: real)
    requires 0.0 <= base && 0.0 <= max
    ensures CalculateBackoff(attempt, base, max, JITTER, 0.0) == Round(0.8 * Nominal(attempt, base, max))
    ensures CalculateBackoff(attempt, base, max, JITTER, 0.5) == Round(Nominal(attempt, base, max))
  {
    var c := Nominal(attempt, base, max);
    BackoffBounds(attempt, base, max, JITTER, 0.0);
    BackoffBounds(attempt, base, max, JITTER, 0.5);
    assert c + Jitter(c, JITTER, 0.0) == 0.8 * c;
    assert c + Jitter(c, JITTER, 0.5) == c;
  }

  /** A larger draw never gives a shorter delay. */
  lemma DelayGrowsWithDraw(attempt: nat, base: real, max: real, factor: real, d: real, e: real)
    requires 0.0 <= base && 0.0 <= max && 0.0 <= factor <= 1.0 && IsDraw(d) && IsDraw(e) && d <= e
    ensures CalculateBackoff(attempt, base, max, factor, d) <= CalculateBackoff(attempt, base, max, factor, e)
  {
    hide Nominal;
    var c := Nominal(attempt, base, max);
    NominalIsNotNegative(attempt, base, max);
    Times(0.0, factor, c);
    Times(d * 2.0 - 1.0, e * 2.0 - 1.0, c * factor);
  }

  /** A retry is never scheduled in the past, and neither earlier nor later than the jittered delay allows. */
  lemma RetryTimeBounds(now: int, attempt: nat, base: real, max: real, draw: real)
    requires 0.0 <= base && 0.0 <= max && IsDraw(draw)
    ensures now <= GetRetryTime(now, attempt, base, max, draw)
    ensures now as real + 0.8 * Nominal(attempt, base, max) - 0.5 <= GetRetryTime(now, attempt, base, max, draw) as real
    ensures GetRetryTime(now, attempt, base, max, draw) as real <= now as real + 1.2 * Nominal(attempt, base, max) + 0.5
  {
    hide Nominal, CalculateBackoff;
    BackoffBounds(attempt, base, max, JITTER, draw);
  }

  // ----- successive delays -----

  lemma RoundStep(x: real, y: real)
    requires x + 1.0 <= y
    ensures Round(x) < Round(y)
  {
  }

  /** Below the cap, with a whole number of milliseconds as base, every possible delay of an attempt is
      shorter than every possible delay of the next. */
  lemma DelaysIncrease(attempt: nat, base: nat, max: real, d: real, e: real)
    requires 1 <= base && base as real * Pow2(attempt + 1) <= max && IsDraw(d) && IsDraw(e)
    ensures CalculateBackoff(attempt, base as real, max, JITTER, d)
            < CalculateBackoff(attempt + 1, base as real, max, JITTER, e)
  {
    hide Round, Nominal, Jitter, CalculateBackoff;
    var b := base as real;
    var n := WholePower(base, attempt);
    var c := Nominal(attempt, b, max);
    assert b * Pow2(attempt + 1) == 2.0 * (b * Pow2(attempt));
    assert c == n as real && Nominal(attempt + 1, b, max) == 2.0 * c by {
      Uncapped(attempt, b, max);
      Uncapped(attempt + 1, b, max);
    }
    BackoffBounds(attempt, b, max, JITTER, d);
    BackoffBounds(attempt + 1, b, max, JITTER, e);
    Jittered(c, JITTER, d);
    Jittered(2.0 * c, JITTER, e);
    BandsApart(n, c + Jitter(c, JITTER, d), 2.0 * c + Jitter(2.0 * c, JITTER, e));
  }

  lemma Uncapped(attempt: nat, base: real, max: real)
    requires base * Pow2(attempt) <= max
    ensures Nominal(attempt, base, max) == base * Pow2(attempt)
  {
  }

  lemma BandsApart(n: nat, x: real, y: real)
    requires 1 <= n && x < 1.2 * n as real && 1.6 * n as real <= y
    ensures Round(x) < Round(y)
  {
    if n >= 3 {
      RoundStep(x, y);
    } else {
      assert n == 1 || n == 2;
    }
  }

  /** base * 2^attempt is a whole number. */
  lemma {:induction false} WholePower(base: nat, attempt: nat) returns (n: nat)
    requires 1 <= base
    ensures 1 <= n && n as real == base as real * Pow2(attempt)
  {
    if attempt == 0 {
      n := base;
    } else {
      var k := WholePower(base, attempt - 1);
      n := 2 * k;
      assert base as real * Pow2(attempt) == 2.0 * (base as real * Pow2(attempt - 1));
    }
  }

  // ----- the wait before a permanent failure -----

  /** The delays a job that always fails is given from this attempt on: a retry after each attempt that
      shouldRetry allows, with one draw each. */
  function WaitFrom(attempt: nat, maxRetries: nat, base: real, max: real, draws: nat -> real): int
    decreases maxRetries - attempt
  {
    if ShouldRetry(attempt, maxRetries) then
      CalculateBackoff(attempt, base, max, JITTER, draws(attempt)) + WaitFrom(attempt + 1, maxRetries, base, max, draws)
    else 0
  }

  /** What doubling delays can add up to while the power of two goes from p to last in `left` retries. */
  function DoublingBound(base: real, p: real, last: real, left: real): real {
    1.2 * base * (last - p) + left / 2.0
  }

  function CapBound(max: real, left: real): real {
    left * (1.2 * max + 0.5)
  }

  lemma {:induction false} WaitBound(attempt: nat, maxRetries: nat, base: real, max: real, draws: nat -> real)
    requires attempt <= maxRetries && 0.0 <= base && 0.0 <= max && forall n: nat :: IsDraw(draws(n))
    ensures var wait, left := WaitFrom(attempt, maxRetries, base, max, draws) as real, (maxRetries - attempt) as real;
            wait <= DoublingBound(base, Pow2(attempt), Pow2(maxRetries), left) && wait <= CapBound(max, left)
    decreases maxRetries - attempt
  {
    hide Nominal, CalculateBackoff, Jitter, DoublingBound, CapBound;
    if attempt < maxRetries {
      WaitBound(attempt + 1, maxRetries, base, max, draws);
      BackoffBounds(attempt, base, max, JITTER, draws(attempt));
      NominalIsNotNegative(attempt, base, max);
      OneMoreWait(base, Pow2(attempt), Pow2(maxRetries), max, Nominal(attempt, base, max),
                  CalculateBackoff(attempt, base, max, JITTER, draws(attempt)) as real,
                  WaitFrom(attempt + 1, maxRetries, base, max, draws) as real, (maxRetries - attempt - 1) as real);
    } else {
      NoWait(base, Pow2(attempt), max);
    }
  }

  lemma NoWait(base: real, p: real, max: real)
    ensures DoublingBound(base, p, p, 0.0) == 0.0 && CapBound(max, 0.0) == 0.0
  {
  }

  lemma OneMoreWait(base: real, p: real, last: real, max: real, c: real, r: real, wait: real, left: real)
    requires c <= base * p && c <= max && r - c <= c * JITTER + 0.5
    requires wait <= DoublingBound(base, 2.0 * p, last, left) && wait <= CapBound(max, left)
    ensures r + wait <= DoublingBound(base, p, last, left + 1.0)
    ensures r + wait <= CapBound(max, left + 1.0)
  {
    assert 1.2 * base * (last - 2.0 * p) == 1.2 * base * (last - p) - 1.2 * (base * p);
    assert (left + 1.0) * (1.2 * max + 0.5) == left * (1.2 * max + 0.5) + (1.2 * max + 0.5);
  }

  /** From the first attempt to the dead letter queue, the waits add up to at most
      1.2 * base * (2^M - 2) + (M - 1) / 2 milliseconds, and to at most M - 1 jittered caps. */
  lemma TotalWait(maxRetries: nat, base: real, max: real, draws: nat -> real)
    requires 1 <= maxRetries && 0.0 <= base && 0.0 <= max && forall n: nat :: IsDraw(draws(n))
    ensures var wait, m := WaitFrom(1, maxRetries, base, max, draws) as real, maxRetries as real;
            && wait <= 1.2 * base * (Pow2(maxRetries) - 2.0) + (m - 1.0) / 2.0
            && wait <= (m - 1.0) * (1.2 * max + 0.5)
  {
    WaitBound(1, maxRetries, base, max, draws);
    assert Pow2(1) == 2.0;
  }

  lemma {:induction false} WaitFloor(attempt: nat, maxRetries: nat, base: real, max: real, draws: nat -> real)
    requires attempt <= maxRetries && 0.0 <= base && 0.0 <= max && forall n: nat :: IsDraw(draws(n))
    requires base * Pow2(maxRetries) <= 2.0 * max
    ensures WaitFrom(attempt, maxRetries, base, max, draws) as real >=
            0.8 * base * (Pow2(maxRetries) - Pow2(attempt)) - (maxRetries - attempt) as real / 2.0
    decreases maxRetries - attempt
  {
    hide Nominal, CalculateBackoff, Jitter;
    if attempt < maxRetries {
      WaitFloor(attempt + 1, maxRetries, base, max, draws);
      BackoffBounds(attempt, base, max, JITTER, draws(attempt));
      StillUncapped(attempt, maxRetries, base, max);
      Uncapped(attempt, base, max);
      OneMoreFloor(base, Pow2(attempt), Pow2(maxRetries));
    }
  }

  lemma StillUncapped(attempt: nat, maxRetries: nat, base: real, max: real)
    requires attempt < maxRetries && 0.0 <= base && base * Pow2(maxRetries) <= 2.0 * max
    ensures base * Pow2(attempt) <= max
  {
    PowersGrow(attempt + 1, maxRetries);
    Times(2.0 * Pow2(attempt), Pow2(maxRetries), base);
    assert base * (2.0 * Pow2(attempt)) == 2.0 * (base * Pow2(attempt));
  }

  lemma OneMoreFloor(base: real, p: real, last: real)
    ensures 0.8 * base * (last - p) == 0.8 * (base * p) + 0.8 * base * (last - 2.0 * p)
  {
  }

  /** And to at least 0.8 * base * (2^M - 2) - (M - 1) / 2 when no delay is capped. */
  lemma TotalWaitAtLeast(maxRetries: nat, base: real, max: real, draws: nat -> real)
    requires 1 <= maxRetries && 0.0 <= base && 0.0 <= max && forall n: nat :: IsDraw(draws(n))
    requires base * Pow2(maxRetries) <= 2.0 * max
    ensures WaitFrom(1, maxRetries, base, max, draws) as real >=
            0.8 * base * (Pow2(maxRetries) - 2.0) - (maxRetries as real - 1.0) / 2.0
  {
    WaitFloor(1, maxRetries, base, max, draws);
    assert Pow2(1) == 2.0;
  }

  // ----- the documented cap -----

  /** Jitter is added after the cap, so maxDelayMs is kept for every draw exactly when the jittered
      nominal delay stays within half a millisecond of it. */
  lemma CapIsKeptExactlyWhen(attempt: nat, base: real, max: nat)
    requires 0.0 <= base
    ensures (forall d :: IsDraw(d) ==> CalculateBackoff(attempt, base, max as real, JITTER, d) <= max) <==>
            1.2 * Nominal(attempt, base, max as real) <= max as real + 0.5
  {
    var m := max as real;
    var c := Nominal(attempt, base, m);
    NominalIsNotNegative(attempt, base, m);
    if 1.2 * c <= m + 0.5 {
      forall d | IsDraw(d)
        ensures CalculateBackoff(attempt, base, m, JITTER, d) <= max
      {
        BackoffBounds(attempt, base, m, JITTER, d);
        Jittered(c, JITTER, d);
      }
    } else {
      var d := LargeDraw(c, m);
      BackoffBounds(attempt, base, m, JITTER, d);
      assert Round(c + Jitter(c, JITTER, d)) > max;
    }
  }

  /** A draw that takes the delay above the cap. */
  lemma LargeDraw(c: real, m: real) returns (d: real)
    requires 0.0 <= c <= m && 1.2 * c > m + 0.5
    ensures IsDraw(d) && c + Jitter(c, JITTER, d) >= m + 0.5
  {
    var w := c * JITTER;
    var k := (m + 0.5 - c) / w;
    assert k * w == m + 0.5 - c;
    if k < 0.0 {
      Times(k, 0.0, w);
    } else if k >= 1.0 {
      Times(1.0, k, w);
    }
    d := (k + 1.0) / 2.0;
  }

  lemma PowersOfTwo(n: nat)
    requires 7 <= n
    ensures Pow2(7) == 128.0 && (n == 7 || Pow2(n) >= 256.0)
  {
    assert Pow2(1) == 2.0;
    assert Pow2(2) == 4.0;
    assert Pow2(3) == 8.0;
    assert Pow2(4) == 16.0;
    assert Pow2(5) == 32.0;
    assert Pow2(6) == 64.0;
    assert Pow2(7) == 128.0;
    if n > 8 {
      PowersOfTwo(n - 1);
    }
  }

  lemma {:induction false} PowersGrow(a: nat, b: nat)
    requires a <= b
    ensures Pow2(a) <= Pow2(b)
  {
    if a < b {
      PowersGrow(a, b - 1);
    }
  }

  /** With the configured delays the cap is kept up to attempt 7 and can be exceeded from attempt 8 on. */
  lemma ConfiguredCap(attempt: nat)
    ensures (forall d :: IsDraw(d) ==> CalculateBackoff(attempt, BASE_DELAY_MS, MAX_DELAY_MS, JITTER, d) <= 300000) <==>
            attempt <= 7
  {
    CapIsKeptExactlyWhen(attempt, BASE_DELAY_MS, 300000);
    if attempt <= 7 {
      PowersGrow(attempt, 7);
      PowersOfTwo(7);
    } else {
      PowersOfTwo(attempt);
    }
  }
}
