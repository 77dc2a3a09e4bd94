/** Exponential backoff (common/common.go, Backoff), with exact real arithmetic in place of float64. */
module Backoff {

  const BACKOFF_FACTOR := 1.3
  const BACKOFF_RANGE := 0.4

  function Growth(n: nat): (g: real)
    ensures g >= 1.0
  {
    if n == 0 then 1.0 else Growth(n - 1) * BACKOFF_FACTOR
  }

  function Uncapped(base: real, n: nat): real {
    base * Growth(n)
  }

  /** A negative number of retries is none. */
  function Retries(retries: int): nat {
    if retries < 0 then 0 else retries
  }

  /** The delay before randomization: exponential in the retries, capped. */
  function Cap(base: real, max: real, retries: int): real {
    var d := Uncapped(base, Retries(retries));
    if d > max then max else d
  }

  lemma Scale(a: real, x: real, y: real)
    requires 0.0 <= a && x <= y
    ensures a * x <= a * y
  {
  }

  lemma {:induction false} GrowthIsMonotone(m: nat, n: nat)
    requires m <= n
    ensures Growth(m) <= Growth(n)
    decreases n - m
  {
    if m < n {
      GrowthIsMonotone(m + 1, n);
    }
  }

  lemma UncappedIsMonotone(base: real, m: nat, n: nat)
    requires 0.0 <= base && m <= n
    ensures Uncapped(base, m) <= Uncapped(base, n)
  {
    GrowthIsMonotone(m, n);
    Scale(base, Growth(m), Growth(n));
  }

  lemma UncappedStep(base: real, n: nat)
    ensures Uncapped(base, 0) == base
    ensures Uncapped(base, n + 1) == Uncapped(base, n) * BACKOFF_FACTOR
  {
  }

  /** The loop, with its early exit and the cap that follows it, computes the capped power. */
  method Grow(base: real, max: real, retries: int) returns (backoff: real)
    ensures 0.0 <= base ==> backoff == Cap(base, max, retries)
    ensures base < 0.0 ==> backoff < 0.0
  {
    hide Uncapped;
    backoff := base;
    var left := retries;
    ghost var n, done := Retries(retries), 0;
    UncappedStep(base, 0);
    while backoff < max && left > 0
      invariant done <= n && (left > 0 ==> done + left == n) && (left <= 0 ==> done == n)
      invariant backoff == Uncapped(base, done)
      invariant base < 0.0 ==> backoff < 0.0
      decreases left
    {
      UncappedStep(base, done);
      backoff := backoff * BACKOFF_FACTOR;
      left, done := left - 1, done + 1;
    }
    if 0.0 <= base {
      UncappedIsMonotone(base, done, n);
    }
    if backoff > max {
      backoff := max;
    }
  }

  function Randomized(backoff: real, draw: real): real {
    backoff - backoff * (BACKOFF_RANGE * draw)
  }

  lemma Shaved(m: real, d: real)
    requires 0.0 <= d <= BACKOFF_RANGE
    ensures 0.0 <= m ==> 0.0 <= m * d <= m * BACKOFF_RANGE
    ensures m < 0.0 ==> m * BACKOFF_RANGE <= m * d
  {
  }

  lemma RandomizedWithin(m: real, draw: real)
    requires 0.0 <= draw < 1.0
    ensures 0.0 <= m ==> 0.6 * m <= Randomized(m, draw) <= m
    ensures m < 0.0 ==> Randomized(m, draw) < 0.0
  {
    Shaved(m, BACKOFF_RANGE * draw);
  }

  lemma CapIsBounded(base: real, max: real, retries: int)
    requires 0.0 <= base
    ensures Cap(base, max, retries) <= max
    ensures 0.0 <= max ==> 0.0 <= Cap(base, max, retries)
  {
  }

  /** The delay for a random draw: nothing for a negative bound, else the cap less the drawn part of
      40%, rounded down and, as the documentation promises, never above the largest delay. */
  method Backoff(baseDelay: int, maxDelay: int, retries: int, draw: real) returns (delay: int)
    requires 0.0 <= draw < 1.0
    ensures baseDelay < 0 || maxDelay < 0 ==> delay == 0
    ensures 0 <= baseDelay && 0 <= maxDelay ==>
              var m := Cap(baseDelay as real, maxDelay as real, retries);
              && 0.6 * m <= Randomized(m, draw) <= m
              && delay == Randomized(m, draw).Floor
              && 0 <= delay <= maxDelay
  {
    hide Cap, Randomized;
    var backoff := Grow(baseDelay as real, maxDelay as real, retries);
    ghost var m := backoff;
    RandomizedWithin(m, draw);
    backoff := Randomized(backoff, draw);
    if 0 <= baseDelay {
      CapIsBounded(baseDelay as real, maxDelay as real, retries);
    }
    if backoff < 0.0 {
      return 0;
    }
    delay := backoff.Floor;
  }

  /** More retries never shorten the delay before randomization. */
  lemma CapIsMonotone(base: real, max: real, retries: int, more: int)
    requires 0.0 <= base && retries <= more
    ensures Cap(base, max, retries) <= Cap(base, max, more)
  {
    hide Uncapped;
    UncappedIsMonotone(base, Retries(retries), Retries(more));
  }

  /** Ten seconds, a third more at each retry, and no more than a hundred. */
  lemma FirstDelays()
    ensures Cap(10.0, 100.0, 0) == 10.0 && Cap(10.0, 100.0, 1) == 13.0 && Cap(10.0, 100.0, 2) == 16.9
    ensures Cap(10.0, 100.0, 9) == 100.0
  {
    assert Growth(1) == 1.3;
    assert Growth(2) == 1.69;
    assert Growth(4) == 1.69 * 1.69 by { assert Growth(3) == 2.197; }
    assert Growth(8) > 8.0 by { assert Growth(6) == Growth(5) * 1.3; assert Growth(7) == Growth(6) * 1.3; }
  }
}
