/**
 * The adaptive polling interval, in 64-bit nanoseconds as the program computes it.
 */
module Interval {
  import opened Prelude

  const MAX_INT64: int := 0x7fff_ffff_ffff_ffff
  const DEFAULT_MIN: int := 5_000_000_000
  const DEFAULT_MAX: int := 30_000_000_000

  function Wrap(x: int): int {
    if -MAX_INT64 - 1 <= x <= MAX_INT64 then x
    else (x + MAX_INT64 + 1) % (2 * (MAX_INT64 + 1)) - (MAX_INT64 + 1)
  }

  /** Division of the host language: towards zero. */
  function Quotient(a: int, b: int): int
    requires b > 0
  {
    if a >= 0 then a / b else -((-a) / b)
  }

  /** Wrapping changes a value by whole multiples of 2^64, into the range of 64 bits. */
  lemma WrapIsCongruent(x: int)
    ensures -0x8000_0000_0000_0000 <= Wrap(x) <= 0x7fff_ffff_ffff_ffff
    ensures (x - Wrap(x)) % 0x1_0000_0000_0000_0000 == 0
  {
  }

  /** Division rounds towards zero, on both sides of it. */
  lemma QuotientTruncates(a: int, b: int)
    requires b > 0
    ensures Quotient(-a, b) == -Quotient(a, b)
    ensures a >= 0 ==> Quotient(a, b) == a / b
  {
    if a == 0 {
      assert 0 / b == 0;
    }
  }

  /** normalizePollIntervals */
  function Normalize(min: int, max: int): (r: (int, int))
    ensures 0 < r.0 <= r.1
    ensures 0 < min <= max ==> r == (min, max)
    ensures r.0 == min || (min <= 0 && r.0 == 5_000_000_000)
    ensures r.1 == r.0 || r.1 == max || (max <= 0 && r.1 == 30_000_000_000)
    ensures max <= r.1 && (max <= 0 ==> 30_000_000_000 <= r.1)
  {
    var lo := if min <= 0 then DEFAULT_MIN else min;
    var hi := if max <= 0 then DEFAULT_MAX else max;
    (lo, if hi < lo then lo else hi)
  }

  /** adjustInterval */
  function Adjust(v: int, min: int, max: int, active: bool): int {
    if active then
      var w := Quotient(Wrap(v * 2), 3);
      if w < min then min else w
    else
      var w := Quotient(Wrap(v * 3), 2);
      if w > max then max else w
  }

  function AdjustAll(v: int, min: int, max: int, polls: seq<bool>): int {
    if polls == [] then v else Adjust(AdjustAll(v, min, max, polls[..|polls| - 1]), min, max, polls[|polls| - 1])
  }

  /** In every run the interval stays between its bounds, as long as the larger bound times three fits. */
  lemma {:induction false} StaysInBounds(v: int, min: int, max: int, polls: seq<bool>)
    requires 0 < min <= v <= max && 3 * max <= MAX_INT64
    ensures min <= AdjustAll(v, min, max, polls) <= max
    decreases |polls|
  {
    if polls != [] {
      StaysInBounds(v, min, max, polls[..|polls| - 1]);
    }
  }

  /** An interval from which an idle poll leaves the bounds when three times the maximum does not fit. */
  function Overflowing(min: int): int {
    Max(min, MAX_INT64 / 3 + 1)
  }

  lemma OverflowLeavesBounds(min: int, max: int)
    requires 0 < min <= max <= MAX_INT64 < 3 * max
    ensures min <= Overflowing(min) <= max && Adjust(Overflowing(min), min, max, false) < min
  {
  }

  /** Every poll keeps every interval within the bounds exactly when three times the maximum fits into 64 bits. */
  lemma BoundsKeptIff(min: int, max: int)
    requires 0 < min <= max <= MAX_INT64
    ensures (forall v, active :: min <= v <= max ==> min <= Adjust(v, min, max, active) <= max) <==> 3 * max <= MAX_INT64
  {
    if 3 * max > MAX_INT64 {
      OverflowLeavesBounds(min, max);
    }
  }

  function Pow2(n: nat): nat {
    if n == 0 then 1 else 2 * Pow2(n - 1)
  }

  /** The interval after `n` polls without activity. */
  function AfterIdle(v: int, min: int, max: int, n: nat): int {
    if n == 0 then v else Adjust(AfterIdle(v, min, max, n - 1), min, max, false)
  }

  lemma IdleStep(v: int, min: int, max: int)
    requires 2 <= v <= max && 3 * max <= MAX_INT64
    ensures Adjust(v, min, max, false) == Min(max, v * 3 / 2)
  {
  }

  /** Rounding down still leaves a third at every step, so three idle polls at least double the interval. */
  lemma ThreeIdlePollsDouble(v: int, min: int, max: int, n: nat)
    requires 2 <= AfterIdle(v, min, max, n) <= max && 3 * max <= MAX_INT64
    ensures
      var w := AfterIdle(v, min, max, n + 3);
      2 <= w <= max && w >= Min(max, 2 * AfterIdle(v, min, max, n))
  {
    IdleStep(AfterIdle(v, min, max, n), min, max);
    IdleStep(AfterIdle(v, min, max, n + 1), min, max);
    IdleStep(AfterIdle(v, min, max, n + 2), min, max);
  }

  lemma Doubled(p: nat, v: int)
    ensures 2 * p * v == 2 * (p * v)
  {
  }

  /** Idle polling climbs geometrically: 3n idle polls reach the maximum once 2^n times the start exceeds it. */
  lemma {:induction false} IdleReachesMax(v: int, min: int, max: int, n: nat)
    requires 2 <= v <= max && 3 * max <= MAX_INT64
    ensures 2 <= AfterIdle(v, min, max, 3 * n) <= max
    ensures AfterIdle(v, min, max, 3 * n) >= Min(max, Pow2(n) * v)
  {
    if n > 0 {
      IdleReachesMax(v, min, max, n - 1);
      var m, p := 3 * (n - 1), Pow2(n - 1);
      ThreeIdlePollsDouble(v, min, max, m);
      assert m + 3 == 3 * n && Pow2(n) == 2 * p;
      Doubled(p, v);
    }
  }

  /** An interval of one nanosecond never grows: rounding eats the whole step. */
  lemma {:induction false} OneNanosecondIsStuck(max: int, n: nat)
    requires 1 <= max
    ensures AfterIdle(1, 1, max, n) == 1
  {
    if n > 0 {
      OneNanosecondIsStuck(max, n - 1);
    }
  }

  /** The interval after `n` polls with activity. */
  function AfterActive(v: int, min: int, max: int, n: nat): int {
    if n == 0 then v else Adjust(AfterActive(v, min, max, n - 1), min, max, true)
  }

  /** A poll with activity never raises the interval, not even when the product wraps round. */
  lemma ActiveNeverRaises(v: int, min: int, max: int)
    requires 0 < min <= v <= MAX_INT64
    ensures min <= Adjust(v, min, max, true) <= v
    ensures 2 * v <= MAX_INT64 ==> Adjust(v, min, max, true) == Max(min, v * 2 / 3)
  {
  }

  /** Two of them at least halve it, down to the minimum. */
  lemma TwoActivePollsHalve(v: int, min: int, max: int, n: nat)
    requires 0 < min <= AfterActive(v, min, max, n) <= MAX_INT64
    ensures
      var w := AfterActive(v, min, max, n + 2);
      min <= w <= AfterActive(v, min, max, n) && (w == min || 2 * w <= AfterActive(v, min, max, n))
  {
    ActiveNeverRaises(AfterActive(v, min, max, n), min, max);
    ActiveNeverRaises(AfterActive(v, min, max, n + 1), min, max);
  }

  /** Activity brings the interval down geometrically: 2n polls reach the minimum once 2^n times it exceeds the start. */
  lemma {:induction false} ActiveReachesMin(v: int, min: int, max: int, n: nat)
    requires 0 < min <= v <= MAX_INT64
    ensures min <= AfterActive(v, min, max, 2 * n) <= v
    ensures AfterActive(v, min, max, 2 * n) == min || Pow2(n) * AfterActive(v, min, max, 2 * n) <= v
  {
    if n > 0 {
      ActiveReachesMin(v, min, max, n - 1);
      var m, p := 2 * (n - 1), Pow2(n - 1);
      TwoActivePollsHalve(v, min, max, m);
      assert m + 2 == 2 * n && Pow2(n) == 2 * p;
      var was, now := AfterActive(v, min, max, m), AfterActive(v, min, max, m + 2);
      HalvedAgain(p, was, now, min, v);
    }
  }

  lemma HalvedAgain(p: nat, was: int, now: int, min: int, v: int)
    requires 0 < min <= now <= was && (was == min || p * was <= v) && (now == min || 2 * now <= was)
    ensures now == min || 2 * p * now <= v
  {
    if now != min {
      assert p * (2 * now) <= p * was;
      assert 2 * p * now == p * (2 * now);
    }
  }
}
