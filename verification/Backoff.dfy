/** The three exponential-backoff loops of the repository, on wrapping 64-bit durations:
    alerts/notify.go:180-192 (closed form per attempt) and the running `delay` variable of
    connectors/runtime.go:166-196 and sdk-go/sdkhttp/sdkhttp.go:61-76. */
module Backoff {
  import opened Common

  const TWO62: int := 0x4000_0000_0000_0000
  const TWO63: int := 0x8000_0000_0000_0000
  const TWO64: int := 0x1_0000_0000_0000_0000

  predicate Int64(x: int) { -TWO63 <= x < TWO63 }

  /** Two's-complement wrap-around of a 64-bit result. */
  function Wrap(x: int): int { (x + TWO63) % TWO64 - TWO63 }

  /** The one number congruent to x modulo 2^64 that a signed 64-bit integer can hold. */
  lemma WrapIsTwosComplement(x: int)
    ensures -0x8000_0000_0000_0000 <= Wrap(x) <= 0x7FFF_FFFF_FFFF_FFFF
    ensures (Wrap(x) - x) % 0x1_0000_0000_0000_0000 == 0
  {
    var q := (x + TWO63) / TWO64;
    assert Wrap(x) - x == -q * TWO64;
  }

  function Pow2(n: nat): nat { if n == 0 then 1 else 2 * Pow2(n - 1) }

  /** The promised wait before the k-th retry. */
  function Schedule(base: int, max: int, k: nat): int
    requires k >= 1
  {
    Min(max, base * Pow2(k - 1))
  }

  // ------------------------------------------------------------------
  // notify.go: backoff(base, max, attempt)
  // ------------------------------------------------------------------

  /** The loop with `left` doublings to go. */
  function DoublingsFrom(d: int, max: int, left: nat): int
    decreases left
  {
    if left == 0 then (if d > max then max else d)
    else if Wrap(d * 2) > max then max
    else DoublingsFrom(Wrap(d * 2), max, left - 1)
  }

  function NotifyDelay(base: int, max: int, attempt: int): int {
    DoublingsFrom(base, max, if attempt < 1 then 0 else attempt - 1)
  }

  method NotifyBackoff(base: int, max: int, attempt: int) returns (d: int)
    requires Int64(base) && Int64(max)
    ensures d == NotifyDelay(base, max, attempt)
  {
    d := base;
    var i := 1;
    while i < attempt
      invariant 1 <= i && (i <= attempt || i == 1)
      invariant DoublingsFrom(d, max, if attempt < i then 0 else attempt - i) == NotifyDelay(base, max, attempt)
    {
      d := Wrap(d * 2);
      if d > max {
        return max;
      }
      i := i + 1;
    }
    if d > max {
      return max;
    }
  }

  // ------------------------------------------------------------------
  // runtime.go and sdkhttp.go: a running delay
  // ------------------------------------------------------------------

  function NextDelay(delay: int, max: int): int {
    if delay < max then (if Wrap(delay * 2) > max then max else Wrap(delay * 2)) else delay
  }

  /** The wait before the k-th retry of a loop that updates `delay` after each wait. */
  function RunningDelay(base: int, max: int, k: nat): int
    requires k >= 1
  {
    if k == 1 then base else NextDelay(RunningDelay(base, max, k - 1), max)
  }

  // ------------------------------------------------------------------
  // Against the schedule
  // ------------------------------------------------------------------

  lemma WrapIsIdentity(x: int)
    requires Int64(x)
    ensures Wrap(x) == x
  {
  }

  lemma Doubled(base: int, n: nat)
    ensures base * Pow2(n + 1) == 2 * (base * Pow2(n))
  {
    var p := Pow2(n);
    assert Pow2(n + 1) == 2 * p;
    assert base * (2 * p) == 2 * (base * p);
  }

  lemma {:induction false} Pow2Grows(base: int, i: nat, j: nat)
    requires base > 0 && i <= j
    ensures base <= base * Pow2(i) <= base * Pow2(j)
    decreases j
  {
    if i < j {
      Pow2Grows(base, i, j - 1);
      Doubled(base, j - 1);
    } else if i > 0 {
      Pow2Grows(base, i - 1, i - 1);
      Doubled(base, i - 1);
    } else {
      assert base * Pow2(0) == base;
    }
  }

  /** Below 2^62 the running delay is the schedule; it never overflows. */
  lemma {:induction false} RunningIsSchedule(base: int, max: int, k: nat)
    requires 0 < base <= max < TWO62 && k >= 1
    ensures RunningDelay(base, max, k) == Schedule(base, max, k)
    ensures 0 < RunningDelay(base, max, k) <= max
    ensures Int64(2 * RunningDelay(base, max, k))
  {
    assert base * Pow2(0) == base;
    if k > 1 {
      RunningIsSchedule(base, max, k - 1);
      Doubled(base, k - 2);
      WrapIsIdentity(RunningDelay(base, max, k - 1) * 2);
    }
  }

  lemma {:induction false} DoublingsAre(base: int, max: int, done: nat, left: nat)
    requires 0 < base && 0 < max < TWO63
    requires base * Pow2(done) <= max || (left == 0 && Int64(base * Pow2(done)))
    requires forall j: nat :: done <= j < done + left && base * Pow2(j) <= max ==> base * Pow2(j) < TWO62
    ensures DoublingsFrom(base * Pow2(done), max, left) == Min(max, base * Pow2(done + left))
    decreases left
  {
    if left == 0 {
    } else {
      var d := base * Pow2(done);
      Doubled(base, done);
      assert d < TWO62;
      WrapIsIdentity(d * 2);
      if d * 2 > max {
        Pow2Grows(base, done + 1, done + left);
      } else {
        DoublingsAre(base, max, done + 1, left - 1);
      }
    }
  }

  lemma LastDoublingOverflows(d: int, max: int)
    requires TWO62 <= d < TWO63 && 0 < max
    ensures DoublingsFrom(d, max, 1) < 0
  {
    assert Wrap(d * 2) == d * 2 - TWO64 < 0;
    assert DoublingsFrom(Wrap(d * 2), max, 0) < 0;
  }

  lemma {:induction false} NotifyOverflowsAfter(base: int, max: int, done: nat, j: nat)
    requires 0 < base <= max < TWO63 && done <= j && TWO62 <= base * Pow2(j) <= max
    ensures DoublingsFrom(base * Pow2(done), max, j + 1 - done) < 0
    decreases j - done
  {
    var d := base * Pow2(done);
    if done < j {
      Pow2Grows(base, 0, done);
      Doubled(base, done);
      Pow2Grows(base, done + 1, j);
      WrapIsIdentity(d * 2);
      NotifyOverflowsAfter(base, max, done + 1, j);
    } else {
      LastDoublingOverflows(d, max);
    }
  }

  lemma DoublingsExceed(base: int, j: nat)
    requires base > 0
    ensures j > 0 ==> base * Pow2(j) > base
  {
    if j > 0 {
      Pow2Grows(base, 1, j);
      assert base * Pow2(1) == 2 * base;
    }
  }

  lemma NotifyMisses(base: int, max: int, j: nat)
    requires 0 < base < TWO63 && 0 < max < TWO63 && TWO62 <= base * Pow2(j) <= Max(base, max)
    ensures NotifyDelay(base, max, j + 2) < 0 < Schedule(base, max, j + 2)
  {
    assert base * Pow2(0) == base;
    Pow2Grows(base, 0, j + 1);
    if base <= max {
      NotifyOverflowsAfter(base, max, 0, j);
    } else {
      DoublingsExceed(base, j);
      LastDoublingOverflows(base, max);
    }
  }

  lemma NotifyMeets(base: int, max: int, k: nat)
    requires 0 < base < TWO63 && 0 < max < TWO63 && k >= 1
    requires !exists j: nat :: TWO62 <= base * Pow2(j) <= Max(base, max)
    ensures NotifyDelay(base, max, k) == Schedule(base, max, k)
  {
    assert base * Pow2(0) == base;
    if base <= max {
      DoublingsAre(base, max, 0, k - 1);
    } else {
      Pow2Grows(base, 0, k - 1);
      assert base < TWO62;
      WrapIsIdentity(base * 2);
    }
  }

  /** For every base and cap the constructor lets through: notify.go's backoff meets the
      schedule on every attempt if and only if no doubling of the base, the base itself
      included, lands between 2^62 and the greater of the two, where one more overflows. */
  lemma NotifyMeetsScheduleIff(base: int, max: int)
    requires 0 < base < TWO63 && 0 < max < TWO63
    ensures (forall k: nat :: k >= 1 ==> NotifyDelay(base, max, k) == Schedule(base, max, k))
            <==> !exists j: nat :: TWO62 <= base * Pow2(j) <= Max(base, max)
  {
    assert base * Pow2(0) == base;
    if j: nat :| TWO62 <= base * Pow2(j) <= Max(base, max) {
      NotifyMisses(base, max, j);
    } else {
      forall k: nat | k >= 1
        ensures NotifyDelay(base, max, k) == Schedule(base, max, k)
      {
        NotifyMeets(base, max, k);
      }
    }
  }

  // ------------------------------------------------------------------
  // The running delay, whole range
  // ------------------------------------------------------------------

  lemma {:induction false} RunningMeets(base: int, max: int, k: nat)
    requires 0 < base <= max < TWO63 && k >= 1
    requires !exists j: nat :: TWO62 <= base * Pow2(j) < max
    ensures RunningDelay(base, max, k) == Schedule(base, max, k)
  {
    assert base * Pow2(0) == base;
    if k == 1 {
    } else {
      RunningMeets(base, max, k - 1);
      Doubled(base, k - 2);
      Pow2Grows(base, 0, k - 2);
      var d := base * Pow2(k - 2);
      if d < max {
        assert d < TWO62;
        WrapIsIdentity(d * 2);
      }
    }
  }

  lemma RunningMisses(base: int, max: int, j: nat)
    requires 0 < base <= max < TWO63 && TWO62 <= base * Pow2(j) < max
    ensures exists k: nat :: k >= 1 && RunningDelay(base, max, k) != Schedule(base, max, k)
  {
    var d := base * Pow2(j);
    Pow2Grows(base, j, j + 1);
    assert Schedule(base, max, j + 1) == d && Schedule(base, max, j + 2) > 0;
    if RunningDelay(base, max, j + 1) == d {
      assert Wrap(d * 2) == d * 2 - TWO64 < 0;
      assert RunningDelay(base, max, j + 2) == NextDelay(d, max) < 0;
    }
  }

  /** The running loop meets the schedule on every retry if and only if the base is at most the
      cap and no doubling of the base that is still below the cap is 2^62 or more. */
  lemma RunningMeetsScheduleIff(base: int, max: int)
    requires 0 < base < TWO63 && 0 < max < TWO63
    ensures (forall k: nat :: k >= 1 ==> RunningDelay(base, max, k) == Schedule(base, max, k))
            <==> base <= max && !exists j: nat :: TWO62 <= base * Pow2(j) < max
  {
    assert base * Pow2(0) == base;
    if base > max {
      assert RunningDelay(base, max, 1) == base > max == Schedule(base, max, 1);
    } else if j: nat :| TWO62 <= base * Pow2(j) < max {
      RunningMisses(base, max, j);
    } else {
      forall k: nat | k >= 1
        ensures RunningDelay(base, max, k) == Schedule(base, max, k)
      {
        RunningMeets(base, max, k);
      }
    }
  }

  // ------------------------------------------------------------------
  // The two loops against each other, whole range
  // ------------------------------------------------------------------

  /** The base after n doublings of a 64-bit integer. */
  function Wrapped(base: int, n: nat): int {
    if n == 0 then base else Wrap(Wrapped(base, n - 1) * 2)
  }

  /** Some doubling up to the n-th went past the cap. */
  predicate Passed(base: int, max: int, n: nat) {
    n > 0 && (Passed(base, max, n - 1) || Wrapped(base, n) > max)
  }

  /** A cap of 2^62 or more is hit exactly by a doubling before any passes it: there the
      running delay stays, while the dispatcher's loop doubles once more and overflows. */
  predicate HitsCap(base: int, max: int, n: nat) {
    max >= TWO62 && !Passed(base, max, n) && Wrapped(base, n) == max
  }

  lemma {:induction false} PassedStays(base: int, max: int, i: nat, j: nat)
    requires Passed(base, max, i) && i <= j
    ensures Passed(base, max, j)
    decreases j
  {
    if i < j {
      PassedStays(base, max, i, j - 1);
    }
  }

  /** The dispatcher's delay is the wrapped doubling, or the cap once one has passed it. */
  lemma {:induction false} NotifyIsWrapped(base: int, max: int, done: nat, left: nat)
    requires !Passed(base, max, done) && Wrapped(base, done) <= max
    ensures DoublingsFrom(Wrapped(base, done), max, left)
            == if Passed(base, max, done + left) then max else Wrapped(base, done + left)
    decreases left
  {
    if left == 0 {
    } else if Wrapped(base, done + 1) > max {
      PassedStays(base, max, done + 1, done + left);
    } else {
      NotifyIsWrapped(base, max, done + 1, left - 1);
    }
  }

  /** So is the running delay, until a doubling hits the cap. */
  lemma {:induction false} RunningIsWrapped(base: int, max: int, n: nat)
    requires 0 < base <= max < TWO63
    requires forall m: nat :: m < n ==> !HitsCap(base, max, m)
    ensures RunningDelay(base, max, n + 1) == if Passed(base, max, n) then max else Wrapped(base, n)
    ensures Passed(base, max, n) || Wrapped(base, n) <= max
  {
    if n == 0 {
    } else {
      RunningIsWrapped(base, max, n - 1);
      assert !HitsCap(base, max, n - 1);
      if !Passed(base, max, n - 1) && Wrapped(base, n - 1) == max {
        WrapIsIdentity(max * 2);
      }
    }
  }

  lemma NotifyIsWrappedAt(base: int, max: int, n: nat)
    requires 0 < base <= max
    ensures NotifyDelay(base, max, n + 1) == if Passed(base, max, n) then max else Wrapped(base, n)
  {
    NotifyIsWrapped(base, max, 0, n);
  }

  /** At the first hit the loops part. */
  lemma {:induction false} HitParts(base: int, max: int, n: nat)
    requires 0 < base <= max < TWO63 && HitsCap(base, max, n)
    ensures exists k: nat :: k >= 1 && NotifyDelay(base, max, k) != RunningDelay(base, max, k)
  {
    if m: nat :| m < n && HitsCap(base, max, m) {
      HitParts(base, max, m);
    } else {
      RunningIsWrapped(base, max, n);
      assert RunningDelay(base, max, n + 2) == NextDelay(max, max) == max;
      assert Wrapped(base, n + 1) == Wrap(max * 2) == max * 2 - TWO64 < 0;
      NotifyIsWrappedAt(base, max, n + 1);
      assert NotifyDelay(base, max, n + 2) == Wrapped(base, n + 1);
    }
  }

  /** For all positive durations: the dispatcher's loop and a running delay agree on every retry
      if and only if the base is at most the cap and, when the cap is 2^62 or more, no doubling
      hits it exactly. */
  lemma LoopsAgreeIff(base: int, max: int)
    requires 0 < base < TWO63 && 0 < max < TWO63
    ensures (forall k: nat :: k >= 1 ==> NotifyDelay(base, max, k) == RunningDelay(base, max, k))
            <==> base <= max && !exists n: nat :: HitsCap(base, max, n)
  {
    if base > max {
      assert NotifyDelay(base, max, 1) == max < base == RunningDelay(base, max, 1);
    } else if n: nat :| HitsCap(base, max, n) {
      HitParts(base, max, n);
    } else {
      forall k: nat | k >= 1
        ensures NotifyDelay(base, max, k) == RunningDelay(base, max, k)
      {
        RunningIsWrapped(base, max, k - 1);
        NotifyIsWrappedAt(base, max, k - 1);
      }
    }
  }

  // ------------------------------------------------------------------
  // The common schedule
  // ------------------------------------------------------------------

  /** Below 2^62 all three loops compute one schedule, and it never decreases. */
  lemma OneSchedule(base: int, max: int, k: nat)
    requires 0 < base <= max < TWO62 && k >= 1
    ensures NotifyDelay(base, max, k) == RunningDelay(base, max, k) == Schedule(base, max, k)
    ensures Schedule(base, max, k) <= Schedule(base, max, k + 1)
  {
    RunningIsSchedule(base, max, k);
    NotifyMeets(base, max, k);
    Pow2Grows(base, k - 1, k);
  }

  function TotalWait(base: int, max: int, k: nat): int {
    if k == 0 then 0 else TotalWait(base, max, k - 1) + Schedule(base, max, k)
  }

  /** After k retries the total wait is at most base * (2^k - 1), and at most k * max. */
  lemma {:induction false} TotalWaitBound(base: int, max: int, k: nat)
    requires 0 < base <= max
    ensures TotalWait(base, max, k) <= base * (Pow2(k) - 1)
    ensures TotalWait(base, max, k) <= k * max
  {
    if k > 0 {
      TotalWaitBound(base, max, k - 1);
      assert base * (Pow2(k) - 1) == base * (Pow2(k - 1) - 1) + base * Pow2(k - 1);
      assert k * max == (k - 1) * max + max;
    } else {
      assert base * (Pow2(0) - 1) == 0;
    }
  }
}
