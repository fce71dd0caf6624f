/**
 * Capped exponential backoff: `next_retry_at` computes it in closed form, `FallbackBackoff`
 * one step at a time.  Durations are real seconds; the code uses floats, and float rounding
 * is not modelled.
 */
module Backoff {
  import opened MessageTable

  datatype Policy = Policy(initial: real, max: real, multiplier: real)

  function Min(a: real, b: real): real {
    if b < a then b else a
  }

  function Pow(m: real, k: nat): real {
    if k == 0 then 1.0 else m * Pow(m, k - 1)
  }

  /** The formula of the documentation: min(initial * multiplier**attempts, max). */
  function ExactDelay(p: Policy, attempts: nat): real {
    Min(p.initial * Pow(p.multiplier, attempts), p.max)
  }

  // ---- _retry.next_retry_at ----

  /** Every power beyond this raises `OverflowError`: the largest float is below 1.8e308. */
  const FLOAT_LIMIT: real :=
    179769313486231570814527423731704356798070567525844996598917476803157260780028538760589558632766878171540458953514382464234321326889464182768467546703537516986049910576551282076245490090389328944075868508455133942304583236903222948165808559332123347747971726204144723168738177180919299881250404026184124858368.0

  predicate Overflows(x: real) {
    x > FLOAT_LIMIT || x < -FLOAT_LIMIT
  }

  /** The delay as computed: an overflowing power counts as infinitely large. */
  function Delay(p: Policy, attempts: nat): real {
    var power := Pow(p.multiplier, attempts);
    if Overflows(power) then p.max else Min(p.initial * power, p.max)
  }

  /** `timedelta` counts whole microseconds and spans less than 10^9 days. */
  const DAY_LIMIT: real := 86400000000000.0

  predicate InTimedeltaRange(seconds: real) {
    && -DAY_LIMIT < seconds < DAY_LIMIT
    && (seconds == 0.0 || seconds >= 0.000001 || seconds <= -0.000001)
  }

  lemma MulNonNegative(a: real, b: real)
    requires a >= 0.0 && b >= 0.0
    ensures a * b >= 0.0
  {
  }

  lemma MulAtLeast(a: real, b: real, x: real, y: real)
    requires 0.0 <= a <= x && 0.0 <= b <= y
    ensures a * b <= x * y
  {
    MulNonNegative(x - a, y);
    MulNonNegative(a, y - b);
    assert x * y - a * b == (x - a) * y + a * (y - b);
  }

  lemma Regroup(a: real, b: real, c: real)
    ensures a * (b * c) == (a * c) * b
  {
  }

  /** A power that overflows dwarfs every duration. */
  lemma OverflowDwarfs(x: real, power: real)
    requires x >= 0.000001 && power > FLOAT_LIMIT
    ensures x * power > DAY_LIMIT
  {
    MulAtLeast(0.000001, FLOAT_LIMIT, x, power);
  }

  lemma Negations(a: real, b: real)
    ensures (-a) * b == -(a * b) && a * (-b) == -(a * b) && (-a) * (-b) == a * b
  {
  }

  /** It dwarfs them in the direction its sign gives it. */
  lemma SignedOverflowDwarfs(x: real, power: real)
    requires InTimedeltaRange(x) && x != 0.0 && Overflows(power)
    ensures if (x > 0.0) == (power > 0.0) then x * power > DAY_LIMIT else x * power < -DAY_LIMIT
  {
    Negations(x, power);
    OverflowDwarfs(if x > 0.0 then x else -x, if power > 0.0 then power else -power);
  }

  /** Once the power overflows, the computed delay is the cap: right exactly when the product reaches the cap. */
  lemma CapDecides(p: Policy, attempts: nat, product: real)
    requires Overflows(Pow(p.multiplier, attempts)) && product == p.initial * Pow(p.multiplier, attempts)
    ensures Delay(p, attempts) == ExactDelay(p, attempts) <==> product >= p.max
  {
  }

  /**
   * The overflow branch gives the exact formula if and only if the exact product is positive,
   * or the initial interval is zero and the cap is not positive.  With a positive initial
   * interval and a positive multiplier it always does.
   */
  lemma OverflowBranchIsExact(p: Policy, attempts: nat)
    requires InTimedeltaRange(p.initial) && InTimedeltaRange(p.max) && Overflows(Pow(p.multiplier, attempts))
    ensures var power := Pow(p.multiplier, attempts);
      Delay(p, attempts) == ExactDelay(p, attempts) <==>
      (p.initial > 0.0 && power > 0.0) || (p.initial < 0.0 && power < 0.0) || (p.initial == 0.0 && p.max <= 0.0)
  {
    var power := Pow(p.multiplier, attempts);
    CapDecides(p, attempts, p.initial * power);
    if p.initial != 0.0 {
      SignedOverflowDwarfs(p.initial, power);
    }
  }

  lemma {:induction false} PowPositive(m: real, k: nat)
    requires m > 0.0
    ensures Pow(m, k) > 0.0
    ensures m >= 1.0 ==> Pow(m, k) >= 1.0
  {
    if k > 0 {
      PowPositive(m, k - 1);
      if m >= 1.0 {
        MulAtLeast(1.0, 1.0, m, Pow(m, k - 1));
      }
    }
  }

  lemma {:induction false} PowAdds(m: real, j: nat, k: nat)
    ensures Pow(m, j + k) == Pow(m, j) * Pow(m, k)
  {
    if j > 0 {
      PowAdds(m, j - 1, k);
      assert j + k - 1 == (j - 1) + k;
      Associates(m, Pow(m, j - 1), Pow(m, k));
    }
  }

  lemma Associates(a: real, b: real, c: real)
    ensures a * (b * c) == (a * b) * c
  {
  }

  lemma TenToThe400()
    ensures Overflows(Pow(10.0, 400))
  {
    PowAdds(10.0, 5, 5);
    PowAdds(10.0, 10, 10);
    PowAdds(10.0, 20, 20);
    PowAdds(10.0, 40, 40);
    PowAdds(10.0, 80, 20);
    PowAdds(10.0, 100, 100);
    PowAdds(10.0, 200, 200);
    assert Pow(10.0, 5) == 100000.0;
  }

  /** Where the overflow branch goes wrong: no initial interval, yet the retry waits for the cap. */
  lemma OverflowIgnoresZeroInterval(p: Policy)
    requires p == Policy(0.0, 60.0, 10.0)
    ensures Delay(p, 400) == 60.0 && ExactDelay(p, 400) == 0.0
  {
    TenToThe400();
    ZeroTimes(Pow(10.0, 400));
  }

  lemma ZeroTimes(x: real)
    ensures 0.0 * x == 0.0
  {
  }

  /** Every usable policy gets the documented formula, whether or not the power overflows. */
  lemma DelayIsExact(p: Policy, attempts: nat)
    requires InTimedeltaRange(p.initial) && InTimedeltaRange(p.max) && p.initial > 0.0 && p.multiplier > 0.0
    ensures Delay(p, attempts) == ExactDelay(p, attempts)
  {
    PowPositive(p.multiplier, attempts);
    if Overflows(Pow(p.multiplier, attempts)) {
      OverflowBranchIsExact(p, attempts);
    }
  }

  /** `n` is `scaled` rounded to a whole number, halves to even. */
  predicate Rounds(scaled: real, n: int) {
    var off := scaled - n as real;
    -0.5 <= off <= 0.5 && (off == 0.5 || off == -0.5 ==> n % 2 == 0)
  }

  lemma RoundsToOne(scaled: real)
    ensures exists n :: Rounds(scaled, n)
    ensures forall m, n :: Rounds(scaled, m) && Rounds(scaled, n) ==> m == n
  {
    var n := RoundsToSome(scaled);
    forall m, n | Rounds(scaled, m) && Rounds(scaled, n)
      ensures m == n
    {
      RoundsInOrder(scaled, scaled, m, n);
      RoundsInOrder(scaled, scaled, n, m);
    }
  }

  lemma RoundsToSome(scaled: real) returns (n: int)
    ensures Rounds(scaled, n)
  {
    n := scaled.Floor;
    var rest := scaled - n as real;
    if rest > 0.5 || (rest == 0.5 && n % 2 != 0) {
      n := n + 1;
    }
  }

  lemma RoundsInOrder(a: real, b: real, m: int, n: int)
    requires a <= b && Rounds(a, m) && Rounds(b, n)
    ensures m <= n
  {
  }

  /** `timedelta(seconds=...)` rounds to whole microseconds, halves to even. */
  function Micros(seconds: real): int {
    RoundsToOne(seconds * 1000000.0);
    var n :| Rounds(seconds * 1000000.0, n);
    n
  }

  function RetryAfter(delay: real, now: Time): Time {
    now + Micros(delay)
  }

  function NextRetryAt(p: Policy, attempts: nat, now: Time): Time {
    RetryAfter(Delay(p, attempts), now)
  }

  // ---- the shape of the schedule ----

  predicate Usable(p: Policy) {
    p.multiplier >= 1.0 && 0.0 < p.initial <= p.max
  }

  lemma {:induction false} PowGrows(m: real, j: nat, k: nat)
    requires m >= 1.0 && j <= k
    ensures 1.0 <= Pow(m, j) <= Pow(m, k)
  {
    PowPositive(m, j);
    if j < k {
      PowGrows(m, j, k - 1);
      MulAtLeast(1.0, Pow(m, k - 1), m, Pow(m, k - 1));
    }
  }

  /** The exact delay is within [initial, max] and never shrinks with the number of attempts. */
  lemma ExactDelayGrows(p: Policy, j: nat, k: nat)
    requires Usable(p) && j <= k
    ensures p.initial <= ExactDelay(p, j) <= ExactDelay(p, k) <= p.max
  {
    PowGrows(p.multiplier, j, k);
    MulAtLeast(p.initial, 1.0, p.initial, Pow(p.multiplier, j));
    MulAtLeast(p.initial, Pow(p.multiplier, j), p.initial, Pow(p.multiplier, k));
  }

  /** Rounding keeps the order of retry times and moves none by more than half a microsecond. */
  lemma RoundingKeepsOrder(a: real, b: real, now: Time)
    requires a <= b
    ensures RetryAfter(a, now) <= RetryAfter(b, now)
    ensures -0.5 <= (RetryAfter(a, now) - now) as real - a * 1000000.0 <= 0.5
  {
    RoundsToOne(a * 1000000.0);
    RoundsToOne(b * 1000000.0);
    RoundsInOrder(a * 1000000.0, b * 1000000.0, Micros(a), Micros(b));
  }

  /** A computed delay is no shorter than the initial interval, no longer than the cap, and never shrinks with more attempts. */
  lemma RetriesSpreadOut(p: Policy, j: nat, k: nat)
    requires Usable(p) && InTimedeltaRange(p.initial) && InTimedeltaRange(p.max) && j <= k
    ensures p.initial <= Delay(p, j) <= Delay(p, k) <= p.max
  {
    DelayIsExact(p, j);
    DelayIsExact(p, k);
    ExactDelayGrows(p, j, k);
  }

  /** The policies for which the documented formula is meant, within `timedelta`'s range. */
  predicate PositiveIntervals(p: Policy) {
    && 0.000001 <= p.initial < 86400000000000.0
    && 0.000001 <= p.max < 86400000000000.0
    && p.multiplier > 0.0
  }

  /** `micros` is `exact` rounded to a whole number. */
  predicate OffByAtMostHalf(micros: int, exact: real) {
    -0.5 <= micros as real - exact <= 0.5
  }

  /** `next_retry_at` is `now` plus min(initial * multiplier^attempts, max), to the nearest microsecond. */
  lemma NextRetryIsExact(p: Policy, attempts: nat, now: Time)
    requires 0.000001 <= p.initial < 86400000000000.0 && 0.000001 <= p.max < 86400000000000.0 && p.multiplier > 0.0
    ensures OffByAtMostHalf(NextRetryAt(p, attempts, now) - now, 1000000.0 * ExactDelay(p, attempts))
  {
    DelayIsExact(p, attempts);
    RetryTimeOf(p, attempts, now, ExactDelay(p, attempts));
  }

  lemma RetryTimeOf(p: Policy, attempts: nat, now: Time, delay: real)
    requires Delay(p, attempts) == delay
    ensures NextRetryAt(p, attempts, now) == RetryAfter(delay, now)
    ensures OffByAtMostHalf(NextRetryAt(p, attempts, now) - now, 1000000.0 * delay)
  {
    RoundingIsClose(delay, now);
  }

  /** A half rounds to the even neighbour. */
  lemma HalvesGoToEven(now: Time)
    ensures RetryAfter(0.0000005, now) == now && RetryAfter(0.0000015, now) == now + 2 && RetryAfter(-0.0000015, now) == now - 2
  {
    RoundsToOne(0.5);
    RoundsToOne(1.5);
    RoundsToOne(-1.5);
    assert Rounds(0.5, 0) && Rounds(1.5, 2) && Rounds(-1.5, -2);
  }

  /** One second, doubled three times. */
  lemma ThirdRetryWaitsEightSeconds(p: Policy, now: Time)
    requires p == Policy(1.0, 60.0, 2.0)
    ensures NextRetryAt(p, 3, now) == now + 8000000
  {
    assert Pow(2.0, 1) == 2.0 && Pow(2.0, 2) == 4.0 && Pow(2.0, 3) == 8.0;
    RetryTimeOf(p, 3, now, 8.0);
  }

  lemma RoundingIsClose(delay: real, now: Time)
    ensures OffByAtMostHalf(RetryAfter(delay, now) - now, 1000000.0 * delay)
  {
    RoundsToOne(delay * 1000000.0);
  }

  /** Later attempts are retried no sooner. */
  lemma NextRetryGrows(p: Policy, j: nat, k: nat, now: Time)
    requires PositiveIntervals(p) && p.multiplier >= 1.0 && p.initial <= p.max && j <= k
    ensures NextRetryAt(p, j, now) <= NextRetryAt(p, k, now)
  {
    RetriesSpreadOut(p, j, k);
    RetryTimesInOrder(p, j, k, now, Delay(p, j), Delay(p, k));
  }

  lemma RetryTimesInOrder(p: Policy, j: nat, k: nat, now: Time, a: real, b: real)
    requires Delay(p, j) == a && Delay(p, k) == b && a <= b
    ensures NextRetryAt(p, j, now) <= NextRetryAt(p, k, now)
  {
    RoundingKeepsOrder(a, b, now);
  }

  // ---- wakeup.FallbackBackoff ----

  /** One idle step: multiply, then cap. */
  function Idled(p: Policy, seconds: real): real {
    Min(seconds * p.multiplier, p.max)
  }

  /** The schedule after `k` idle drains in a row. */
  function IdleSteps(p: Policy, k: nat): real {
    if k == 0 then p.initial else Idled(p, IdleSteps(p, k - 1))
  }

  /** Capping before or after a multiplication makes no difference while growing. */
  lemma CapStep(exact: real, m: real, max: real)
    requires m >= 0.0 && max >= 0.0 && (exact > max ==> m >= 1.0)
    ensures Min(Min(exact, max) * m, max) == Min(exact * m, max)
  {
    if exact > max {
      MulAtLeast(max, 1.0, max, m);
      MulAtLeast(max, 1.0, exact, m);
    }
  }

  lemma ExactStep(p: Policy, k: nat)
    requires p.multiplier >= 0.0 && 0.0 <= p.initial <= p.max
    ensures ExactDelay(p, k + 1) == Idled(p, ExactDelay(p, k))
  {
    var power := Pow(p.multiplier, k);
    CappedMeansGrowing(p, k);
    CapStep(p.initial * power, p.multiplier, p.max);
    assert Pow(p.multiplier, k + 1) == p.multiplier * power;
    Regroup(p.initial, p.multiplier, power);
  }

  /** Both schedules are one: the iterated form is the closed form at every step. */
  lemma {:induction false} IteratedIsClosedForm(p: Policy, k: nat)
    requires p.multiplier >= 0.0 && 0.0 <= p.initial <= p.max
    ensures IdleSteps(p, k) == ExactDelay(p, k)
  {
    if k > 0 {
      var j := k - 1;
      IteratedIsClosedForm(p, j);
      ExactStep(p, j);
      assert IdleSteps(p, k) == Idled(p, IdleSteps(p, j));
    }
  }

  lemma {:induction false} PowNonNegative(m: real, k: nat)
    requires m >= 0.0
    ensures Pow(m, k) >= 0.0
    ensures m <= 1.0 ==> Pow(m, k) <= 1.0
  {
    if k > 0 {
      PowNonNegative(m, k - 1);
      MulAtLeast(0.0, 0.0, m, Pow(m, k - 1));
      if m <= 1.0 {
        MulAtLeast(m, Pow(m, k - 1), 1.0, 1.0);
      }
    }
  }

  /** Only a growing schedule ever exceeds a cap it started below. */
  lemma CappedMeansGrowing(p: Policy, k: nat)
    requires p.multiplier >= 0.0 && 0.0 <= p.initial <= p.max
    ensures p.initial * Pow(p.multiplier, k) > p.max ==> p.multiplier >= 1.0
  {
    PowNonNegative(p.multiplier, k);
    if p.multiplier < 1.0 {
      MulAtLeast(p.initial, Pow(p.multiplier, k), p.initial, 1.0);
    }
  }

  lemma SchedulesAgreeExactlyWhen(p: Policy)
    requires p.multiplier >= 0.0 && p.initial >= 0.0
    ensures (forall k :: IdleSteps(p, k) == ExactDelay(p, k)) <==> p.initial <= p.max
  {
    if p.initial <= p.max {
      forall k: nat ensures IdleSteps(p, k) == ExactDelay(p, k) {
        IteratedIsClosedForm(p, k);
      }
    } else {
      assert IdleSteps(p, 0) != ExactDelay(p, 0);
    }
  }

  /** Where the two schedules part: above the cap, `FallbackBackoff` starts with the initial interval itself. */
  lemma FirstWaitIgnoresCap(p: Policy)
    requires p == Policy(120.0, 60.0, 2.0)
    ensures IdleSteps(p, 0) == 120.0 && ExactDelay(p, 0) == 60.0
  {
    assert Pow(2.0, 0) == 1.0;
  }

  /** The adaptive fallback polling schedule. */
  class FallbackBackoff {
    const policy: Policy
    var current: real
    ghost var idles: nat

    ghost predicate Valid()
      reads this
    {
      current == IdleSteps(policy, idles)
    }

    constructor (p: Policy)
      ensures policy == p && Valid() && idles == 0
    {
      policy := p;
      current := p.initial;
      idles := 0;
    }

    method RecordWorkFound() returns (seconds: real)
      modifies this
      ensures Valid() && idles == 0 && seconds == current == policy.initial
    {
      current := policy.initial;
      idles := 0;
      seconds := current;
    }

    method RecordIdle() returns (seconds: real)
      requires Valid()
      modifies this
      ensures Valid() && idles == old(idles) + 1 && seconds == current == Idled(policy, old(current))
    {
      current := Idled(policy, current);
      idles := idles + 1;
      seconds := current;
    }
  }
}
