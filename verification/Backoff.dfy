/**
 The delays of the connection retry loop: exponential backoff from an initial delay, capped from the
 second delay on. Delays are whole nanoseconds; the multiplier is a real number, and the product is
 truncated as Go's conversion to Duration does. Floating-point rounding is not part of this model.
 */
module Backoff {

  datatype Config = Config(maxRetries: int, initialDelay: int, maxDelay: int, multiplier: real)

  const SECOND := 1_000_000_000

  /** Unset fields get their defaults. */
  function ApplyDefaults(c: Config): Config {
    Config(if c.maxRetries == 0 then 5 else c.maxRetries,
           if c.initialDelay == 0 then SECOND else c.initialDelay,
           if c.maxDelay == 0 then 60 * SECOND else c.maxDelay,
           if c.multiplier == 0.0 then 2.0 else c.multiplier)
  }

  /** Set fields are kept; unset ones are five attempts, one second, a minute and doubling. */
  lemma DefaultsKeepSetFields(c: Config)
    ensures var d := ApplyDefaults(c);
            && (if c.maxRetries != 0 then d.maxRetries == c.maxRetries else d.maxRetries == 5)
            && (if c.initialDelay != 0 then d.initialDelay == c.initialDelay else d.initialDelay == 1_000_000_000)
            && (if c.maxDelay != 0 then d.maxDelay == c.maxDelay else d.maxDelay == 60_000_000_000)
            && (if c.multiplier != 0.0 then d.multiplier == c.multiplier else d.multiplier == 2.0)
  {
  }

  /** Conversion of a real number of nanoseconds to whole ones: toward zero. */
  function Truncate(x: real): int {
    if x >= 0.0 then x.Floor else -(-x).Floor
  }

  /** The fraction is cut off, of a negative number too. */
  lemma TruncatesTowardZero(x: real)
    ensures x >= 0.0 ==> 0.0 <= Truncate(x) as real <= x < Truncate(x) as real + 1.0
    ensures x < 0.0 ==> Truncate(x) as real - 1.0 < x <= Truncate(x) as real <= 0.0
  {
  }

  function Next(c: Config, delay: int): int {
    var d := Truncate(delay as real * c.multiplier);
    if d > c.maxDelay then c.maxDelay else d
  }

  /** The wait after the (k+1)-th failed attempt. */
  function DelayAt(c: Config, k: nat): int {
    if k == 0 then c.initialDelay else Next(c, DelayAt(c, k - 1))
  }

  function TotalDelay(c: Config, n: nat): int {
    if n == 0 then 0 else TotalDelay(c, n - 1) + DelayAt(c, n - 1)
  }

  ghost predicate Usual(c: Config) {
    0 < c.initialDelay <= c.maxDelay && c.multiplier >= 1.0
  }

  ghost function Power(m: real, k: nat): real {
    if k == 0 then 1.0 else Power(m, k - 1) * m
  }

  /** x scaled up k times. */
  ghost function Geometric(x: real, m: real, k: nat): real {
    if k == 0 then x else Geometric(x, m, k - 1) * m
  }

  ghost function Min(x: real, y: real): real {
    if x < y then x else y
  }

  /** The initial delay scaled up k times, capped; ClosedIsPower has it as initial * m^k. */
  ghost function Closed(c: Config, k: nat): real {
    Min(Geometric(c.initialDelay as real, c.multiplier, k), c.maxDelay as real)
  }

  ghost function NextExact(c: Config, x: real): real {
    Min(x * c.multiplier, c.maxDelay as real)
  }

  /** The same recurrence without truncation. */
  ghost function ExactDelay(c: Config, k: nat): real {
    if k == 0 then c.initialDelay as real
    else NextExact(c, ExactDelay(c, k - 1))
  }

  lemma ScaleUp(x: real, m: real)
    requires x >= 0.0 && m >= 1.0
    ensures x * m >= x
  {
    assert x * (m - 1.0) >= 0.0;
  }

  lemma ScaleMonotone(x: real, y: real, m: real)
    requires x <= y && m >= 0.0
    ensures x * m <= y * m
  {
    assert (y - x) * m >= 0.0;
  }

  /** Capping before scaling up makes no difference to the capped result. */
  lemma CapThenScale(x: real, m: real, cap: real)
    requires 0.0 <= x && m >= 1.0 && 0.0 <= cap
    ensures Min(Min(x, cap) * m, cap) == Min(x * m, cap)
  {
    if x >= cap {
      ScaleUp(cap, m);
      ScaleMonotone(cap, x, m);
    }
  }

  lemma Reassociate(x: real, y: real, z: real)
    ensures x * (y * z) == (x * y) * z
  {
  }

  lemma {:induction false} GeometricIsPower(x: real, m: real, k: nat)
    ensures Geometric(x, m, k) == x * Power(m, k)
  {
    if k > 0 {
      GeometricIsPower(x, m, k - 1);
      Reassociate(x, Power(m, k - 1), m);
    }
  }

  lemma ClosedIsPower(c: Config, k: nat)
    ensures Closed(c, k) == Min(c.initialDelay as real * Power(c.multiplier, k), c.maxDelay as real)
  {
    GeometricIsPower(c.initialDelay as real, c.multiplier, k);
  }

  lemma {:induction false} GeometricNonNegative(x: real, m: real, k: nat)
    requires x >= 0.0 && m >= 1.0
    ensures Geometric(x, m, k) >= 0.0
  {
    if k > 0 {
      GeometricNonNegative(x, m, k - 1);
      ScaleUp(Geometric(x, m, k - 1), m);
    }
  }

  lemma ClosedStep(c: Config, k: nat)
    requires Usual(c) && k > 0
    ensures Closed(c, k) == NextExact(c, Closed(c, k - 1))
  {
    GeometricNonNegative(c.initialDelay as real, c.multiplier, k - 1);
    CapThenScale(Geometric(c.initialDelay as real, c.multiplier, k - 1), c.multiplier, c.maxDelay as real);
  }

  /** Without truncation the capped recurrence is the capped power. */
  lemma {:induction false} ExactIsClosed(c: Config, k: nat)
    requires Usual(c)
    ensures ExactDelay(c, k) == Closed(c, k)
  {
    if k > 0 {
      ExactIsClosed(c, k - 1);
      ClosedStep(c, k);
    }
  }

  lemma TruncateBounds(d: int, x: real)
    requires 0 <= d && d as real <= x
    ensures d <= Truncate(x) && Truncate(x) as real <= x
  {
  }

  lemma NextBounds(c: Config, d: int)
    requires Usual(c) && 0 < d <= c.maxDelay
    ensures d <= Next(c, d) <= c.maxDelay
    ensures Next(c, d) as real <= NextExact(c, d as real)
  {
    ScaleUp(d as real, c.multiplier);
    TruncateBounds(d, d as real * c.multiplier);
  }

  lemma {:induction false} DelayWithin(c: Config, k: nat)
    requires Usual(c)
    ensures 0 < DelayAt(c, k) <= c.maxDelay
  {
    if k > 0 {
      DelayWithin(c, k - 1);
      NextBounds(c, DelayAt(c, k - 1));
    }
  }

  lemma {:induction false} DelayBelowExact(c: Config, k: nat)
    requires Usual(c)
    ensures DelayAt(c, k) as real <= ExactDelay(c, k)
  {
    if k > 0 {
      var d := DelayAt(c, k - 1);
      DelayBelowExact(c, k - 1);
      DelayWithin(c, k - 1);
      NextBounds(c, d);
      NextExactMonotone(c, d as real, ExactDelay(c, k - 1));
    }
  }

  lemma NextExactMonotone(c: Config, x: real, y: real)
    requires Usual(c) && x <= y
    ensures NextExact(c, x) <= NextExact(c, y)
  {
    ScaleMonotone(x, y, c.multiplier);
    MinMonotone(x * c.multiplier, y * c.multiplier, c.maxDelay as real);
  }

  lemma MinMonotone(x: real, y: real, cap: real)
    requires x <= y
    ensures Min(x, cap) <= Min(y, cap)
  {
  }

  /** Waits never decrease, stay within the cap, and the closed form bounds them from above. */
  lemma DelayBounds(c: Config, k: nat)
    requires Usual(c)
    ensures 0 < DelayAt(c, k) <= DelayAt(c, k + 1) <= c.maxDelay
    ensures DelayAt(c, k) as real <= Closed(c, k)
  {
    DelayWithin(c, k);
    NextBounds(c, DelayAt(c, k));
    DelayBelowExact(c, k);
    ExactIsClosed(c, k);
  }

  ghost function IntPower(m: nat, k: nat): nat {
    if k == 0 then 1 else IntPower(m, k - 1) * m
  }

  ghost function IntGeometric(x: int, m: nat, k: nat): int {
    if k == 0 then x else IntGeometric(x, m, k - 1) * m
  }

  lemma TruncateWhole(d: int, m: nat)
    requires d >= 0
    ensures Truncate(d as real * (m as real)) == d * m
  {
    assert d as real * (m as real) == (d * m) as real;
    assert d * m >= 0;
  }

  function IntMin(x: int, y: int): int {
    if x < y then x else y
  }

  lemma IntCapThenScale(x: int, m: nat, cap: int)
    requires 0 <= x && m >= 1 && 0 <= cap
    ensures IntMin(IntMin(x, cap) * m, cap) == IntMin(x * m, cap)
  {
    if x >= cap {
      assert (x - cap) * m >= 0;
      assert cap * (m - 1) >= 0;
    }
  }

  lemma IntReassociate(x: int, y: int, z: int)
    ensures x * (y * z) == (x * y) * z
  {
  }

  lemma {:induction false} IntGeometricIsPower(x: int, m: nat, k: nat)
    ensures IntGeometric(x, m, k) == x * IntPower(m, k)
  {
    if k > 0 {
      IntGeometricIsPower(x, m, k - 1);
      IntReassociate(x, IntPower(m, k - 1), m);
    }
  }

  lemma {:induction false} IntGeometricNonNegative(x: int, m: nat, k: nat)
    requires x >= 0
    ensures IntGeometric(x, m, k) >= 0
  {
    if k > 0 {
      IntGeometricNonNegative(x, m, k - 1);
      IntProductNonNegative(IntGeometric(x, m, k - 1), m);
    }
  }

  lemma IntProductNonNegative(x: int, y: int)
    requires x >= 0 && y >= 0
    ensures x * y >= 0
  {
  }

  lemma NextWhole(c: Config, m: nat, d: int)
    requires c.multiplier == m as real && d >= 0
    ensures Next(c, d) == IntMin(d * m, c.maxDelay)
  {
    TruncateWhole(d, m);
  }

  lemma {:induction false} WholeIsCapped(c: Config, m: nat, k: nat)
    requires Usual(c) && c.multiplier == m as real
    ensures DelayAt(c, k) == IntMin(IntGeometric(c.initialDelay, m, k), c.maxDelay)
  {
    if k > 0 {
      WholeIsCapped(c, m, k - 1);
      DelayWithin(c, k - 1);
      NextWhole(c, m, DelayAt(c, k - 1));
      IntGeometricNonNegative(c.initialDelay, m, k - 1);
      IntCapThenScale(IntGeometric(c.initialDelay, m, k - 1), m, c.maxDelay);
    }
  }

  /** For a whole multiplier, as the default 2, nothing is truncated: the k-th wait is min(initial * m^k, max). */
  lemma WholeMultiplierExact(c: Config, m: nat, k: nat)
    requires Usual(c) && c.multiplier == m as real
    ensures DelayAt(c, k) == IntMin(c.initialDelay * IntPower(m, k), c.maxDelay)
  {
    WholeIsCapped(c, m, k);
    IntGeometricIsPower(c.initialDelay, m, k);
  }

  /** All waiting together is at most the initial delay and n - 1 times the cap. */
  lemma {:induction false} TotalBound(c: Config, n: nat)
    requires Usual(c) && n > 0
    ensures TotalDelay(c, n) <= c.initialDelay + (n - 1) * c.maxDelay
  {
    if n > 1 {
      TotalBound(c, n - 1);
      DelayBounds(c, n - 1);
      assert (n - 1) * c.maxDelay == (n - 2) * c.maxDelay + c.maxDelay;
    } else {
      assert TotalDelay(c, 0) == 0;
    }
  }

  /** And at least what waiting the initial delay every time would take. */
  lemma {:induction false} TotalAtLeast(c: Config, n: nat)
    requires Usual(c)
    ensures TotalDelay(c, n) >= n * c.initialDelay
  {
    if n > 0 {
      TotalAtLeast(c, n - 1);
      NeverBelowInitial(c, n - 1);
      assert n * c.initialDelay == (n - 1) * c.initialDelay + c.initialDelay;
    }
  }

  lemma {:induction false} NeverBelowInitial(c: Config, k: nat)
    requires Usual(c)
    ensures DelayAt(c, k) >= c.initialDelay
  {
    if k > 0 {
      NeverBelowInitial(c, k - 1);
      DelayBounds(c, k - 1);
    }
  }

  /** The cap is not applied to the first wait: all n waits respect it exactly when the initial delay does. */
  lemma CapHoldsIff(c: Config, n: nat)
    requires n > 0
    ensures (forall k :: 0 <= k < n ==> DelayAt(c, k) <= c.maxDelay) <==> c.initialDelay <= c.maxDelay
  {
    assert DelayAt(c, 0) == c.initialDelay;
  }

  /** With every field unset the waits are one second, doubling up to a minute. */
  lemma DefaultWaits(k: nat)
    ensures DelayAt(ApplyDefaults(Config(0, 0, 0, 0.0)), k) == IntMin(1_000_000_000 * IntPower(2, k), 60_000_000_000)
  {
    WholeMultiplierExact(ApplyDefaults(Config(0, 0, 0, 0.0)), 2, k);
  }
}
