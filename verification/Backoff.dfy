/**
 Cancellable retry with exponential backoff, in seconds over the reals.
 */
module Backoff {
  import opened Text

  datatype Policy = Policy(initial: real, max: real, multiplier: real, jitterRatio: real)

  /** Durations are not negative; the multiplier is taken to be positive. */
  predicate ValidPolicy(p: Policy) {
    p.initial >= 0.0 && p.max >= 0.0 && p.multiplier > 0.0
  }

  const U32_MAX: nat := 0xFFFF_FFFF
  const I32_LIMIT: nat := 0x8000_0000

  // ---- Delays ----

  function Pow(x: real, n: nat): real {
    if n == 0 then 1.0 else x * Pow(x, n - 1)
  }

  lemma {:induction false} PowPositive(x: real, n: nat)
    requires x > 0.0
    ensures Pow(x, n) > 0.0
  {
    if n > 0 {
      PowPositive(x, n - 1);
      MulPositive(x, Pow(x, n - 1));
    }
  }

  lemma MulPositive(x: real, y: real)
    requires x > 0.0 && y > 0.0
    ensures x * y > 0.0
  {
  }

  lemma MulNonNegative(x: real, y: real)
    requires x >= 0.0 && y >= 0.0
    ensures Scaled(x, y) >= 0.0
  {
  }

  /** A fraction of `x` lies between nothing and `x`. */
  lemma MulFraction(x: real, f: real)
    requires x >= 0.0 && 0.0 <= f <= 1.0
    ensures 0.0 <= Scaled(x, f) <= x
  {
  }

  lemma MulMonotone(x: real, y: real, z: real)
    requires x >= 0.0 && y <= z
    ensures Scaled(x, y) <= Scaled(x, z)
  {
  }

  /** `powi`. */
  function Powi(x: real, e: int): real
    requires x > 0.0
  {
    if e >= 0 then Pow(x, e)
    else
      PowPositive(x, -e);
      1.0 / Pow(x, -e)
  }

  /** `as i32` on a `u32`: the upper half wraps to the negative numbers. */
  function AsI32(n: nat): int
    requires n <= U32_MAX
  {
    if n < I32_LIMIT then n else n - (U32_MAX + 1)
  }

  function Scaled(x: real, factor: real): real {
    x * factor
  }

  function Min(x: real, y: real): real {
    if x <= y then x else y
  }

  function Max(x: real, y: real): real {
    if x >= y then x else y
  }

  /** A delay limited to the maximum, and not negative. */
  function Cap(max: real, x: real): real {
    Max(Min(x, max), 0.0)
  }

  /** The exponent `powi` is given for an attempt. */
  function Exponent(attempt: nat): int
    requires attempt <= U32_MAX
  {
    AsI32(if attempt == 0 then 0 else attempt - 1)
  }

  function Uncapped(p: Policy, attempt: nat): real
    requires ValidPolicy(p) && attempt <= U32_MAX
  {
    Scaled(p.initial, Powi(p.multiplier, Exponent(attempt)))
  }

  /** The delay after the `attempt`-th failure before jitter. */
  function Capped(p: Policy, attempt: nat): (d: real)
    requires ValidPolicy(p) && attempt <= U32_MAX
    ensures d >= 0.0
  {
    Cap(p.max, Uncapped(p, attempt))
  }

  function Fraction(draw: nat): (f: real)
    ensures 0.0 <= f < 1.0
  {
    (draw % 1_000_000) as real / 1_000_000.0
  }

  /** `BackoffPolicy::delay`. */
  function Delay(p: Policy, attempt: nat, draw: nat): real
    requires ValidPolicy(p) && attempt <= U32_MAX
  {
    Jittered(Capped(p, attempt), p.jitterRatio, Fraction(draw))
  }

  function Jittered(d: real, ratio: real, f: real): real {
    if ratio > 0.0 then d + Scaled(Scaled(d, ratio), f) else d
  }

  lemma JitterPart(d: real, ratio: real, f: real)
    requires d >= 0.0 && ratio >= 0.0 && 0.0 <= f <= 1.0
    ensures 0.0 <= Scaled(Scaled(d, ratio), f) <= Scaled(d, ratio)
  {
    MulNonNegative(d, ratio);
    MulFraction(Scaled(d, ratio), f);
  }

  lemma JitteredBounds(d: real, ratio: real, f: real)
    requires d >= 0.0 && ratio > 0.0 && 0.0 <= f <= 1.0
    ensures d <= Jittered(d, ratio, f) <= d + Scaled(d, ratio)
  {
    JitterPart(d, ratio, f);
  }

  lemma {:induction false} PowGrows(x: real, m: nat, n: nat)
    requires x >= 1.0 && m <= n
    ensures 1.0 <= Pow(x, m) <= Pow(x, n)
    ensures x > 1.0 && m < n ==> Pow(x, m) < Pow(x, n)
    decreases n
  {
    if n > 0 {
      if m < n {
        PowGrows(x, m, n - 1);
        Grow(x, Pow(x, n - 1));
      } else {
        PowGrows(x, m - 1, n - 1);
        Grow(x, Pow(x, n - 1));
      }
    }
  }

  lemma Grow(x: real, y: real)
    requires x >= 1.0 && y >= 1.0
    ensures x * y >= y
    ensures x > 1.0 ==> x * y > y
  {
    MulMonotone(y, 1.0, x);
    if x > 1.0 {
      MulPositive(x - 1.0, y);
      assert (x - 1.0) * y == x * y - y;
    }
  }

  lemma CapMonotone(max: real, x: real, y: real)
    requires x <= y
    ensures Cap(max, x) <= Cap(max, y)
  {
  }

  lemma UncappedExact(p: Policy, i: nat)
    requires ValidPolicy(p) && 1 <= i <= I32_LIMIT
    ensures Uncapped(p, i) == Scaled(p.initial, Pow(p.multiplier, i - 1))
  {
    assert Powi(p.multiplier, Exponent(i)) == Pow(p.multiplier, i - 1);
  }

  lemma UncappedNonNegative(p: Policy, q: real)
    requires ValidPolicy(p) && q > 0.0
    ensures Scaled(p.initial, q) >= 0.0
  {
    MulNonNegative(p.initial, q);
  }

  lemma CapOfNonNegative(max: real, x: real)
    requires max >= 0.0 && x >= 0.0
    ensures Cap(max, x) == Min(max, x)
  {
  }

  /** Up to 2^31 attempts the delay is the capped exponential. */
  lemma CappedIsExponential(p: Policy, i: nat)
    requires ValidPolicy(p) && 1 <= i <= 0x8000_0000
    ensures Capped(p, i) == Min(p.max, Scaled(p.initial, Pow(p.multiplier, i - 1)))
  {
    UncappedExact(p, i);
    PowPositive(p.multiplier, i - 1);
    UncappedNonNegative(p, Pow(p.multiplier, i - 1));
    CapOfNonNegative(p.max, Uncapped(p, i));
  }

  /** The first delay is the initial one, and each later exponential is the one before it times the multiplier. */
  lemma FirstAndNext(p: Policy, i: nat)
    requires ValidPolicy(p) && 1 <= i < 0x8000_0000
    ensures Capped(p, 1) == Min(p.max, p.initial)
    ensures Uncapped(p, i + 1) == p.multiplier * Uncapped(p, i)
    ensures Capped(p, i + 1) == Min(p.max, Uncapped(p, i + 1))
  {
    CappedIsExponential(p, 1);
    CappedIsExponential(p, i + 1);
    UncappedExact(p, i);
    UncappedExact(p, i + 1);
    var q := Pow(p.multiplier, i - 1);
    assert Pow(p.multiplier, i) == p.multiplier * q;
    MulReassoc(p.initial, p.multiplier, q);
    MulReassoc(p.multiplier, p.initial, q);
  }

  /** From attempt 2^31 + 1 on the exponent counts up from -2^31 to -2. */
  lemma WrappedIsExponential(p: Policy, i: nat)
    requires ValidPolicy(p) && 0x8000_0000 < i <= 0xFFFF_FFFF
    ensures Pow(p.multiplier, 0x1_0000_0001 - i) > 0.0
    ensures Capped(p, i) == Min(p.max, p.initial / Pow(p.multiplier, 0x1_0000_0001 - i))
  {
    var big := Pow(p.multiplier, 0x1_0000_0001 - i);
    PowPositive(p.multiplier, 0x1_0000_0001 - i);
    assert Exponent(i) == i - 0x1_0000_0001;
    assert Powi(p.multiplier, Exponent(i)) == 1.0 / big;
    InverseProduct(p.initial, big);
    InversePositive(big);
    UncappedNonNegative(p, 1.0 / big);
    CapOfNonNegative(p.max, Uncapped(p, i));
  }

  lemma InversePositive(x: real)
    requires x > 0.0
    ensures 1.0 / x > 0.0
  {
  }

  /** Up to 2^31 attempts, with a multiplier of at least one, delays never shrink. */
  lemma DelaysGrow(p: Policy, i: nat, j: nat)
    requires ValidPolicy(p) && p.multiplier >= 1.0 && 1 <= i <= j <= 0x8000_0000
    ensures Capped(p, i) <= Capped(p, j)
  {
    UncappedExact(p, i);
    UncappedExact(p, j);
    PowGrows(p.multiplier, i - 1, j - 1);
    MulMonotone(p.initial, Pow(p.multiplier, i - 1), Pow(p.multiplier, j - 1));
    CapMonotone(p.max, Uncapped(p, i), Uncapped(p, j));
  }

  // ---- Exactly when delays never shrink ----

  /** The exponential at its lowest: the exponent has wrapped to -2^31. */
  function AfterWrap(p: Policy): real
    requires ValidPolicy(p)
  {
    PowPositive(p.multiplier, I32_LIMIT);
    p.initial / Pow(p.multiplier, I32_LIMIT)
  }

  ghost predicate NeverShrinks(p: Policy, n: nat)
    requires ValidPolicy(p) && n <= U32_MAX
  {
    forall i, j :: 1 <= i <= j <= n ==> Capped(p, i) <= Capped(p, j)
  }

  lemma InverseProduct(x: real, big: real)
    requires big > 0.0
    ensures Scaled(x, 1.0 / big) == x / big
  {
    var q, y := 1.0 / big, x / big;
    assert q * big == 1.0 && y * big == x;
    assert x * q == y * (big * q);
  }

  lemma InverseMonotone(x: real, y: real)
    requires 0.0 < x <= y
    ensures 0.0 < 1.0 / y <= 1.0 / x
  {
    var p, q := 1.0 / x, 1.0 / y;
    assert p * x == 1.0 && q * y == 1.0;
    MulMonotone(q, x, y);
    assert (q - p) * x == q * x - p * x;
    if q > p {
      MulPositive(q - p, x);
    }
  }

  lemma WrappedUncapped(p: Policy)
    requires ValidPolicy(p)
    ensures Uncapped(p, I32_LIMIT + 1) == AfterWrap(p)
  {
    PowPositive(p.multiplier, I32_LIMIT);
    assert Powi(p.multiplier, Exponent(I32_LIMIT + 1)) == 1.0 / Pow(p.multiplier, I32_LIMIT);
    InverseProduct(p.initial, Pow(p.multiplier, I32_LIMIT));
  }

  lemma LowestPower(x: real, e: int)
    requires x >= 1.0 && e + I32_LIMIT >= 0
    ensures Pow(x, I32_LIMIT) > 0.0 && Powi(x, e) >= 1.0 / Pow(x, I32_LIMIT) > 0.0
  {
    if e >= 0 {
      PowGrows(x, 0, I32_LIMIT);
      PowGrows(x, 0, e);
      InverseMonotone(1.0, Pow(x, I32_LIMIT));
    } else {
      PowGrows(x, -e, I32_LIMIT);
      InverseMonotone(Pow(x, -e), Pow(x, I32_LIMIT));
    }
  }

  /** No attempt falls below the wrapped exponential. */
  lemma UncappedAtLeast(p: Policy, i: nat)
    requires ValidPolicy(p) && p.multiplier >= 1.0 && 1 <= i <= U32_MAX
    ensures Uncapped(p, i) >= AfterWrap(p)
  {
    var big := Pow(p.multiplier, I32_LIMIT);
    LowestPower(p.multiplier, Exponent(i));
    MulMonotone(p.initial, 1.0 / big, Powi(p.multiplier, Exponent(i)));
    InverseProduct(p.initial, big);
  }

  lemma {:induction false} PowOfOne(n: nat)
    ensures Pow(1.0, n) == 1.0
  {
    if n > 0 {
      PowOfOne(n - 1);
    }
  }

  lemma ConstantUncapped(p: Policy, i: nat)
    requires ValidPolicy(p) && 1 <= i <= U32_MAX && (p.multiplier == 1.0 || p.initial == 0.0)
    ensures Uncapped(p, i) == p.initial
  {
    var e := Exponent(i);
    if p.multiplier == 1.0 {
      PowOfOne(if e >= 0 then e else -e);
    }
  }

  /** A policy whose delays are the same for every attempt. */
  predicate Constant(p: Policy)
    requires ValidPolicy(p)
  {
    p.multiplier == 1.0 || p.initial == 0.0 || AfterWrap(p) >= p.max
  }

  lemma ConstantCapped(p: Policy, i: nat, j: nat)
    requires ValidPolicy(p) && p.multiplier >= 1.0 && Constant(p) && 1 <= i <= U32_MAX && 1 <= j <= U32_MAX
    ensures Capped(p, i) == Capped(p, j)
  {
    if p.multiplier == 1.0 || p.initial == 0.0 {
      ConstantUncapped(p, i);
      ConstantUncapped(p, j);
    } else {
      UncappedAtLeast(p, i);
      UncappedAtLeast(p, j);
    }
  }

  lemma BelowInitial(p: Policy)
    requires ValidPolicy(p) && p.multiplier > 1.0 && p.initial > 0.0
    ensures 0.0 <= AfterWrap(p) < p.initial
  {
    var big := Pow(p.multiplier, I32_LIMIT);
    PowGrows(p.multiplier, 0, I32_LIMIT);
    QuotientShrinks(p.initial, big, p.initial / big);
  }

  lemma QuotientShrinks(x: real, big: real, y: real)
    requires x > 0.0 && big > 1.0 && y * big == x
    ensures 0.0 < y < x
  {
    if y <= 0.0 {
      Negated(y, big);
      MulNonNegative(-y, big);
    } else {
      OneLess(y, big);
      MulPositive(y, big - 1.0);
    }
  }

  lemma Negated(x: real, y: real)
    ensures Scaled(-x, y) == -(x * y)
  {
  }

  lemma OneLess(x: real, y: real)
    ensures x * (y - 1.0) == x * y - x
  {
  }

  lemma AtLeastInitial(p: Policy, i: nat)
    requires ValidPolicy(p) && p.multiplier >= 1.0 && 1 <= i <= I32_LIMIT
    ensures Uncapped(p, i) >= p.initial
  {
    UncappedExact(p, i);
    PowGrows(p.multiplier, 0, i - 1);
    MulMonotone(p.initial, 1.0, Pow(p.multiplier, i - 1));
  }

  /** When the exponent wraps, after attempt 2^31, the delay drops, unless all delays are the same. */
  lemma WrappedDelayShrinks(p: Policy)
    requires ValidPolicy(p) && p.multiplier >= 1.0 && !Constant(p)
    ensures Capped(p, 0x8000_0001) < Capped(p, 0x8000_0000)
  {
    BelowInitial(p);
    WrappedUncapped(p);
    AtLeastInitial(p, I32_LIMIT);
  }

  /**
   With a multiplier of at least one, the delays of the first `n` attempts never shrink if and only if there are
   at most 2^31 of them, or the multiplier is one, or the initial delay is zero, or even the wrapped exponential
   `initial / multiplier^(2^31)` is no less than the maximum.
   */
  lemma DelaysNeverShrinkIff(p: Policy, n: nat)
    requires ValidPolicy(p) && p.multiplier >= 1.0 && n <= 0xFFFF_FFFF
    ensures NeverShrinks(p, n) <==> n <= 0x8000_0000 || Constant(p)
  {
    if n <= I32_LIMIT || Constant(p) {
      forall i, j | 1 <= i <= j <= n ensures Capped(p, i) <= Capped(p, j) {
        if n <= I32_LIMIT {
          DelaysGrow(p, i, j);
        } else {
          ConstantCapped(p, i, j);
        }
      }
    } else {
      WrappedDelayShrinks(p);
      assert Capped(p, I32_LIMIT) > Capped(p, I32_LIMIT + 1);
    }
  }

  /** Jitter only lengthens a delay, by at most the jitter ratio. */
  lemma JitterBounds(p: Policy, attempt: nat, draw: nat)
    requires ValidPolicy(p) && attempt <= U32_MAX
    ensures p.jitterRatio <= 0.0 ==> Delay(p, attempt, draw) == Capped(p, attempt)
    ensures p.jitterRatio > 0.0 ==>
              Capped(p, attempt) <= Delay(p, attempt, draw)
                <= Capped(p, attempt) + Scaled(Capped(p, attempt), p.jitterRatio)
  {
    if p.jitterRatio > 0.0 {
      JitteredBounds(Capped(p, attempt), p.jitterRatio, Fraction(draw));
    }
  }

  lemma ScaleBack(y: real, n: nat)
    ensures 1_000_000.0 * (y * (n as real / 1_000_000.0)) == n as real * y
  {
    assert 1_000_000.0 * (n as real / 1_000_000.0) == n as real;
    MulReassoc(1_000_000.0, y, n as real / 1_000_000.0);
  }

  lemma MulReassoc(x: real, y: real, z: real)
    ensures x * (y * z) == (x * z) * y
  {
  }

  /** The jitter is drawn in a million equal steps from nothing: draw `n` adds `n` millionths of all it could add. */
  lemma JitterIsDrawn(p: Policy, attempt: nat, draw: nat)
    requires ValidPolicy(p) && attempt <= 0xFFFF_FFFF
    ensures 1_000_000.0 * (Delay(p, attempt, draw) - Capped(p, attempt))
         == (draw % 1_000_000) as real * (Capped(p, attempt) * Max(p.jitterRatio, 0.0))
  {
    ScaleBack(Capped(p, attempt) * p.jitterRatio, draw % 1_000_000);
  }

  // ---- The retry loop ----

  /** The attempt counter saturates. */
  function Counter(n: nat): nat {
    if n <= U32_MAX then n else U32_MAX
  }

  /** The calls and sleeps of a retry: the checks come in turn before each call and before each sleep. */
  ghost predicate Disciplined(pause: (nat, nat) -> real, proceed: nat -> bool, calls: seq<nat>, sleeps: seq<real>) {
    && |sleeps| <= |calls| <= |sleeps| + 1
    && (forall i :: 0 <= i < |calls| ==> calls[i] == (if i < 0xFFFF_FFFF then i + 1 else 0xFFFF_FFFF) && proceed(2 * i))
    && (forall i :: 0 <= i < |sleeps| ==> sleeps[i] == pause(Counter(i + 1), i) && proceed(2 * i + 1))
  }

  /** What a retry that made these calls and sleeps returns. */
  ghost predicate Returned<T, E>(r: Result<T, E>, op: nat -> Result<T, E>, transport: E, proceed: nat -> bool,
                                 calls: seq<nat>, sleeps: seq<real>)
  {
    && (forall i :: 1 <= i < |calls| ==> op(i).Err?)
    && (r.Ok? ==> |calls| > 0 && op(|calls|) == r && |sleeps| == |calls| - 1)
    && (r.Err? ==> r == (if calls == [] then Err(transport) else op(|calls|)) && !proceed(|calls| + |sleeps|))
  }

  lemma CallMade(pause: (nat, nat) -> real, proceed: nat -> bool, calls: seq<nat>, sleeps: seq<real>, attempt: nat)
    requires Disciplined(pause, proceed, calls, sleeps) && |sleeps| == |calls|
    requires proceed(2 * |calls|) && attempt == Counter(|calls| + 1)
    ensures Disciplined(pause, proceed, calls + [attempt], sleeps)
  {
  }

  lemma SleepMade(pause: (nat, nat) -> real, proceed: nat -> bool, calls: seq<nat>, sleeps: seq<real>, attempt: nat)
    requires Disciplined(pause, proceed, calls, sleeps) && |calls| == |sleeps| + 1
    requires proceed(2 * |sleeps| + 1) && attempt == Counter(|sleeps| + 1)
    ensures Disciplined(pause, proceed, calls, sleeps + [pause(attempt, |sleeps|)])
  {
  }

  /**
   The loop of `retry_with_backoff`. `op(n)` is what the n-th call returns, `proceed(k)` what the k-th check of
   `should_continue` returns, `pause(a, i)` the i-th sleep after attempt `a`. The loop ends at the latest after
   `bound` failures, because the next call succeeds or a check around it says no.
   */
  method Retry<T, E>(pause: (nat, nat) -> real, proceed: nat -> bool, ghost bound: nat, op: nat -> Result<T, E>,
                     transport: E)
    returns (r: Result<T, E>, calls: seq<nat>, sleeps: seq<real>)
    requires op(bound + 1).Ok? || !proceed(2 * bound) || !proceed(2 * bound + 1)
    ensures Disciplined(pause, proceed, calls, sleeps) && Returned(r, op, transport, proceed, calls, sleeps)
  {
    calls, sleeps := [], [];
    var attempt: nat := 0;
    var lastErr: Option<E> := None;
    while proceed(2 * |calls|)
      invariant Disciplined(pause, proceed, calls, sleeps) && |sleeps| == |calls| <= bound
      invariant attempt == Counter(|calls|)
      invariant forall i :: 1 <= i <= |calls| ==> op(i).Err?
      invariant lastErr == if calls == [] then None else Some(op(|calls|).error)
      decreases bound - |calls|
    {
      attempt := if attempt < U32_MAX then attempt + 1 else attempt;
      CallMade(pause, proceed, calls, sleeps, attempt);
      calls := calls + [attempt];
      match op(|calls|) {
        case Ok(value) => return Ok(value), calls, sleeps;
        case Err(e) => lastErr := Some(e);
      }
      if !proceed(2 * |sleeps| + 1) {
        break;
      }
      SleepMade(pause, proceed, calls, sleeps, attempt);
      sleeps := sleeps + [pause(attempt, |sleeps|)];
    }
    r := Err(lastErr.GetOr(transport));
  }

  /** `retry_with_backoff` with the delays of a policy. */
  method RetryWithBackoff<T, E>(p: Policy, draw: nat -> nat, proceed: nat -> bool, ghost bound: nat,
                                op: nat -> Result<T, E>, transport: E)
    returns (r: Result<T, E>, calls: seq<nat>, sleeps: seq<real>)
    requires ValidPolicy(p) && (op(bound + 1).Ok? || !proceed(2 * bound) || !proceed(2 * bound + 1))
    ensures Disciplined((a: nat, i: nat) => PauseAfter(p, a, draw(i)), proceed, calls, sleeps)
    ensures Returned(r, op, transport, proceed, calls, sleeps)
  {
    r, calls, sleeps := Retry((a: nat, i: nat) => PauseAfter(p, a, draw(i)), proceed, bound, op, transport);
  }

  /** The delay after a counter value, which never exceeds the saturated one. */
  function PauseAfter(p: Policy, attempt: nat, draw: nat): real {
    if ValidPolicy(p) && attempt <= U32_MAX then Delay(p, attempt, draw) else 0.0
  }

  lemma SleptPause(pause: (nat, nat) -> real, proceed: nat -> bool, calls: seq<nat>, sleeps: seq<real>, i: nat)
    requires Disciplined(pause, proceed, calls, sleeps) && i < |sleeps| && i < U32_MAX
    ensures sleeps[i] == pause(i + 1, i)
  {
  }

  /** For up to 2^31 attempts the i-th sleep is the policy's delay: the capped exponential and at most its jitter. */
  lemma SleepBounds(p: Policy, draw: nat -> nat, proceed: nat -> bool, calls: seq<nat>, sleeps: seq<real>, i: nat)
    requires ValidPolicy(p)
    requires Disciplined((a: nat, i: nat) => PauseAfter(p, a, draw(i)), proceed, calls, sleeps)
    requires i < |sleeps| && i < 0x8000_0000
    ensures sleeps[i] == Delay(p, i + 1, draw(i))
    ensures Capped(p, i + 1) <= sleeps[i] <= Capped(p, i + 1) + Scaled(Capped(p, i + 1), Max(p.jitterRatio, 0.0))
    ensures Capped(p, i + 1) == Min(p.max, Scaled(p.initial, Pow(p.multiplier, i)))
  {
    SleptPause((a: nat, i: nat) => PauseAfter(p, a, draw(i)), proceed, calls, sleeps, i);
    JitterBounds(p, i + 1, draw(i));
    CappedIsExponential(p, i + 1);
  }
}
