/**
 The reconnect delay (ReconnectPolicy.Backoff in reconnect.go, the configured policy in config.go).
 The source computes in float64; here the product is exact.
 */
module ReconnectPolicy {

  /** Durations are in nanoseconds. */
  datatype Policy = Policy(enabled: bool, initial: int, max: int, multiplier: real, maxAttempts: int)

  const SECOND: int := 1_000_000_000

  function Power(m: real, k: nat): real {
    if k == 0 then 1.0 else m * Power(m, k - 1)
  }

  /** time.Duration of a float: truncated towards zero. */
  function Truncate(x: real): int {
    if x >= 0.0 then x.Floor else -((-x).Floor)
  }

  function Backoff(p: Policy, attempt: int): int {
    if attempt <= 0 || p.multiplier == 0.0 then p.initial
    else
      var delay := p.initial as real * Power(p.multiplier, attempt);
      Truncate(if delay > p.max as real then p.max as real else delay)
  }

  /** Config.ReconnectPolicy. */
  function ConfiguredPolicy(interval: int, maxAttempts: int): Policy {
    Policy(true, if interval <= 0 then 5 * SECOND else interval, 30 * SECOND, 2.0, maxAttempts)
  }

  function Min(a: int, b: int): int {
    if a <= b then a else b
  }

  // ---- Powers ----

  lemma {:induction false} PowerGrows(m: real, k: nat)
    requires m >= 1.0
    ensures Power(m, k) >= 1.0 && Power(m, k + 1) >= Power(m, k)
  {
    if k > 0 {
      PowerGrows(m, k - 1);
      Scale(Power(m, k - 1), m, 1.0);
    }
    Scale(Power(m, k), m, 1.0);
  }

  lemma {:induction false} PowerShrinks(m: real, k: nat)
    requires 0.0 < m <= 1.0
    ensures 0.0 < Power(m, k + 1) <= Power(m, k)
  {
    if k > 0 {
      PowerShrinks(m, k - 1);
    }
    Scale(Power(m, k), 1.0, m);
    ScaleBelow(Power(m, k), 0.0, m);
  }

  lemma OneMoreFactor(m: real, x: real, n: nat)
    requires m >= 1.0 && x >= 1.0 + n as real * (m - 1.0)
    ensures m * x >= 1.0 + (n + 1) as real * (m - 1.0)
  {
    var d := m - 1.0;
    assert x >= 1.0 by {
      Scale(d, n as real, 0.0);
    }
    Scale(d, x, 1.0);
    assert m * x == x + d * x;
    assert (n + 1) as real * d == n as real * d + d;
  }

  /** Powers grow at least linearly. */
  lemma {:induction false} PowerLinear(m: real, k: nat)
    requires m >= 1.0
    ensures Power(m, k) >= 1.0 + k as real * (m - 1.0)
  {
    if k > 0 {
      PowerLinear(m, k - 1);
      OneMoreFactor(m, Power(m, k - 1), k - 1);
    }
  }

  /** So they pass two. */
  lemma PowerDoubles(m: real) returns (k: nat)
    requires m > 1.0
    ensures Power(m, k) >= 2.0
  {
    var steps := 1.0 / (m - 1.0);
    k := steps.Floor + 1;
    PowerLinear(m, k);
    ScaleBelow(m - 1.0, steps, k as real);
    assert (m - 1.0) * steps == 1.0;
  }

  lemma {:induction false} PowerSquare(m: real, k: nat)
    ensures Power(m, 2 * k) == Power(m * m, k)
  {
    if k > 0 {
      PowerSquare(m, k - 1);
      assert Power(m, 2 * k) == m * Power(m, 2 * k - 1) == m * (m * Power(m, 2 * k - 2));
      assert m * (m * Power(m, 2 * k - 2)) == (m * m) * Power(m, 2 * k - 2);
    }
  }

  lemma Scale(x: real, a: real, b: real)
    requires x >= 0.0 && a >= b
    ensures x * a >= x * b
  {
  }

  lemma ScaleBelow(x: real, a: real, b: real)
    requires x > 0.0 && a < b
    ensures x * a < x * b
  {
  }

  // ---- Truncation and the cap ----

  lemma TruncateMonotone(x: real, y: real)
    requires x <= y
    ensures Truncate(x) <= Truncate(y)
  {
  }

  lemma TruncateWhole(n: int)
    ensures Truncate(n as real) == n
  {
  }

  /** The product the source caps and truncates. */
  function Product(p: Policy, k: nat): real {
    p.initial as real * Power(p.multiplier, k)
  }

  lemma NextProduct(p: Policy, k: nat)
    ensures Product(p, k + 1) == p.multiplier * Product(p, k)
  {
    var x, m, power := p.initial as real, p.multiplier, Power(p.multiplier, k);
    assert x * (m * power) == m * (x * power);
  }

  lemma FirstProducts(p: Policy)
    ensures Product(p, 0) == p.initial as real && Product(p, 1) == p.initial as real * p.multiplier
    ensures Product(p, 2) == p.initial as real * p.multiplier * p.multiplier
  {
    NextProduct(p, 0);
    NextProduct(p, 1);
    assert Power(p.multiplier, 0) == 1.0;
  }

  /** The uncapped delay of an attempt. */
  function Uncapped(p: Policy, k: nat): int {
    Truncate(Product(p, k))
  }

  lemma CapTruncates(x: real, n: int)
    ensures Truncate(if x > n as real then n as real else x) == Min(Truncate(x), n)
  {
    TruncateWhole(n);
    if x > n as real {
      TruncateMonotone(n as real, x);
    } else {
      TruncateMonotone(x, n as real);
    }
  }

  /** After attempt 0 the delay is the uncapped one, cut off at the maximum; multiplier zero switches growth off. */
  lemma BackoffIsCapped(p: Policy, k: nat)
    requires k > 0
    ensures Backoff(p, k) == if p.multiplier == 0.0 then p.initial else Min(Uncapped(p, k), p.max)
  {
    CapTruncates(Product(p, k), p.max);
  }

  /** With the initial delay below the maximum, that is so of attempt 0 as well. */
  lemma BackoffAt(p: Policy, k: nat)
    requires p.initial <= p.max && p.multiplier != 0.0
    ensures Backoff(p, k) == Min(Uncapped(p, k), p.max)
  {
    if k == 0 {
      FirstProducts(p);
      TruncateWhole(p.initial);
    } else {
      BackoffIsCapped(p, k);
    }
  }

  // ---- When the delays are orderly ----

  /** The delays of successive attempts never fall, and stay between the initial and the maximal delay. */
  ghost predicate Orderly(p: Policy) {
    forall k: nat :: p.initial <= Backoff(p, k) <= p.max && Backoff(p, k) <= Backoff(p, k + 1)
  }

  /**
   What the multiplier has to be, by the sign of the initial delay: for a positive delay at least one, or
   zero, which switches growth off. The other cases are those of delays that are no waits: a delay of zero
   stays, a negative one must shrink towards zero, and with a negative multiplier must be cut off or
   truncated before its sign shows.
   */
  predicate Steady(p: Policy) {
    p.multiplier == 0.0 || p.initial == 0 ||
    if p.initial > 0 then p.multiplier >= 1.0
    else if p.multiplier > 0.0 then p.multiplier <= 1.0
    else if p.max > 0 then Product(p, 1) < 1.0
    else p.multiplier >= -1.0 && Product(p, 2) > (p.max - 1) as real
  }

  lemma {:induction false} GrowsFrom(p: Policy, k: nat)
    requires forall j: nat :: Product(p, j) <= Product(p, j + 1)
    ensures Product(p, 0) <= Product(p, k)
  {
    if k > 0 {
      GrowsFrom(p, k - 1);
      assert Product(p, k - 1) <= Product(p, (k - 1) + 1);
    }
  }

  /** A product that never falls gives orderly delays. */
  lemma GrowingOrderly(p: Policy)
    requires p.initial <= p.max && p.multiplier != 0.0
    requires forall j: nat :: Product(p, j) <= Product(p, j + 1)
    ensures Orderly(p)
  {
    forall k: nat ensures p.initial <= Backoff(p, k) <= p.max && Backoff(p, k) <= Backoff(p, k + 1) {
      BackoffAt(p, k);
      BackoffAt(p, k + 1);
      FirstProducts(p);
      GrowsFrom(p, k);
      TruncateWhole(p.initial);
      TruncateMonotone(Product(p, 0), Product(p, k));
      TruncateMonotone(Product(p, k), Product(p, k + 1));
    }
  }

  lemma ProductGrows(p: Policy, k: nat)
    requires p.initial == 0 || (p.initial > 0 && p.multiplier >= 1.0) || (p.initial < 0 && 0.0 < p.multiplier <= 1.0)
    ensures Product(p, k) <= Product(p, k + 1)
  {
    var x := p.initial as real;
    if p.initial > 0 {
      PowerGrows(p.multiplier, k);
      Scale(x, Power(p.multiplier, k + 1), Power(p.multiplier, k));
    } else if p.initial < 0 {
      PowerShrinks(p.multiplier, k);
      Scale(-x, Power(p.multiplier, k), Power(p.multiplier, k + 1));
    } else {
      assert Product(p, k) == 0.0 == Product(p, k + 1);
    }
  }

  /** A multiplier below one, other than zero, makes a positive delay fall right after attempt 0. */
  lemma SmallMultiplierFalls(p: Policy)
    requires p.initial > 0 && p.multiplier < 1.0 && p.multiplier != 0.0
    ensures Backoff(p, 1) < Backoff(p, 0)
  {
    FirstProducts(p);
    ScaleBelow(p.initial as real, p.multiplier, 1.0);
    TruncateBelow(Product(p, 1), p.initial);
    BackoffIsCapped(p, 1);
  }

  lemma TruncateBelow(x: real, n: int)
    requires n > 0 && x < n as real
    ensures Truncate(x) < n
  {
  }

  /** A product of at least twice a negative initial delay is below it after truncation. */
  lemma DoubledIsBelow(p: Policy, k: nat)
    requires p.initial < 0 && p.multiplier != 0.0 && k > 0 && Power(p.multiplier, k) >= 2.0
    ensures Backoff(p, k) < p.initial
  {
    Scale(-(p.initial as real), Power(p.multiplier, k), 2.0);
    TruncateMonotone(Product(p, k), (2 * p.initial) as real);
    TruncateWhole(2 * p.initial);
    BackoffIsCapped(p, k);
  }

  /** A negative delay that grows in size leaves the bounds. */
  lemma SteepFalls(p: Policy)
    requires p.initial < 0 && (p.multiplier > 1.0 || p.multiplier < -1.0)
    ensures !Orderly(p)
  {
    var m := p.multiplier;
    var k: nat;
    if m > 1.0 {
      k := PowerDoubles(m);
    } else {
      ScaleBelow(-m, 1.0, -m);
      assert (-m) * (-m) == m * m;
      var half := PowerDoubles(m * m);
      PowerSquare(m, half);
      k := 2 * half;
    }
    DoubledIsBelow(p, k);
  }

  // ---- A negative delay with a negative multiplier ----

  /** A negative factor of size at most one turns the sign and does not add to the size. */
  lemma Flip(m: real, x: real)
    requires -1.0 <= m < 0.0
    ensures x < 0.0 ==> 0.0 < m * x <= -x
    ensures x > 0.0 ==> -x <= m * x < 0.0
    ensures x == 0.0 ==> m * x == 0.0
  {
    if x < 0.0 {
      ScaleBelow(-x, 0.0, -m);
      Scale(-x, 1.0, -m);
    } else if x > 0.0 {
      ScaleBelow(x, m, 0.0);
      Scale(x, m, -1.0);
    }
  }

  /** From one product to the next the sign turns, and the size does not grow. */
  predicate Flips(x: real, y: real) {
    (x < 0.0 ==> 0.0 < y <= -x) && (x > 0.0 ==> -x <= y < 0.0)
  }

  lemma ProductsFlip(p: Policy, k: nat)
    requires -1.0 <= p.multiplier < 0.0
    ensures Flips(Product(p, k), Product(p, k + 1))
  {
    NextProduct(p, k);
    Flip(p.multiplier, Product(p, k));
  }

  /** In such a sequence from a negative number the odd places are positive and the even ones negative, none growing. */
  lemma {:induction false} Alternates(x: nat -> real, k: nat)
    requires x(0) < 0.0 && forall j: nat :: Flips(x(j), x(j + 1))
    ensures 0.0 < x(2 * k + 1) <= x(1)
    ensures x(2) <= x(2 * k + 2) < 0.0 && -x(1) <= x(2)
  {
    assert Flips(x(0), x(0 + 1)) && Flips(x(1), x(1 + 1));
    if k > 0 {
      Alternates(x, k - 1);
      assert Flips(x(2 * k), x(2 * k + 1)) && Flips(x(2 * k + 1), x((2 * k + 1) + 1));
    }
  }

  /** So of the products: all later ones are bounded by the first, and the negative ones by the second. */
  lemma ProductsAlternate(p: Policy, k: nat)
    requires p.initial < 0 && -1.0 <= p.multiplier < 0.0
    ensures 0.0 < Product(p, 2 * k + 1) <= Product(p, 1)
    ensures -Product(p, 1) <= Product(p, 2) <= Product(p, 2 * k + 2) < 0.0
  {
    var x := (j: nat) => Product(p, j);
    FirstProducts(p);
    forall j: nat ensures Flips(x(j), x(j + 1)) {
      ProductsFlip(p, j);
    }
    Alternates(x, k);
  }

  lemma SmallFactor(x: real, m: real)
    requires x <= -1.0 && m < 0.0 && x * m < 1.0
    ensures m > -1.0
  {
    Scale(-m, -x, 1.0);
    assert (-m) * (-x) == x * m;
  }

  /** A first product below one truncates to zero, and so do all later ones. */
  lemma SmallProductOrderly(p: Policy)
    requires p.initial < 0 && p.multiplier < 0.0 && p.max > 0 && Product(p, 1) < 1.0
    ensures Orderly(p)
  {
    FirstProducts(p);
    SmallFactor(p.initial as real, p.multiplier);
    forall k: nat | k > 0 ensures Backoff(p, k) == 0 {
      ProductsAlternate(p, (k - 1) / 2);
      BackoffIsCapped(p, k);
    }
  }

  lemma SecondNegative(p: Policy)
    requires p.multiplier < 0.0 && Product(p, 1) > 0.0
    ensures Product(p, 2) < 0.0
  {
    NextProduct(p, 1);
    ScaleBelow(Product(p, 1), p.multiplier, 0.0);
  }

  lemma NegativeUnderPositiveMax(p: Policy)
    requires p.initial < 0 && p.multiplier < 0.0 && p.max > 0
    ensures Orderly(p) <==> Product(p, 1) < 1.0
  {
    if Product(p, 1) < 1.0 {
      SmallProductOrderly(p);
    } else {
      SecondNegative(p);
      BackoffIsCapped(p, 1);
      BackoffIsCapped(p, 2);
      assert Backoff(p, 1 + 1) < Backoff(p, 1);
    }
  }

  lemma NegativeUnderNegativeMax(p: Policy)
    requires p.initial <= p.max <= 0 && p.initial < 0 && -1.0 <= p.multiplier < 0.0
    ensures Orderly(p) <==> Product(p, 2) > (p.max - 1) as real
  {
    if Product(p, 2) > (p.max - 1) as real {
      forall k: nat | k > 0 ensures Backoff(p, k) == p.max {
        ProductsAlternate(p, (k - 1) / 2);
        BackoffIsCapped(p, k);
      }
    } else {
      ProductsAlternate(p, 0);
      BackoffIsCapped(p, 1);
      BackoffIsCapped(p, 2);
      TruncateMonotone(Product(p, 2), (p.max - 1) as real);
      TruncateWhole(p.max - 1);
      assert Backoff(p, 1 + 1) < Backoff(p, 1);
    }
  }

  // ---- The exact condition ----

  /**
   Exactly when the delays are orderly, for every policy: the initial delay does not exceed the maximum,
   because attempt 0 is not capped, and the multiplier is steady, because nothing keeps one below one from
   shrinking the delay. For a positive initial delay that is a multiplier of zero or at least one.
   */
  lemma BackoffOrderlyIff(p: Policy)
    ensures Orderly(p) <==> p.initial <= p.max && Steady(p)
    ensures p.initial > 0 ==> (Steady(p) <==> p.multiplier == 0.0 || p.multiplier >= 1.0)
  {
    assert Backoff(p, 0) == p.initial;
    if p.initial <= p.max && p.multiplier != 0.0 {
      if p.initial > 0 && p.multiplier < 1.0 {
        SmallMultiplierFalls(p);
        assert Backoff(p, 0 + 1) < Backoff(p, 0);
      } else if p.initial < 0 && p.multiplier < 0.0 {
        NegativeOrderlyIff(p);
      } else if p.initial < 0 && p.multiplier > 1.0 {
        SteepFalls(p);
      } else {
        forall k: nat ensures Product(p, k) <= Product(p, k + 1) {
          ProductGrows(p, k);
        }
        GrowingOrderly(p);
      }
    }
  }

  lemma NegativeOrderlyIff(p: Policy)
    requires p.initial < 0 && p.multiplier < 0.0 && p.initial <= p.max
    ensures Orderly(p) <==> Steady(p)
  {
    if p.max > 0 {
      NegativeUnderPositiveMax(p);
    } else if p.multiplier < -1.0 {
      SteepFalls(p);
    } else {
      NegativeUnderNegativeMax(p);
    }
  }

  /** A multiplier of one half, with the initial delay below the maximum, is not steady. */
  lemma HalvingFalls()
    ensures var p := Policy(true, 10, 30, 0.5, 0);
            p.initial <= p.max && Backoff(p, 1) == 5 < Backoff(p, 0) && !Orderly(p)
  {
    var p := Policy(true, 10, 30, 0.5, 0);
    FirstProducts(p);
    BackoffOrderlyIff(p);
  }

  /** A configured interval above thirty seconds is such a case: the delay falls after attempt 0. */
  lemma LongIntervalFalls(interval: int, maxAttempts: int)
    requires interval > 30 * SECOND
    ensures Backoff(ConfiguredPolicy(interval, maxAttempts), 1) == 30 * SECOND
              < Backoff(ConfiguredPolicy(interval, maxAttempts), 0)
  {
    var p := ConfiguredPolicy(interval, maxAttempts);
    BackoffIsCapped(p, 1);
    FirstProducts(p);
  }

  /**
   The configured policy: enabled, with the configured limit. An interval that is not positive means five
   seconds; the delay starts at the interval, doubles with each attempt, and stops at thirty seconds.
   */
  lemma ConfiguredDelays(interval: int, maxAttempts: int, k: nat)
    ensures var p := ConfiguredPolicy(interval, maxAttempts);
            && p.enabled && p.maxAttempts == maxAttempts
            && Backoff(p, 0) == (if interval > 0 then interval else 5 * SECOND)
            && Backoff(p, k + 1) == Min(30 * SECOND, 2 * Backoff(p, k))
  {
    BackoffRecurrence(ConfiguredPolicy(interval, maxAttempts), k);
  }

  // ---- Multiplier two ----

  function Doubled(initial: int, k: nat): int {
    if k == 0 then initial else 2 * Doubled(initial, k - 1)
  }

  lemma {:induction false} UncappedDoubles(p: Policy, k: nat)
    requires p.multiplier == 2.0
    ensures Product(p, k) == Doubled(p.initial, k) as real && Uncapped(p, k) == Doubled(p.initial, k)
  {
    if k == 0 {
      FirstProducts(p);
    } else {
      UncappedDoubles(p, k - 1);
      NextProduct(p, k - 1);
    }
    TruncateWhole(Doubled(p.initial, k));
  }

  /** For multiplier two the closed form is the capped recurrence. */
  lemma BackoffRecurrence(p: Policy, k: nat)
    requires p.initial > 0 && p.multiplier == 2.0 && p.max > 0
    ensures Backoff(p, k + 1) == Min(p.max, 2 * Backoff(p, k))
  {
    UncappedDoubles(p, k);
    UncappedDoubles(p, k + 1);
    BackoffIsCapped(p, k + 1);
    if k > 0 {
      BackoffIsCapped(p, k);
    }
  }

  /** The maximum is reached from the first attempt at which the doubled delay has caught up with it, and kept. */
  lemma BackoffReachesMax(p: Policy, k: nat)
    requires 0 < p.initial <= p.max && p.multiplier == 2.0
    ensures Backoff(p, k) == p.max <==> Doubled(p.initial, k) >= p.max
    ensures Backoff(p, k) == p.max ==> Backoff(p, k + 1) == p.max
  {
    UncappedDoubles(p, k);
    if k > 0 {
      BackoffIsCapped(p, k);
    }
    BackoffRecurrence(p, k);
  }

  /** With a maximum of at most `2^n` times the initial delay, attempt `n` and all later ones wait the maximum. */
  lemma BackoffReachesMaxSoon(p: Policy, n: nat, k: nat)
    requires 0 < p.initial <= p.max <= Doubled(p.initial, n) && p.multiplier == 2.0 && k >= n
    ensures Backoff(p, k) == p.max
    decreases k
  {
    BackoffReachesMax(p, n);
    if k > n {
      BackoffReachesMaxSoon(p, n, k - 1);
      BackoffReachesMax(p, k - 1);
    }
  }
}
