/**
 The round-robin choice of a connection (pool.go). The counter is an int32 that wraps, and the
 remainder is Go's, which takes the sign of its left operand.
 */
module RoundRobin {

  const INT32_MAX: int := 0x7fff_ffff
  const INT32_MIN: int := -0x8000_0000

  /** int32 addition of one: AddInt32(&current, 1). */
  function Tick(current: int): (r: int)
    requires INT32_MIN <= current <= INT32_MAX
    ensures INT32_MIN <= r <= INT32_MAX
  {
    if current == INT32_MAX then INT32_MIN else current + 1
  }

  /** Go's `a % b` for positive b: truncated towards zero. */
  function Remainder(a: int, b: int): int
    requires b > 0
  {
    if a >= 0 then a % b else -((-a) % b)
  }

  /** The slot the next acquisition uses. */
  function Slot(current: int, n: int): int
    requires INT32_MIN <= current <= INT32_MAX && 0 < n <= INT32_MAX
  {
    Remainder(Tick(current), n)
  }

  /**
   The slot is a legal index exactly when the counter after the tick is not negative or is a multiple
   of the number of slots. In every other case the source indexes its slice out of range.
   */
  lemma SlotIsIndex(current: int, n: int)
    requires INT32_MIN <= current <= INT32_MAX && 0 < n <= INT32_MAX
    ensures 0 <= Slot(current, n) < n <==> Tick(current) >= 0 || Tick(current) % n == 0
  {
    var t := Tick(current);
    if t < 0 {
      NegatedMultiple(t, n);
    }
  }

  lemma NegatedMultiple(t: int, n: int)
    requires n > 0
    ensures (-t) % n == 0 <==> t % n == 0
  {
    var q := t / n;
    assert t == n * q + t % n;
    if t % n == 0 {
      assert -t == n * (-q);
      RemainderOf(-t, -q, 0, n);
    } else {
      assert -t == n * (-q - 1) + (n - t % n);
      RemainderOf(-t, -q - 1, n - t % n, n);
    }
  }

  lemma RemainderOf(a: int, q: int, r: int, n: int)
    requires n > 0 && a == n * q + r && 0 <= r < n
    ensures a % n == r && a / n == q
  {
    var d := a / n - q;
    assert n * d == r - a % n;
    ProductBound(n, d);
  }

  lemma ProductBound(n: int, d: int)
    requires n > 0
    ensures d > 0 ==> n * d >= n
    ensures d < 0 ==> n * d <= -n
  {
  }

  /** The first acquisition after the counter has reached its maximum, with three slots, is out of range. */
  lemma WrapGoesOutOfRange()
    ensures Slot(INT32_MAX, 3) == -2
  {
  }

  /** How often slot `s` is chosen by the `k` acquisitions that follow counter value `c`, on either acquire path. */
  function Visits(c: nat, k: nat, n: nat, s: nat): nat
    requires 0 < n <= INT32_MAX && c + k <= INT32_MAX
  {
    if k == 0 then 0 else Visits(c, k - 1, n, s) + if Slot(c + k - 1, n) == s then 1 else 0
  }

  /** How many acquisitions before slot `s` is next, after counter value `c`. */
  function Distance(c: nat, n: nat, s: nat): nat
    requires 0 < n
  {
    (s - c - 1) % n
  }

  lemma HitsAtDistance(c: nat, k: nat, n: nat, s: nat)
    requires s < n
    ensures (c + k + 1) % n == s <==> k % n == Distance(c, n, s)
  {
    var a, b := c + k + 1, s - c - 1;
    var qa, qk, qb := a / n, k / n, b / n;
    assert a == n * qa + a % n && k == n * qk + k % n && b == n * qb + b % n;
    if a % n == s {
      assert k == n * (qa + qb) + b % n;
      RemainderOf(k, qa + qb, b % n, n);
    }
    if k % n == b % n {
      assert a == n * (qk - qb) + s;
      RemainderOf(a, qk - qb, s, n);
    }
  }

  lemma NextQuotient(k: nat, n: nat)
    requires n > 0
    ensures k % n + 1 < n ==> (k + 1) / n == k / n && (k + 1) % n == k % n + 1
    ensures k % n + 1 == n ==> (k + 1) / n == k / n + 1 && (k + 1) % n == 0
  {
    assert k == n * (k / n) + k % n;
    if k % n + 1 < n {
      RemainderOf(k + 1, k / n, k % n + 1, n);
    } else {
      assert k + 1 == n * (k / n + 1);
      RemainderOf(k + 1, k / n + 1, 0, n);
    }
  }

  /**
   While the counter does not wrap: each slot is visited once per full round, and once more in the last part
   round if its turn has come.
   */
  lemma {:induction false} VisitsExactly(c: nat, k: nat, n: nat, s: nat)
    requires 0 < n <= INT32_MAX && c + k <= INT32_MAX && s < n
    ensures Visits(c, k, n, s) == k / n + if Distance(c, n, s) < k % n then 1 else 0
    decreases k
  {
    if k == 0 {
      RemainderOf(0, 0, 0, n);
    } else {
      VisitsExactly(c, k - 1, n, s);
      HitsAtDistance(c, k - 1, n, s);
      NextQuotient(k - 1, n);
    }
  }

  /**
   Fairness: from any counter value and while it does not wrap, any `n` consecutive acquisitions use
   every slot exactly once, and after any number of acquisitions two slots' counts differ by at most one.
   */
  lemma Fair(c: nat, k: nat, n: nat, s: nat, r: nat)
    requires 0 < n <= INT32_MAX && c + k <= INT32_MAX && s < n && r < n
    ensures k == n ==> Visits(c, k, n, s) == 1
    ensures -1 <= Visits(c, k, n, s) - Visits(c, k, n, r) <= 1
  {
    VisitsExactly(c, k, n, s);
    VisitsExactly(c, k, n, r);
    if k == n {
      RemainderOf(n, 1, 0, n);
    }
  }
}
