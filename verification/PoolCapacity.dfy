/**
 What the pool is for, over sequences of calls: channels given back are reused in order, a pool of size
 n really leases n channels and no more, and its idle queue really holds what it is configured to.
 */
module PoolCapacity {
  import opened Base
  import P = PoolProtocol
  import S = PoolSafety
  import opened ChannelPool
  import opened PoolSequential

  /** An open pool between calls. */
  ghost predicate Serving(p: P.Pool) {
    AtRest(p) && !p.closed
  }

  lemma ReleaseServes(p: P.Pool, lease: P.Lease)
    requires Serving(p) && lease in p.leases
    ensures Serving(Released(p, lease)) && Released(p, lease).config == p.config
    ensures Released(p, lease).next == p.next && |Released(p, lease).leases| == |p.leases| - 1
  {
    var n := Released(p, lease);
    assert n.leases.Keys == p.leases.Keys - {lease};
    ReleaseMeans(p, lease);
  }

  // ---- Channels given back are reused in order ----

  /** The channels the first `k` steps of a history give back. */
  function Given(p: P.Pool, steps: seq<Step>, k: nat): seq<Ch>
    requires k <= |steps| && forall i :: 0 <= i < k ==> steps[i].Release? && steps[i].lease in p.leases
  {
    seq(k, (i: nat) requires i < k => p.leases[steps[i].lease])
  }

  predicate GivesBack(p: P.Pool, steps: seq<Step>, k: nat) {
    && k <= |steps| && |p.queue| + k <= p.config.maxIdle
    && forall i :: 0 <= i < k ==> steps[i].Release? && steps[i].lease in p.leases && p.leases[steps[i].lease] in p.open
  }

  lemma {:induction false} ReleasesQueue(pools: seq<P.Pool>, steps: seq<Step>, k: nat)
    requires IsHistory(pools, steps) && Serving(pools[0]) && GivesBack(pools[0], steps, k)
    ensures Serving(pools[k]) && pools[k].config == pools[0].config
    ensures pools[k].queue == pools[0].queue + Given(pools[0], steps, k)
    ensures pools[k].open == pools[0].open && pools[k].next == pools[0].next
    ensures forall l :: l in pools[k].leases ==> l in pools[0].leases && pools[k].leases[l] == pools[0].leases[l]
  {
    if k > 0 {
      ReleasesQueue(pools, steps, k - 1);
      var p, lease := pools[k - 1], steps[k - 1].lease;
      assert StepAt(pools, steps, k - 1);
      ReleaseServes(p, lease);
      ReleaseMeans(p, lease);
      assert Given(pools[0], steps, k) == Given(pools[0], steps, k - 1) + [pools[0].leases[lease]];
    }
  }

  predicate AcquiresNow(steps: seq<Step>, k: nat) {
    k <= |steps| && forall i :: 0 <= i < k ==> steps[i].Acquire? && !steps[i].w.done
  }

  lemma {:induction false} AcquiresDrain(pools: seq<P.Pool>, steps: seq<Step>, k: nat)
    requires IsHistory(pools, steps) && Serving(pools[0]) && AcquiresNow(steps, k)
    requires k <= |pools[0].queue| && forall c :: c in pools[0].queue ==> c in pools[0].open
    ensures forall i :: 0 <= i < k ==> steps[i].r == Leased(pools[0].queue[i])
    ensures Serving(pools[k]) && pools[k].queue == pools[0].queue[k..]
    ensures pools[k].open == pools[0].open && pools[k].next == pools[0].next
  {
    if k > 0 {
      AcquiresDrain(pools, steps, k - 1);
      var p, e := pools[k - 1], steps[k - 1];
      assert StepAt(pools, steps, k - 1);
      assert p.queue[0] == pools[0].queue[k - 1];
      AcquiresAtRest(p, e.w, e.r, pools[k]);
      AcquireReuses(p, e.w, e.r, pools[k], 0);
    }
  }

  /**
   The round trip: live channels given back to an open pool with room for them are leased again by the
   following calls of Acquire, behind those idle before, in the order given back; nothing is opened or closed.
   */
  lemma GivenBackIsReused(pools: seq<P.Pool>, steps: seq<Step>, k: nat, m: nat)
    requires IsHistory(pools, steps) && Serving(pools[0]) && GivesBack(pools[0], steps, k)
    requires forall c :: c in pools[0].queue ==> c in pools[0].open
    requires k + m <= |steps| && m <= |pools[0].queue| + k
    requires forall i :: k <= i < k + m ==> steps[i].Acquire? && !steps[i].w.done
    ensures forall i :: 0 <= i < m ==> steps[k + i].r == Leased((pools[0].queue + Given(pools[0], steps, k))[i])
    ensures pools[k + m].queue == (pools[0].queue + Given(pools[0], steps, k))[m..]
    ensures pools[k + m].open == pools[0].open && pools[k + m].next == pools[0].next
  {
    ReleasesQueue(pools, steps, k);
    var queue := pools[0].queue + Given(pools[0], steps, k);
    forall c | c in queue ensures c in pools[0].open {
      if c !in pools[0].queue {
        assert c in Given(pools[0], steps, k);
      }
    }
    Later(pools, steps, k);
    AcquiresDrain(pools[k..], steps[k..], m);
    forall i | 0 <= i < m ensures steps[k + i].r == Leased(queue[i]) {
      assert steps[k..][i].r == Leased(queue[i]);
    }
  }

  lemma Later(pools: seq<P.Pool>, steps: seq<Step>, k: nat)
    requires IsHistory(pools, steps) && k <= |steps|
    ensures IsHistory(pools[k..], steps[k..])
  {
    forall i: nat | i < |steps| - k ensures StepAt(pools[k..], steps[k..], i) {
      assert StepAt(pools, steps, k + i);
    }
  }

  // ---- A pool of size n leases n channels, and no more ----

  /** A broker that opens channels, options that accept them, and a context that is not done. */
  const WILLING := World(false, true, false)

  predicate AcquiresWillingly(steps: seq<Step>, k: nat) {
    k <= |steps| && forall i :: 0 <= i < k ==> steps[i].Acquire? && steps[i].w == WILLING
  }

  /** A pool with `k` channels, all leased and open. */
  ghost predicate AllLeased(p: P.Pool, k: nat) {
    && Serving(p) && p.queue == [] && |p.leases| == k && |p.open| == k
    && forall l :: l in p.leases ==> p.leases[l] in p.open
  }

  lemma LeaseOneMore(p: P.Pool, r: Outcome, n: P.Pool, k: nat)
    requires AllLeased(p, k) && k < p.config.poolSize && Acquires(p, WILLING, r, n)
    ensures r.Leased? && r.ch !in p.open && n.open == p.open + {r.ch} && AllLeased(n, k + 1) && n.config == p.config
  {
    AcquiresAtRest(p, WILLING, r, n);
    AcquireOpens(p, WILLING, r, n);
    assert p.nextLease !in p.leases;
    assert |p.leases[p.nextLease := r.ch]| == |p.leases| + 1;
  }

  lemma StepLeases(pools: seq<P.Pool>, steps: seq<Step>, k: nat)
    requires IsHistory(pools, steps) && k < |steps| && steps[k].Acquire? && steps[k].w == WILLING
    requires AllLeased(pools[k], k) && k < pools[k].config.poolSize
    ensures steps[k].r.Leased? && steps[k].r.ch !in pools[k].open
    ensures pools[k + 1].open == pools[k].open + {steps[k].r.ch}
    ensures AllLeased(pools[k + 1], k + 1) && pools[k + 1].config == pools[k].config
  {
    assert StepAt(pools, steps, k);
    LeaseOneMore(pools[k], steps[k].r, pools[k + 1], k);
  }

  /** After `k` willing calls of Acquire on a new pool with room for them. */
  lemma {:induction false} LeasesUpTo(
      pools: seq<P.Pool>, steps: seq<Step>, conn: nat, size: int, maxIdle: int, k: nat)
    requires IsHistory(pools, steps) && pools[0] == P.New(conn, size, maxIdle)
    requires k <= (if size > 0 then size else 1) && AcquiresWillingly(steps, k)
    ensures AllLeased(pools[k], k) && pools[k].config == pools[0].config
  {
    if k > 0 {
      LeasesUpTo(pools, steps, conn, size, maxIdle, k - 1);
      StepLeases(pools, steps, k - 1);
    }
  }

  /** The first `k` calls lease distinct channels, which stay open. */
  predicate LeaseDistinct(p: P.Pool, steps: seq<Step>, k: nat)
    requires k <= |steps|
  {
    && (forall i :: 0 <= i < k ==> steps[i].Acquire? && steps[i].r.Leased? && steps[i].r.ch in p.open)
    && (forall i, j :: 0 <= i < j < k ==> steps[i].r.ch != steps[j].r.ch)
  }

  lemma OneMoreDistinct(p: P.Pool, n: P.Pool, steps: seq<Step>, k: nat)
    requires k < |steps| && LeaseDistinct(p, steps, k) && steps[k].Acquire? && steps[k].r.Leased?
    requires steps[k].r.ch !in p.open && n.open == p.open + {steps[k].r.ch}
    ensures LeaseDistinct(n, steps, k + 1)
  {
  }

  lemma {:induction false} DistinctUpTo(
      pools: seq<P.Pool>, steps: seq<Step>, conn: nat, size: int, maxIdle: int, k: nat)
    requires IsHistory(pools, steps) && pools[0] == P.New(conn, size, maxIdle)
    requires k <= (if size > 0 then size else 1) && AcquiresWillingly(steps, k)
    ensures LeaseDistinct(pools[k], steps, k)
  {
    if k > 0 {
      DistinctUpTo(pools, steps, conn, size, maxIdle, k - 1);
      LeasesUpTo(pools, steps, conn, size, maxIdle, k - 1);
      StepLeases(pools, steps, k - 1);
      OneMoreDistinct(pools[k - 1], pools[k], steps, k - 1);
    }
  }

  /**
   On a new pool configured for `size` channels, or one where that is not positive, and with a willing
   broker, as many first calls of Acquire all lease, each a channel of its own, and the next can only wait.
   */
  lemma LeasesExactly(pools: seq<P.Pool>, steps: seq<Step>, conn: nat, size: int, maxIdle: int, n: nat)
    requires n == if size > 0 then size else 1
    requires IsHistory(pools, steps) && pools[0] == P.New(conn, size, maxIdle) && AcquiresWillingly(steps, n + 1)
    ensures forall i :: 0 <= i < n ==> steps[i].r.Leased? && steps[i].r.ch in pools[n].open
    ensures forall i, j :: 0 <= i < j < n ==> steps[i].r.ch != steps[j].r.ch
    ensures |pools[n].open| == |pools[n].leases| == n && steps[n].r == Blocked
  {
    LeasesUpTo(pools, steps, conn, size, maxIdle, n);
    DistinctUpTo(pools, steps, conn, size, maxIdle, n);
    assert StepAt(pools, steps, n);
    AcquireOpens(pools[n], WILLING, steps[n].r, pools[n + 1]);
  }

  // ---- Such histories exist, so the bounds are reached ----

  lemma Extended(pools: seq<P.Pool>, steps: seq<Step>, e: Step, n: P.Pool)
    requires IsHistory(pools, steps) && Makes(pools[|steps|], e, n)
    ensures IsHistory(pools + [n], steps + [e])
  {
    forall i: nat | i < |steps| + 1 ensures StepAt(pools + [n], steps + [e], i) {
      if i < |steps| {
        assert StepAt(pools, steps, i);
      }
    }
  }

  lemma {:induction false} Fill(conn: nat, size: int, maxIdle: int, k: nat)
    returns (pools: seq<P.Pool>, steps: seq<Step>)
    requires k <= if size > 0 then size else 1
    ensures IsHistory(pools, steps) && |steps| == k && AcquiresWillingly(steps, k)
    ensures pools[0] == P.New(conn, size, maxIdle) && AllLeased(pools[k], k) && pools[k].config == pools[0].config
    decreases k
  {
    if k == 0 {
      pools, steps := [P.New(conn, size, maxIdle)], [];
    } else {
      pools, steps := Fill(conn, size, maxIdle, k - 1);
      var r, n := AcquireAnswers(pools[k - 1], WILLING);
      LeaseOneMore(pools[k - 1], r, n, k - 1);
      Extended(pools, steps, Acquire(WILLING, r), n);
      pools, steps := pools + [n], steps + [Acquire(WILLING, r)];
    }
  }

  /** The bound on open channels is reached: some schedule has as many open as the pool is configured for. */
  lemma PoolSizeReached(conn: nat, size: int, maxIdle: int)
    ensures exists y, trace ::
              S.Reached(y, conn, size, maxIdle, trace)
              && |y.s.p.open| == |y.s.p.leases| == if size > 0 then size else 1
  {
    var n := if size > 0 then size else 1;
    var pools, steps := Fill(conn, size, maxIdle, n);
    CallsKeepReached(pools, steps, conn, size, maxIdle);
    var y, trace :| S.Reached(y, conn, size, maxIdle, trace) && y.s == P.State(pools[n], map[]);
  }

  /** A pool with `idle` channels idle and `leased` leased, all open. */
  ghost predicate AllOpen(p: P.Pool, idle: nat, leased: nat) {
    && Serving(p) && |p.queue| == idle && |p.leases| == leased
    && forall l :: l in p.leases ==> p.leases[l] in p.open
  }

  lemma {:induction false} Park(pools: seq<P.Pool>, steps: seq<Step>, idle: nat, leased: nat, k: nat)
    returns (longer: seq<P.Pool>, more: seq<Step>)
    requires IsHistory(pools, steps) && AllOpen(pools[|steps|], idle, leased)
    requires k <= leased && idle + k <= pools[|steps|].config.maxIdle
    ensures IsHistory(longer, more) && longer[0] == pools[0]
    ensures AllOpen(longer[|more|], idle + k, leased - k)
    decreases k
  {
    longer, more := pools, steps;
    if k > 0 {
      var p := pools[|steps|];
      assert p.leases.Keys != {};
      var lease :| lease in p.leases;
      ReleaseServes(p, lease);
      ReleaseMeans(p, lease);
      Extended(pools, steps, Release(lease), Released(p, lease));
      longer, more := pools + [Released(p, lease)], steps + [Release(lease)];
      longer, more := Park(longer, more, idle + 1, leased - 1, k - 1);
    }
  }

  /**
   So is the bound on idle ones: the configured limit if it is positive and no larger than the pool, else
   the pool's size.
   */
  lemma IdleLimitReached(conn: nat, size: int, maxIdle: int)
    ensures exists y, trace ::
              var n := if size > 0 then size else 1;
              S.Reached(y, conn, size, maxIdle, trace) && |y.s.p.queue| == if 0 < maxIdle <= n then maxIdle else n
  {
    var n := if size > 0 then size else 1;
    var limit := if 0 < maxIdle <= n then maxIdle else n;
    var pools, steps := Fill(conn, size, maxIdle, n);
    var longer, more := Park(pools, steps, 0, n, limit);
    CallsKeepReached(longer, more, conn, size, maxIdle);
    var y, trace :| S.Reached(y, conn, size, maxIdle, trace) && y.s == P.State(longer[|more|], map[]);
    assert S.Reached(y, conn, size, maxIdle, trace) && |y.s.p.queue| == limit;
  }
}
