/**
 The pool and the wrappers of its leases together (client.go builds one wrapper per acquired
 channel, whose callbacks are the pool's release and discard). A lease is given back exactly when
 its wrapper's Close reaches its ending.
 */
module PooledChannel {
  import opened Base
  import P = PoolProtocol
  import V = PoolInvariant
  import O = PoolOwners
  import S = PoolSafety
  import W = WrapperProtocol

  /** `wrappers` keeps every wrapper ever built, by its lease. */
  datatype Sys = Sys(pool: P.Sys, wrappers: map<P.Lease, W.Sys>)

  datatype Event =
    | InPool(e: P.Event)
    | Wrap(t: Tid)
    | OnWrapper(lease: P.Lease, we: W.Event)
    | End(lease: P.Lease, t: Tid)

  function NewSys(conn: nat, poolSize: int, maxIdle: int): Sys {
    Sys(P.NewSys(conn, poolSize, maxIdle), map[])
  }

  /** The pool's step when goroutine `t` ends the Close of the wrapper of `lease`. */
  function Callback(y: Sys, lease: P.Lease, t: Tid): P.Event
    requires lease in y.wrappers && t in y.wrappers[lease].closers
  {
    P.GiveBack(t, lease, W.Settle(y.wrappers[lease].closers[t]).Discarded?)
  }

  predicate Can(y: Sys, e: Event) {
    match e
    case InPool(pe) => P.Can(y.pool, pe) && !pe.Grant? && !pe.GiveBack?
    case Wrap(t) => P.Can(y.pool, P.Grant(t))
    case OnWrapper(lease, we) => lease in y.wrappers && W.Enabled(y.wrappers[lease], we) && !we.Finish?
    case End(lease, t) =>
      lease in y.wrappers && W.Enabled(y.wrappers[lease], W.Finish(t)) && P.Can(y.pool, Callback(y, lease, t))
  }

  function Do(y: Sys, e: Event): Sys
    requires Can(y, e)
  {
    match e
    case InPool(pe) => y.(pool := P.Do(y.pool, pe))
    case Wrap(t) =>
      var ch := y.pool.s.threads[t].acquire.ch;
      Sys(P.Do(y.pool, P.Grant(t)), y.wrappers[y.pool.s.p.nextLease := W.Create(ch, true, true)])
    case OnWrapper(lease, we) => y.(wrappers := y.wrappers[lease := W.Apply(y.wrappers[lease], we)])
    case End(lease, t) =>
      Sys(P.Do(y.pool, Callback(y, lease, t)), y.wrappers[lease := W.Apply(y.wrappers[lease], W.Finish(t))])
  }

  function After(y: Sys, trace: seq<Event>): Option<Sys>
    decreases |trace|
  {
    if trace == [] then Some(y)
    else if !Can(y, trace[0]) then None
    else After(Do(y, trace[0]), trace[1..])
  }

  // ---- A channel that can only be closed ----

  /** Channel `c` is still leased to `lease`, or on its way to being closed, or gone. */
  predicate Doomed(y: P.Sys, c: Ch, lease: P.Lease) {
    && c in y.l.owner
    && match y.l.owner[c] {
         case LeasedTo(k) => k == lease
         case HeldBy(t) => t in y.s.threads && y.s.threads[t] == P.InRelease(P.CloseDiscarded(c))
         case InQueue => false
         case Gone => true
       }
  }

  lemma DoomedRun(y: P.Sys, t: Tid, choice: P.Choice, c: Ch, lease: P.Lease)
    requires O.Owners(y.s, y.l) && P.Can(y, P.Run(t, choice)) && Doomed(y, c, lease)
    ensures Doomed(P.Do(y, P.Run(t, choice)), c, lease)
  {
    S.RunMoves(y.s, y.l, t, choice);
    assert y.s.p.queue != [] ==> O.Known(y.s.p, y.l, y.s.p.queue[0], P.InQueue);
    var hand := V.Carries(y.s.threads[t]);
    assert hand.Some? ==> O.Known(y.s.p, y.l, hand.value, P.HeldBy(t));
    if hand == Some(c) {
      assert y.s.threads[t] == P.InRelease(P.CloseDiscarded(c));
    } else {
      assert P.Do(y, P.Run(t, choice)).l.owner[c] == y.l.owner[c];
    }
  }

  lemma DoomedStep(y: P.Sys, e: P.Event, c: Ch, lease: P.Lease)
    requires O.Owners(y.s, y.l) && P.Can(y, e) && Doomed(y, c, lease)
    requires e.GiveBack? && e.lease == lease ==> e.discard
    ensures Doomed(P.Do(y, e), c, lease)
  {
    match e
    case Run(t, choice) => DoomedRun(y, t, choice, c, lease);
    case Grant(t) => assert O.Known(y.s.p, y.l, y.s.threads[t].acquire.ch, P.HeldBy(t));
    case GiveBack(t, k, _) => assert O.Known(y.s.p, y.l, y.s.p.leases[k], P.LeasedTo(k));
    case Begin(t, _) =>
    case Die(_) =>
  }

  // ---- The invariant ----

  ghost predicate WrapperOk(y: Sys, lease: P.Lease)
    requires lease in y.wrappers
  {
    var w := y.wrappers[lease];
    && W.Inv(w) && w.release && w.discard && lease < y.pool.s.p.nextLease
    && (lease in y.pool.s.p.leases <==> w.log.ran == [])
    && (lease in y.pool.s.p.leases ==> y.pool.s.p.leases[lease] == w.ch)
    && (w.log.tainted ==> Doomed(y.pool, w.ch, lease))
  }

  ghost predicate Linked(y: Sys) {
    && (forall lease :: lease in y.pool.s.p.leases ==> lease in y.wrappers)
    && (forall lease :: lease in y.wrappers ==> WrapperOk(y, lease))
  }

  ghost predicate Inv(y: Sys) {
    S.Inv(y.pool) && Linked(y)
  }

  lemma LinkedInPool(y: Sys, e: P.Event)
    requires Inv(y) && Can(y, InPool(e))
    ensures Linked(Do(y, InPool(e)))
  {
    LeasesKept(y.pool, e);
    forall lease | lease in y.wrappers ensures WrapperOk(Do(y, InPool(e)), lease) {
      assert WrapperOk(y, lease);
      if y.wrappers[lease].log.tainted {
        DoomedStep(y.pool, e, y.wrappers[lease].ch, lease);
      }
    }
  }

  lemma LeasesKept(y: P.Sys, e: P.Event)
    requires P.Can(y, e) && !e.Grant? && !e.GiveBack? && V.Tokens(y.s) && V.Ledger(y.s, y.l)
    ensures P.Do(y, e).s.p.leases == y.s.p.leases && P.Do(y, e).s.p.nextLease == y.s.p.nextLease
  {
    if e.Run? {
      match y.s.threads[e.t]
      case InAcquire(at) => V.AcquireBalanced(y.s.p, at, e.choice);
      case InOpen(at) => V.OpenBalanced(y.s.p, at, e.choice);
      case InRelease(at) => V.ReleaseBalanced(y.s.p, e.t, at);
      case InClose(at) => V.CloseBalanced(y.s.p, e.t, at);
      case InPermit(at) => V.GuardsHold(y.s, e.t); V.PermitBalanced(y.s.p, at);
    }
  }

  /** The pool step hands lease `lease` out, or takes it back. */
  predicate Concerns(y: Sys, e: P.Event, lease: P.Lease) {
    (e.Grant? && lease == y.pool.s.p.nextLease) || (e.GiveBack? && lease == e.lease)
  }

  lemma OtherOk(y: Sys, e: P.Event, lease: P.Lease, w: W.Sys, k: P.Lease)
    requires O.Owners(y.pool.s, y.pool.l) && P.Can(y.pool, e) && Concerns(y, e, lease)
    requires k in y.wrappers && k != lease && WrapperOk(y, k)
    ensures WrapperOk(Sys(P.Do(y.pool, e), y.wrappers[lease := w]), k)
  {
    if y.wrappers[k].log.tainted {
      DoomedStep(y.pool, e, y.wrappers[k].ch, k);
    }
  }

  lemma LeasesWrapped(y: Sys, e: P.Event, lease: P.Lease)
    requires Linked(y) && P.Can(y.pool, e) && Concerns(y, e, lease)
    ensures forall k :: k in P.Do(y.pool, e).s.p.leases ==> k == lease || k in y.wrappers
  {
  }

  /** Such a step, with the lease's wrapper now `w`, leaves every other wrapper right. */
  lemma LinkedOthers(y: Sys, e: P.Event, lease: P.Lease, w: W.Sys)
    requires Linked(y) && O.Owners(y.pool.s, y.pool.l) && P.Can(y.pool, e) && Concerns(y, e, lease)
    requires WrapperOk(Sys(P.Do(y.pool, e), y.wrappers[lease := w]), lease)
    ensures Linked(Sys(P.Do(y.pool, e), y.wrappers[lease := w]))
  {
    var n := Sys(P.Do(y.pool, e), y.wrappers[lease := w]);
    LeasesWrapped(y, e, lease);
    forall k | k in n.wrappers && k != lease ensures WrapperOk(n, k) {
      assert WrapperOk(y, k);
      OtherOk(y, e, lease, w, k);
    }
  }

  lemma LinkedWrap(y: Sys, t: Tid)
    requires Inv(y) && Can(y, Wrap(t))
    ensures Linked(Do(y, Wrap(t)))
  {
    LeaseIsNew(y);
    WrappedOk(y, t);
    LinkedOthers(y, P.Grant(t), y.pool.s.p.nextLease, W.Create(y.pool.s.threads[t].acquire.ch, true, true));
  }

  lemma LeaseIsNew(y: Sys)
    requires Inv(y)
    ensures y.pool.s.p.nextLease !in y.wrappers
  {
    forall k | k in y.wrappers ensures k < y.pool.s.p.nextLease {
      assert WrapperOk(y, k);
    }
  }

  lemma WrappedOk(y: Sys, t: Tid)
    requires Inv(y) && Can(y, Wrap(t)) && y.pool.s.p.nextLease !in y.wrappers
    ensures WrapperOk(Do(y, Wrap(t)), y.pool.s.p.nextLease)
    ensures forall k :: k in Do(y, Wrap(t)).pool.s.p.leases ==> k in Do(y, Wrap(t)).wrappers
  {
    var lease := y.pool.s.p.nextLease;
    var ch := y.pool.s.threads[t].acquire.ch;
    var n := Do(y, Wrap(t));
    assert n.wrappers[lease] == W.Create(ch, true, true);
    FreshInv(ch);
    assert n.pool.s.p.leases == y.pool.s.p.leases[lease := ch] && n.pool.s.p.nextLease == lease + 1;
  }

  lemma FreshInv(ch: Ch)
    ensures W.Inv(W.Create(ch, true, true))
  {
    assert W.IsOpen(W.Create(ch, true, true));
  }

  lemma WrapperStep(w: W.Sys, e: W.Event)
    requires W.Inv(w) && W.Enabled(w, e)
    ensures var n := W.Apply(w, e);
            && W.Inv(n) && n.ch == w.ch && n.release == w.release && n.discard == w.discard
            && (!e.Finish? ==> n.log.ran == w.log.ran)
            && (n.log.tainted && !w.log.tainted ==> w.log.ran == [])
            && (e.Finish? ==> w.log.ran == [] && n.log.ran == [W.Settle(w.closers[e.t])]
                              && (W.Settle(w.closers[e.t]).Discarded? <==> w.release && w.discard && w.log.tainted)
                              && n.log.tainted == w.log.tainted)
  {
    if W.IsOpen(w) {
      W.StepFromOpen(w, e);
    } else {
      W.StepFromShut(w, e);
    }
  }

  lemma LinkedOnWrapper(y: Sys, lease: P.Lease, e: W.Event)
    requires Inv(y) && Can(y, OnWrapper(lease, e))
    ensures Linked(Do(y, OnWrapper(lease, e)))
  {
    OnWrapperOk(y, lease, e);
    WrappersKept(y, lease, W.Apply(y.wrappers[lease], e));
  }

  lemma WrappersKept(y: Sys, lease: P.Lease, w: W.Sys)
    requires Linked(y) && lease in y.wrappers
    requires WrapperOk(y.(wrappers := y.wrappers[lease := w]), lease)
    ensures Linked(y.(wrappers := y.wrappers[lease := w]))
  {
    var n := y.(wrappers := y.wrappers[lease := w]);
    forall k | k in n.wrappers ensures WrapperOk(n, k) {
      assert WrapperOk(y, k);
    }
  }

  lemma OnWrapperOk(y: Sys, lease: P.Lease, e: W.Event)
    requires Inv(y) && Can(y, OnWrapper(lease, e))
    ensures WrapperOk(Do(y, OnWrapper(lease, e)), lease)
  {
    assert WrapperOk(y, lease);
    WrapperStep(y.wrappers[lease], e);
    if lease in y.pool.s.p.leases {
      assert O.Known(y.pool.s.p, y.pool.l, y.pool.s.p.leases[lease], P.LeasedTo(lease));
    }
  }

  lemma LinkedEnd(y: Sys, lease: P.Lease, t: Tid)
    requires Inv(y) && Can(y, End(lease, t))
    ensures Linked(Do(y, End(lease, t)))
  {
    var e, w := Callback(y, lease, t), W.Apply(y.wrappers[lease], W.Finish(t));
    assert e.GiveBack? && e.lease == lease && P.Can(y.pool, e);
    EndedOk(y, lease, t, w);
    SettledOk(y, lease, w, e);
    LinkedOthers(y, e, lease, w);
  }

  lemma EndedOk(y: Sys, lease: P.Lease, t: Tid, w: W.Sys)
    requires Inv(y) && Can(y, End(lease, t)) && w == W.Apply(y.wrappers[lease], W.Finish(t))
    ensures WrapperOk(y, lease) && W.Inv(w) && w.release && w.discard && w.ch == y.wrappers[lease].ch
    ensures w.log.ran != [] && w.log.tainted == y.wrappers[lease].log.tainted
    ensures Callback(y, lease, t).discard <==> w.log.tainted
  {
    assert WrapperOk(y, lease);
    WrapperStep(y.wrappers[lease], W.Finish(t));
  }

  lemma SettledOk(y: Sys, lease: P.Lease, w: W.Sys, e: P.Event)
    requires Inv(y) && lease in y.wrappers && WrapperOk(y, lease) && P.Can(y.pool, e)
    requires e.GiveBack? && e.lease == lease && (e.discard <==> w.log.tainted)
    requires W.Inv(w) && w.release && w.discard && w.ch == y.wrappers[lease].ch && w.log.ran != []
    requires w.log.tainted == y.wrappers[lease].log.tainted
    ensures WrapperOk(Sys(P.Do(y.pool, e), y.wrappers[lease := w]), lease)
  {
    if w.log.tainted {
      DoomedStep(y.pool, e, w.ch, lease);
    }
  }

  /** The pool behind the wrappers keeps its own invariant. */
  lemma PoolStep(y: Sys, e: Event)
    requires S.Inv(y.pool) && Can(y, e)
    ensures S.Inv(Do(y, e).pool)
  {
    PoolPartDoes(y, e);
    var part := PoolPart(y, e);
    if part.Some? {
      S.InvStep(y.pool, part.value);
    }
  }

  lemma InvStep(y: Sys, e: Event)
    requires Inv(y) && Can(y, e)
    ensures Inv(Do(y, e))
  {
    PoolStep(y, e);
    match e
    case InPool(pe) => LinkedInPool(y, pe);
    case Wrap(t) => LinkedWrap(y, t);
    case OnWrapper(lease, we) => LinkedOnWrapper(y, lease, we);
    case End(lease, t) => LinkedEnd(y, lease, t);
  }

  lemma {:induction false} InvAfter(y: Sys, trace: seq<Event>)
    requires Inv(y) && After(y, trace).Some?
    ensures Inv(After(y, trace).value)
    decreases |trace|
  {
    if trace != [] {
      InvStep(y, trace[0]);
      InvAfter(Do(y, trace[0]), trace[1..]);
    }
  }

  ghost predicate Reached(y: Sys, conn: nat, poolSize: int, maxIdle: int, trace: seq<Event>) {
    After(NewSys(conn, poolSize, maxIdle), trace) == Some(y)
  }

  lemma ReachedInv(y: Sys, conn: nat, poolSize: int, maxIdle: int, trace: seq<Event>)
    requires Reached(y, conn, poolSize, maxIdle, trace)
    ensures Inv(y)
  {
    S.InvNew(conn, poolSize, maxIdle);
    InvAfter(NewSys(conn, poolSize, maxIdle), trace);
  }

  // ---- The guarantees ----

  /**
   Clean reuse: a channel on which a stateful operation or raw access was ever admitted is never
   idle again, and no later lease gets it.
   */
  lemma CleanReuse(y: Sys, conn: nat, poolSize: int, maxIdle: int, trace: seq<Event>, lease: P.Lease)
    requires Reached(y, conn, poolSize, maxIdle, trace)
    requires lease in y.wrappers && y.wrappers[lease].log.tainted
    ensures y.wrappers[lease].ch !in y.pool.s.p.queue
    ensures forall k :: k in y.pool.s.p.leases && k != lease ==> y.pool.s.p.leases[k] != y.wrappers[lease].ch
  {
    ReachedInv(y, conn, poolSize, maxIdle, trace);
    assert WrapperOk(y, lease);
    var c := y.wrappers[lease].ch;
    if c in y.pool.s.p.queue {
      S.LocatedIsOwner(y.pool.s, y.pool.l, P.InQueue, c);
      assert false;
    }
    forall k | k in y.pool.s.p.leases && k != lease ensures y.pool.s.p.leases[k] != c {
      assert O.Known(y.pool.s.p, y.pool.l, y.pool.s.p.leases[k], P.LeasedTo(k));
    }
  }

  /**
   Exclusive use: while an operation runs through a wrapper, its channel is leased to that wrapper and
   to no other, is not idle, is in no goroutine's hands inside the pool, and no operation runs on it
   through another wrapper.
   */
  lemma ExclusiveUse(y: Sys, conn: nat, poolSize: int, maxIdle: int, trace: seq<Event>, lease: P.Lease, t: Tid)
    requires Reached(y, conn, poolSize, maxIdle, trace)
    requires lease in y.wrappers && t in y.wrappers[lease].ops
    ensures lease in y.pool.s.p.leases && y.pool.s.p.leases[lease] == y.wrappers[lease].ops[t]
    ensures forall o :: O.Sits(y.pool.s, o, y.wrappers[lease].ops[t]) && !o.Gone? ==> o == P.LeasedTo(lease)
    ensures forall k :: k in y.wrappers && k != lease && y.wrappers[k].ch == y.wrappers[lease].ch
                        ==> y.wrappers[k].ops == map[]
  {
    ReachedInv(y, conn, poolSize, maxIdle, trace);
    assert WrapperOk(y, lease);
    var c := y.wrappers[lease].ch;
    assert O.Known(y.pool.s.p, y.pool.l, y.pool.s.p.leases[lease], P.LeasedTo(lease));
    forall o | O.Sits(y.pool.s, o, c) && !o.Gone? ensures o == P.LeasedTo(lease) {
      S.LocatedIsOwner(y.pool.s, y.pool.l, o, c);
    }
    forall k | k in y.pool.s.p.leases && k != lease ensures y.pool.s.p.leases[k] != c {
      assert O.Known(y.pool.s.p, y.pool.l, y.pool.s.p.leases[k], P.LeasedTo(k));
    }
    forall k | k in y.wrappers && k != lease && y.wrappers[k].ch == c ensures y.wrappers[k].ops == map[] {
      assert WrapperOk(y, k);
    }
  }

  /** A wrapper that has ended went back by `release` if no stateful use was ever admitted, else by `discard`. */
  lemma GivenBackOnce(y: Sys, conn: nat, poolSize: int, maxIdle: int, trace: seq<Event>, lease: P.Lease)
    requires Reached(y, conn, poolSize, maxIdle, trace) && lease in y.wrappers
    ensures lease in y.pool.s.p.leases <==> y.wrappers[lease].log.ran == []
    ensures y.wrappers[lease].log.ran != []
            ==> y.wrappers[lease].log.ran == [if y.wrappers[lease].log.tainted then W.Discarded else W.Released]
  {
    ReachedInv(y, conn, poolSize, maxIdle, trace);
    assert WrapperOk(y, lease);
  }

  // ---- Every run of the pool with its wrappers is a run of the pool ----

  /** The pool's own step within a step of the pool and its wrappers; None for a step of a wrapper alone. */
  function PoolPart(y: Sys, e: Event): Option<P.Event>
    requires Can(y, e)
  {
    match e
    case InPool(pe) => Some(pe)
    case Wrap(t) => Some(P.Grant(t))
    case OnWrapper(_, _) => None
    case End(lease, t) => Some(Callback(y, lease, t))
  }

  lemma PoolPartDoes(y: Sys, e: Event)
    requires Can(y, e)
    ensures var part := PoolPart(y, e);
            && (part.Some? ==> P.Can(y.pool, part.value) && Do(y, e).pool == P.Do(y.pool, part.value))
            && (part.None? ==> Do(y, e).pool == y.pool)
            && (part.Some? && part.value.Begin? ==> e == InPool(part.value))
  {
  }

  function PoolTrace(y: Sys, trace: seq<Event>): seq<P.Event>
    requires After(y, trace).Some?
    decreases |trace|
  {
    if trace == [] then []
    else
      var part := PoolPart(y, trace[0]);
      (if part.Some? then [part.value] else []) + PoolTrace(Do(y, trace[0]), trace[1..])
  }

  lemma {:induction false} PoolRuns(y: Sys, trace: seq<Event>)
    requires After(y, trace).Some?
    ensures P.After(y.pool, PoolTrace(y, trace)) == Some(After(y, trace).value.pool)
    decreases |trace|
  {
    if trace != [] {
      PoolPartDoes(y, trace[0]);
      PoolRuns(Do(y, trace[0]), trace[1..]);
      var part := PoolPart(y, trace[0]);
      var rest := PoolTrace(Do(y, trace[0]), trace[1..]);
      if part.Some? {
        assert PoolTrace(y, trace)[0] == part.value && PoolTrace(y, trace)[1..] == rest;
      } else {
        assert PoolTrace(y, trace) == rest;
      }
    }
  }

  /** So all that PoolSafety proves of pools holds of the pools behind wrappers. */
  lemma PoolReached(y: Sys, conn: nat, poolSize: int, maxIdle: int, trace: seq<Event>)
    requires Reached(y, conn, poolSize, maxIdle, trace)
    ensures exists poolTrace :: S.Reached(y.pool, conn, poolSize, maxIdle, poolTrace)
  {
    var start := NewSys(conn, poolSize, maxIdle);
    PoolRuns(start, trace);
    assert S.Reached(y.pool, conn, poolSize, maxIdle, PoolTrace(start, trace));
  }

  lemma SettledInv(y: Sys)
    requires Inv(y) && y.pool.s.p.closed && y.pool.s.threads == map[]
    requires forall lease :: lease in y.wrappers ==> y.wrappers[lease].log.ran != []
    ensures y.pool.s.p.leases == map[]
    ensures y.pool.s.p.open == {} && y.pool.s.p.queue == [] && y.pool.s.p.permits == 0 && y.pool.s.p.active == 0
  {
    forall lease | lease in y.wrappers ensures lease !in y.pool.s.p.leases {
      assert WrapperOk(y, lease);
    }
    assert y.pool.s.p.leases == map[];
    S.Quiet(y.pool);
  }

  /**
   No leak: once the pool is closed, every wrapper has ended, and no goroutine is inside the pool, every
   channel the pool ever opened is closed, and all permits and counts are back to zero.
   */
  lemma AllClosedInTheEnd(y: Sys, conn: nat, poolSize: int, maxIdle: int, trace: seq<Event>)
    requires Reached(y, conn, poolSize, maxIdle, trace)
    requires y.pool.s.p.closed && y.pool.s.threads == map[]
    requires forall lease :: lease in y.wrappers ==> y.wrappers[lease].log.ran != []
    ensures y.pool.s.p.open == {} && y.pool.s.p.queue == [] && y.pool.s.p.permits == 0 && y.pool.s.p.active == 0
  {
    ReachedInv(y, conn, poolSize, maxIdle, trace);
    SettledInv(y);
  }
}
