/**
 That a wrapper's Close really gives its channel back: the composition of pool and wrappers reaches the
 state in which a clean channel is idle again, and one used statefully is closed.
 */
module PooledRuns {
  import opened Base
  import P = PoolProtocol
  import V = PoolInvariant
  import S = PoolSafety
  import W = WrapperProtocol
  import K = ChannelPool
  import Q = PoolSequential
  import opened PooledChannel

  /** The goroutine is inside a callback. */
  predicate GivingBack(pc: P.PC) {
    pc.InRelease? || (pc.InPermit? && (pc.permit.next.Unlock? || pc.permit.next.Discarded?))
  }

  lemma StillGivingBack(p: P.Pool, t: Tid, pc: P.PC, choice: P.Choice)
    requires P.CanRun(p, pc, choice) && GivingBack(pc)
    ensures P.RunStep(p, t, pc, choice).1.Some? ==> GivingBack(P.RunStep(p, t, pc, choice).1.value)
  {
    match pc
    case InRelease(at) => assert P.ReleaseStep(p, t, at).1.Some? ==> GivingBack(P.ReleaseStep(p, t, at).1.value);
    case InPermit(at) => assert P.PermitStep(p, at).1.Some? ==> GivingBack(P.PermitStep(p, at).1.value);
  }

  /** Steps of a goroutine inside a callback, taken with the wrappers looking on. */
  lemma {:induction false} CallbackInside(y: Sys, trace: seq<P.Event>, t: Tid) returns (more: seq<Event>)
    requires P.After(y.pool, trace).Some? && forall j :: 0 <= j < |trace| ==> Q.Own(trace[j], t)
    requires t in y.pool.s.threads ==> GivingBack(y.pool.s.threads[t])
    ensures After(y, more) == Some(y.(pool := P.After(y.pool, trace).value))
    decreases |trace|
  {
    if trace == [] {
      more := [];
    } else {
      var e := trace[0];
      StillGivingBack(y.pool.s.p, t, y.pool.s.threads[t], e.choice);
      var rest := CallbackInside(Do(y, InPool(e)), trace[1..], t);
      more := [InPool(e)] + rest;
      assert more[1..] == rest;
    }
  }

  /** The steps of a callback, after the giving back, on a pool with nobody inside. */
  lemma CallbackSteps(y: P.Sys, lease: P.Lease, discard: bool, t: Tid) returns (trace: seq<P.Event>)
    requires S.Inv(y) && y.s.threads == map[] && lease in y.s.p.leases
    ensures P.After(P.Do(y, P.GiveBack(t, lease, discard)), trace).Some?
    ensures P.After(P.Do(y, P.GiveBack(t, lease, discard)), trace).value.s
         == P.State(if discard then K.Discarded(y.s.p, lease) else K.Released(y.s.p, lease), map[])
    ensures forall j :: 0 <= j < |trace| ==> Q.Own(trace[j], t)
  {
    Q.RestsAlone(y);
    var n := if discard then K.Discarded(y.s.p, lease) else K.Released(y.s.p, lease);
    if discard {
      Q.DiscardIsSchedule(y.s.p, lease, t);
    } else {
      Q.ReleaseIsSchedule(y.s.p, lease, t);
    }
    var origin := Q.Origin(y.s.p, P.GiveBack(t, lease, discard));
    var call :| Q.CallTrace(origin, call, n, t, None, false);
    Q.LogIsHistory(Q.Bare(origin), y, call);
    trace := call[1..];
    forall j | 0 <= j < |trace| ensures Q.Own(trace[j], t) {
      assert Q.Own(call[j + 1], t);
    }
  }

  /** A Close of a wrapper whose operations are over can end, by the callback its use calls for. */
  lemma CloseEnds(y: Sys, conn: nat, poolSize: int, maxIdle: int, trace: seq<Event>, lease: P.Lease, t: Tid)
    requires Reached(y, conn, poolSize, maxIdle, trace)
    requires lease in y.wrappers && t in y.wrappers[lease].closers && y.wrappers[lease].ops == map[]
    requires t !in y.pool.s.threads
    ensures Can(y, End(lease, t)) && lease in y.pool.s.p.leases
    ensures Callback(y, lease, t) == P.GiveBack(t, lease, y.wrappers[lease].log.tainted)
    ensures Do(y, End(lease, t)).wrappers[lease].log.ran
         == [if y.wrappers[lease].log.tainted then W.Discarded else W.Released]
  {
    ReachedInv(y, conn, poolSize, maxIdle, trace);
    CloserEnds(y, lease, t);
  }

  lemma CloserEnds(y: Sys, lease: P.Lease, t: Tid)
    requires Linked(y) && lease in y.wrappers && t in y.wrappers[lease].closers && y.wrappers[lease].ops == map[]
    requires t !in y.pool.s.threads
    ensures Can(y, End(lease, t)) && lease in y.pool.s.p.leases
    ensures Callback(y, lease, t) == P.GiveBack(t, lease, y.wrappers[lease].log.tainted)
    ensures Do(y, End(lease, t)).wrappers[lease].log.ran
         == [if y.wrappers[lease].log.tainted then W.Discarded else W.Released]
  {
    assert WrapperOk(y, lease);
    CloserFinishes(y.wrappers[lease], t);
  }

  lemma CloserFinishes(w: W.Sys, t: Tid)
    requires W.Inv(w) && t in w.closers && w.ops == map[] && w.release && w.discard
    ensures W.Enabled(w, W.Finish(t)) && w.log.ran == []
    ensures (W.Settle(w.closers[t]).Discarded? <==> w.log.tainted)
    ensures W.Apply(w, W.Finish(t)).log.ran == [if w.log.tainted then W.Discarded else W.Released]
  {
    assert W.IsShut(w);
  }

  lemma Prepended(y: Sys, e: Event, rest: seq<Event>)
    requires Can(y, e)
    ensures After(y, [e] + rest) == After(Do(y, e), rest)
  {
    assert ([e] + rest)[1..] == rest;
  }

  /** The run of a Close about to end: its ending, then the callback's steps. */
  lemma CloseRun(y: Sys, conn: nat, poolSize: int, maxIdle: int, trace: seq<Event>, lease: P.Lease, t: Tid)
    returns (more: seq<Event>)
    requires Reached(y, conn, poolSize, maxIdle, trace) && y.pool.s.threads == map[]
    requires lease in y.wrappers && t in y.wrappers[lease].closers && y.wrappers[lease].ops == map[]
    ensures lease in y.pool.s.p.leases && After(y, more).Some?
    ensures After(y, more).value.pool.s
         == P.State(if y.wrappers[lease].log.tainted then K.Discarded(y.pool.s.p, lease)
                    else K.Released(y.pool.s.p, lease), map[])
  {
    ReachedInv(y, conn, poolSize, maxIdle, trace);
    CloseEnds(y, conn, poolSize, maxIdle, trace, lease, t);
    var steps := CallbackSteps(y.pool, lease, y.wrappers[lease].log.tainted, t);
    var inside := CallbackInside(Do(y, End(lease, t)), steps, t);
    Prepended(y, End(lease, t), inside);
    more := [End(lease, t)] + inside;
  }

  /**
   Reuse and discard, for every reached state with nobody inside the pool and a Close about to end: the run
   of that Close makes a clean live channel the last idle one of an open pool with room, still open; it
   closes a channel that was used statefully. The lease is over, and the other leases are as they were.
   */
  lemma CloseGivesBack(y: Sys, conn: nat, poolSize: int, maxIdle: int, trace: seq<Event>, lease: P.Lease, t: Tid)
    returns (more: seq<Event>)
    requires Reached(y, conn, poolSize, maxIdle, trace) && y.pool.s.threads == map[]
    requires lease in y.wrappers && t in y.wrappers[lease].closers && y.wrappers[lease].ops == map[]
    ensures After(y, more).Some?
    ensures var n := After(y, more).value.pool.s; var p := y.pool.s.p; var w := y.wrappers[lease];
            && n.threads == map[] && n.p.leases == p.leases - {lease}
            && (!w.log.tainted && !p.closed && w.ch in p.open && |p.queue| < p.config.maxIdle ==>
                  n.p.queue == p.queue + [w.ch] && n.p.open == p.open)
            && (w.log.tainted ==> n.p.queue == p.queue && n.p.open == p.open - {w.ch})
  {
    more := CloseRun(y, conn, poolSize, maxIdle, trace, lease, t);
    ReachedInv(y, conn, poolSize, maxIdle, trace);
    assert WrapperOk(y, lease);
    Q.RestsAlone(y.pool);
    K.ReleaseMeans(y.pool.s.p, lease);
  }
}
