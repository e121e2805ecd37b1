/**
 Schedules of the pool that show what it does not promise: a permit that becomes free does not wake
 an Acquire that is already waiting, the `active` counter can pass the pool size for a moment, and a channel can be
 reused before its return is counted.
 */
module PoolSchedules {
  import opened Base
  import opened PoolProtocol
  import opened PoolSafety

  const FIRST := Ch(0, 0)

  /** A pool with room for one channel, after goroutine 1 has opened and leased it. */
  const LEASED := State(
    Pool(Config(0, 1, 1), [], false, false, 1, None, false, 1, Stats(1, 0, 1), {FIRST}, 1, false, map[0 := FIRST], 1),
    map[])

  lemma OpenFirst() returns (trace: seq<Event>)
    ensures var y := NewSys(0, 1, 1);
            && After(y, trace).Some?
            && After(y, trace).value.s
               == State(LEASED.p.(leases := map[], nextLease := 0, stats := Stats(0, 0, 0)),
                        map[1 := InOpen(CountAcquired(FIRST))])
  {
    var y, s := NewSys(0, 1, 1), NewSys(0, 1, 1).s;
    trace := [];
    trace, s := Walk(y, trace, s, Begin(1, Acquire));
    trace, s := Walk(y, trace, s, Run(1, Proceed));
    trace, s := Walk(y, trace, s, Run(1, Proceed));
    assert s.threads == map[1 := InAcquire(TryPermit)];
    trace, s := Walk(y, trace, s, Run(1, Proceed));
    trace, s := Walk(y, trace, s, Run(1, Proceed));
    trace, s := Walk(y, trace, s, Run(1, Proceed));
    assert s.threads == map[1 := InOpen(CountAcquired(FIRST))];
    assert s.p.open == {FIRST};
  }

  lemma LeaseOut() returns (trace: seq<Event>)
    ensures var y := NewSys(0, 1, 1); After(y, trace).Some? && After(y, trace).value.s == LEASED
  {
    var y := NewSys(0, 1, 1);
    trace := OpenFirst();
    var s := After(y, trace).value.s;
    trace, s := Walk(y, trace, s, Run(1, Proceed));
    trace, s := Walk(y, trace, s, Run(1, Proceed));
    trace, s := Walk(y, trace, s, Run(1, Proceed));
    assert s.threads == map[1 := InAcquire(Granted(FIRST))];
    trace, s := Walk(y, trace, s, Grant(1));
    assert s.threads == map[];
    assert s.p.leases == LEASED.p.leases;
  }

  /** Goroutine 2 runs into the full pool and blocks. */
  const BLOCKED := LEASED.(threads := map[2 := InAcquire(Wait)])

  lemma BlockSecond(y: Sys, before: seq<Event>) returns (trace: seq<Event>)
    requires After(y, before).Some? && After(y, before).value.s == LEASED
    ensures After(y, trace).Some? && After(y, trace).value.s == BLOCKED
  {
    var s := LEASED;
    trace, s := Walk(y, before, s, Begin(2, Acquire));
    trace, s := Walk(y, trace, s, Run(2, Proceed));
    trace, s := Walk(y, trace, s, Run(2, Proceed));
    trace, s := Walk(y, trace, s, Run(2, Proceed));
    assert s.threads == map[2 := InAcquire(Wait)];
  }

  /** The only lease is given back for discarding; its permit is free again. */
  lemma DiscardFirst(y: Sys, before: seq<Event>) returns (trace: seq<Event>)
    requires After(y, before).Some? && After(y, before).value.s == BLOCKED
    ensures After(y, trace).Some?
    ensures var n := After(y, trace).value.s;
            n.threads == BLOCKED.threads && n.p.permits == 0 && n.p.open == {} && n.p.leases == map[]
            && !n.p.closed && n.p.queue == [] && !n.p.queueClosed
  {
    var s := BLOCKED;
    trace, s := Walk(y, before, s, GiveBack(1, 0, true));
    trace, s := Walk(y, trace, s, Run(1, Proceed));
    assert s.p.open == {};
    trace, s := Walk(y, trace, s, Run(1, Proceed));
    trace, s := Walk(y, trace, s, Run(1, Proceed));
    trace, s := Walk(y, trace, s, Run(1, Proceed));
    assert s.threads == BLOCKED.threads;
  }

  /**
   A freed permit does not wake a waiting Acquire: a schedule reaches an open pool with every permit
   free, no lease out and no channel open, in which a goroutine waits in Acquire and nobody else is
   inside the pool; its own context is the only thing that can move it.
   */
  lemma FreedPermitDoesNotWake()
    ensures exists y, trace ::
              && Reached(y, 0, 1, 1, trace)
              && y.s.threads == map[2 := InAcquire(Wait)]
              && y.s.p.permits == 0 && y.s.p.leases == map[] && y.s.p.open == {} && !y.s.p.closed
              && (forall choice :: Can(y, Run(2, choice)) ==> choice.Cancel?)
  {
    var start := NewSys(0, 1, 1);
    var trace := LeaseOut();
    trace := BlockSecond(start, trace);
    trace := DiscardFirst(start, trace);
    assert Reached(After(start, trace).value, 0, 1, 1, trace);
  }

  /** `active` passes the pool size while a discarding goroutine has returned its token and not yet counted it. */
  lemma ActiveCanPassPoolSize()
    ensures exists y, trace :: Reached(y, 0, 1, 1, trace) && y.s.p.active == y.s.p.config.poolSize + 1
  {
    var start := NewSys(0, 1, 1);
    var trace := LeaseOut();
    var s := LEASED;
    trace, s := Walk(start, trace, s, GiveBack(1, 0, true));
    trace, s := Walk(start, trace, s, Run(1, Proceed));
    trace, s := Walk(start, trace, s, Run(1, Proceed));
    assert s.p.permits == 0 && s.p.active == 1;
    trace, s := Walk(start, trace, s, Begin(2, Acquire));
    trace, s := Walk(start, trace, s, Run(2, Proceed));
    trace, s := Walk(start, trace, s, Run(2, Proceed));
    trace, s := Walk(start, trace, s, Run(2, Proceed));
    assert s.threads[2] == InOpen(AddActive);
    trace, s := Walk(start, trace, s, Run(2, Proceed));
    assert Reached(After(start, trace).value, 0, 1, 1, trace);
  }

  /** Goroutine 1 gives its lease back: the channel is idle again, and the return not yet counted. */
  lemma SendUncounted(y: Sys, before: seq<Event>, p: Pool) returns (trace: seq<Event>)
    requires p == LEASED.p
    requires After(y, before).Some? && After(y, before).value.s == State(p, map[2 := InAcquire(Poll)])
    ensures After(y, trace).Some?
    ensures var n := After(y, trace).value.s;
            n.threads == map[1 := InRelease(CountReturned), 2 := InAcquire(Poll)]
            && n.p == p.(leases := map[], mu := Some(1), queue := [FIRST])
  {
    var s := State(p, map[2 := InAcquire(Poll)]);
    trace, s := Walk(y, before, s, GiveBack(1, 0, false));
    trace, s := Walk(y, trace, s, Run(1, Proceed));
    trace, s := Walk(y, trace, s, Run(1, Proceed));
    assert s.threads[1] == InRelease(CheckDead(FIRST));
    trace, s := Walk(y, trace, s, Run(1, Proceed));
    trace, s := Walk(y, trace, s, Run(1, Proceed));
    assert s.p.leases == map[];
  }

  /** A channel is reused before its return is counted: two acquisitions, one creation, and no return. */
  lemma ReusedBeforeCounted()
    ensures exists y, trace :: Reached(y, 0, 1, 1, trace) && y.s.p.stats == Stats(2, 0, 1)
  {
    var start := NewSys(0, 1, 1);
    var trace := LeaseOut();
    var s := LEASED;
    trace, s := Walk(start, trace, s, Begin(2, Acquire));
    trace, s := Walk(start, trace, s, Run(2, Proceed));
    assert s.threads == map[2 := InAcquire(Poll)];
    trace := SendUncounted(start, trace, s.p);
    s := After(start, trace).value.s;
    trace, s := Walk(start, trace, s, Run(2, Proceed));
    trace, s := Walk(start, trace, s, Run(2, Proceed));
    assert s.threads[2] == InAcquire(CountReuse(FIRST));
    trace, s := Walk(start, trace, s, Run(2, Proceed));
    assert Reached(After(start, trace).value, 0, 1, 1, trace);
  }
}
