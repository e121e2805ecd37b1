/**
 Every call of a method of the sequential pool is a schedule of the step machine that begins and ends
 with nobody else inside the pool. So all that PoolSafety says of schedules holds of such calls.
 */
module PoolSequential {
  import opened Base
  import P = PoolProtocol
  import S = PoolSafety
  import V = PoolInvariant
  import opened ChannelPool

  function Only(t: Tid, at: Option<P.PC>): map<Tid, P.PC> {
    if at.Some? then map[t := at.value] else map[]
  }

  /** The pool a call finds, with nobody inside, and the step the call begins with. */
  datatype Origin = Origin(p: P.Pool, first: P.Event)

  function Bare(y: Origin): P.Sys {
    P.Sys(P.State(y.p, map[]), P.EMPTY_LOG)
  }

  /** A step of goroutine `t` itself, and not one its context takes it out by. No channel dies meanwhile. */
  predicate Own(e: P.Event, t: Tid) {
    (e.Run? && e.t == t && !e.choice.Cancel?) || (e.Grant? && e.t == t)
  }

  ghost predicate Leads(y: Origin, trace: seq<P.Event>, p: P.Pool, t: Tid, at: Option<P.PC>) {
    && trace != [] && trace[0] == y.first && (forall i :: 1 <= i < |trace| ==> Own(trace[i], t))
    && P.After(Bare(y), trace).Some? && P.After(Bare(y), trace).value.s == P.State(p, Only(t, at))
  }

  /** One action of goroutine `t`, alone in the pool. */
  lemma Act(y: Origin, trace: seq<P.Event>, p: P.Pool, t: Tid, at: P.PC, choice: P.Choice)
    returns (longer: seq<P.Event>)
    requires Leads(y, trace, p, t, Some(at)) && P.CanRun(p, at, choice) && !choice.Cancel?
    ensures Leads(y, longer, P.RunStep(p, t, at, choice).0, t, P.RunStep(p, t, at, choice).1)
  {
    longer := Stepped(y, trace, p, t, at, choice);
  }

  lemma Stepped(y: Origin, trace: seq<P.Event>, p: P.Pool, t: Tid, at: P.PC, choice: P.Choice)
    returns (longer: seq<P.Event>)
    requires Leads(y, trace, p, t, Some(at)) && P.CanRun(p, at, choice)
    ensures longer == trace + [P.Run(t, choice)] && P.After(Bare(y), longer).Some?
    ensures P.After(Bare(y), longer).value.s
         == P.State(P.RunStep(p, t, at, choice).0, Only(t, P.RunStep(p, t, at, choice).1))
  {
    var s := P.State(p, Only(t, Some(at)));
    var n: P.State;
    longer, n := P.Walk(Bare(y), trace, s, P.Run(t, choice));
    assert s.threads - {t} == map[];
    assert forall pc :: s.threads[t := pc] == map[t := pc];
  }

  /** A call of releasePermit is a schedule of its actions. */
  lemma PermitPath(y: Origin, start: seq<P.Event>, p: P.Pool, t: Tid, site: P.Next) returns (trace: seq<P.Event>)
    requires Leads(y, start, p, t, Some(P.InPermit(P.TakeToken(site))))
    ensures Leads(y, trace, PermitReleased(p), t, P.Resume(site))
  {
    trace := Act(y, start, p, t, P.InPermit(P.TakeToken(site)), P.Proceed);
    var q := p.(permits := if p.permits > 0 then p.permits - 1 else 0);
    trace := CountPath(y, trace, q, t, site);
  }

  lemma CountPath(y: Origin, start: seq<P.Event>, p: P.Pool, t: Tid, site: P.Next) returns (trace: seq<P.Event>)
    requires Leads(y, start, p, t, Some(P.InPermit(P.LoadActive(site))))
    ensures Leads(y, trace, if p.active > 0 then p.(active := p.active - 1) else p, t, P.Resume(site))
  {
    trace := Act(y, start, p, t, P.InPermit(P.LoadActive(site)), P.Proceed);
    if p.active > 0 {
      trace := Act(y, trace, p, t, P.InPermit(P.SwapActive(site, p.active)), P.Proceed);
    }
  }

  /** The first step of a call. */
  lemma Enter(y: Origin, t: Tid) returns (trace: seq<P.Event>)
    requires P.Enabled(Bare(y).s, y.first) && !y.first.Die? && !y.first.Run? && !y.first.Grant? && y.first.t == t
    ensures var n := P.Apply(Bare(y).s, y.first);
            t in n.threads && Leads(y, trace, n.p, t, Some(n.threads[t]))
  {
    var n: P.State;
    trace, n := P.Walk(Bare(y), [], Bare(y).s, y.first);
  }

  lemma Grant(y: Origin, start: seq<P.Event>, p: P.Pool, t: Tid, ch: Ch) returns (trace: seq<P.Event>)
    requires Leads(y, start, p, t, Some(P.InAcquire(P.Granted(ch))))
    ensures Leads(y, trace, p.(leases := p.leases[p.nextLease := ch], nextLease := p.nextLease + 1), t, None)
  {
    var s := P.State(p, map[t := P.InAcquire(P.Granted(ch))]);
    var n: P.State;
    trace, n := P.Walk(Bare(y), start, s, P.Grant(t));
    assert s.threads - {t} == map[];
  }

  /**
   The call that begins with `first` is a schedule of goroutine `t` alone, from nobody inside at `p` to `t`
   at `at`, or nobody, at `n`: its own steps, leaving by its context only if that is done, and nothing else.
   */
  ghost predicate IsCall(p: P.Pool, first: P.Event, n: P.Pool, t: Tid, at: Option<P.PC>, done: bool) {
    exists trace :: CallTrace(Origin(p, first), trace, n, t, at, done)
  }

  ghost predicate CallTrace(y: Origin, trace: seq<P.Event>, p: P.Pool, t: Tid, at: Option<P.PC>, done: bool) {
    && trace != [] && trace[0] == y.first
    && (forall i :: 1 <= i < |trace| ==> Own(trace[i], t) || (done && trace[i] == P.Run(t, P.Cancel)))
    && P.After(Bare(y), trace).Some? && P.After(Bare(y), trace).value.s == P.State(p, Only(t, at))
  }

  // ---- The callbacks ----

  lemma ReleaseIsSchedule(p: P.Pool, lease: P.Lease, t: Tid)
    requires AtRest(p) && p.mu.None? && lease in p.leases
    ensures IsCall(p, P.GiveBack(t, lease, false), Released(p, lease), t, None, false)
  {
    var y := Origin(p, P.GiveBack(t, lease, false));
    var ch := p.leases[lease];
    var q := p.(leases := p.leases - {lease});
    var trace := Enter(y, t);
    trace := Act(y, trace, q, t, P.InRelease(P.LockRelease(ch)), P.Proceed);
    var m := q.(mu := Some(t));
    trace := Act(y, trace, m, t, P.InRelease(P.CheckClosed(ch)), P.Proceed);
    if p.closed {
      trace := CloseReturnedPath(y, trace, m, t, ch);
    } else {
      trace := OpenPoolPath(y, trace, m, t, ch);
    }
    assert CallTrace(y, trace, Released(p, lease), t, None, false);
  }

  /** release under the lock of an open pool: a dead channel, a send, or a full queue. */
  lemma OpenPoolPath(y: Origin, start: seq<P.Event>, m: P.Pool, t: Tid, ch: Ch) returns (trace: seq<P.Event>)
    requires Leads(y, start, m, t, Some(P.InRelease(P.CheckDead(ch)))) && !m.detached && !m.queueClosed
    ensures Leads(y, trace,
              if ch !in m.open then PermitReleased(m).(mu := None)
              else if |m.queue| < m.config.maxIdle
              then m.(queue := m.queue + [ch], stats := m.stats.(returned := m.stats.returned + 1), mu := None)
              else PermitReleased(m.(open := m.open - {ch}, mu := None)), t, None)
  {
    trace := Act(y, start, m, t, P.InRelease(P.CheckDead(ch)), P.Proceed);
    if ch !in m.open {
      trace := PermitPath(y, trace, m, t, P.Unlock);
      trace := UnlockPath(y, trace, PermitReleased(m), t);
    } else {
      trace := Act(y, trace, m, t, P.InRelease(P.SendIdle(ch)), P.Proceed);
      if |m.queue| < m.config.maxIdle {
        var sent := m.(queue := m.queue + [ch]);
        trace := Act(y, trace, sent, t, P.InRelease(P.CountReturned), P.Proceed);
        trace := UnlockPath(y, trace, sent.(stats := sent.stats.(returned := sent.stats.returned + 1)), t);
      } else {
        trace := CloseReturnedPath(y, trace, m, t, ch);
      }
    }
  }

  lemma UnlockPath(y: Origin, start: seq<P.Event>, p: P.Pool, t: Tid) returns (trace: seq<P.Event>)
    requires Leads(y, start, p, t, Some(P.InRelease(P.UnlockRelease)))
    ensures Leads(y, trace, p.(mu := None), t, None)
  {
    trace := Act(y, start, p, t, P.InRelease(P.UnlockRelease), P.Proceed);
  }

  lemma CloseReturnedPath(y: Origin, start: seq<P.Event>, p: P.Pool, t: Tid, ch: Ch) returns (trace: seq<P.Event>)
    requires Leads(y, start, p, t, Some(P.InRelease(P.CloseReturned(ch))))
    ensures Leads(y, trace, PermitReleased(p.(open := p.open - {ch}, mu := None)), t, None)
  {
    trace := Act(y, start, p, t, P.InRelease(P.CloseReturned(ch)), P.Proceed);
    trace := PermitPath(y, trace, p.(open := p.open - {ch}), t, P.Unlock);
    trace := UnlockPath(y, trace, PermitReleased(p.(open := p.open - {ch})), t);
  }

  lemma DiscardIsSchedule(p: P.Pool, lease: P.Lease, t: Tid)
    requires lease in p.leases
    ensures IsCall(p, P.GiveBack(t, lease, true), Discarded(p, lease), t, None, false)
  {
    var y := Origin(p, P.GiveBack(t, lease, true));
    var ch := p.leases[lease];
    var q := p.(leases := p.leases - {lease});
    var trace := Enter(y, t);
    trace := Act(y, trace, q, t, P.InRelease(P.CloseDiscarded(ch)), P.Proceed);
    trace := PermitPath(y, trace, q.(open := q.open - {ch}), t, P.Discarded);
    assert CallTrace(y, trace, Discarded(p, lease), t, None, false);
  }

  // ---- Close ----

  function Drained(p: P.Pool): P.Pool
    requires |p.queue| <= p.permits
  {
    WithoutIdle(p, |p.queue|).(open := p.open - set c | c in p.queue)
  }

  /** Draining one channel and then the rest is draining them all. */
  lemma DrainedOne(p: P.Pool)
    requires p.queue != [] && |p.queue| <= p.permits && |p.queue| <= p.active
    ensures Drained(PermitReleased(p.(queue := p.queue[1..], open := p.open - {p.queue[0]}))) == Drained(p)
  {
    var ch, rest := p.queue[0], p.queue[1..];
    assert p.open - {ch} - (set c | c in rest) == p.open - (set c | c in p.queue) by {
      assert p.queue == [ch] + rest;
    }
  }

  lemma {:induction false} DrainPath(y: Origin, start: seq<P.Event>, p: P.Pool, t: Tid) returns (trace: seq<P.Event>)
    requires Leads(y, start, p, t, Some(P.InClose(P.DrainQueue)))
    requires p.queueClosed && |p.queue| <= p.permits && |p.queue| <= p.active
    ensures Leads(y, trace, Drained(p), t, None)
    decreases |p.queue|
  {
    trace := Act(y, start, p, t, P.InClose(P.DrainQueue), P.Proceed);
    if p.queue == [] {
      assert p.open - (set c | c in p.queue) == p.open;
      assert Drained(p) == p;
    } else {
      trace := DrainOnePath(y, trace, p, t);
      DrainedOne(p);
      trace := DrainPath(y, trace, PermitReleased(p.(queue := p.queue[1..], open := p.open - {p.queue[0]})), t);
    }
  }

  /** A received channel closed, and its permit freed. */
  lemma DrainOnePath(y: Origin, start: seq<P.Event>, p: P.Pool, t: Tid) returns (trace: seq<P.Event>)
    requires p.queue != []
    requires Leads(y, start, p.(queue := p.queue[1..]), t, Some(P.InClose(P.CloseDrained(p.queue[0]))))
    ensures Leads(y, trace, PermitReleased(p.(queue := p.queue[1..], open := p.open - {p.queue[0]})), t,
                  Some(P.InClose(P.DrainQueue)))
  {
    var ch, q := p.queue[0], p.(queue := p.queue[1..]);
    trace := Act(y, start, q, t, P.InClose(P.CloseDrained(ch)), P.Proceed);
    trace := PermitPath(y, trace, q.(open := p.open - {ch}), t, P.Drain);
  }

  /** From the write lock to the drain loop of the one Close that finds the pool open. */
  lemma ShutPath(y: Origin, start: seq<P.Event>, p: P.Pool, t: Tid) returns (trace: seq<P.Event>)
    requires Leads(y, start, p, t, Some(P.InClose(P.SetClosed))) && !p.closed
    ensures Leads(y, trace, p.(closed := true, queueClosed := true, detached := true, mu := None,
                               panicked := p.panicked || p.queueClosed), t, Some(P.InClose(P.DrainQueue)))
  {
    trace := Act(y, start, p, t, P.InClose(P.SetClosed), P.Proceed);
    var m := p.(closed := true);
    trace := Act(y, trace, m, t, P.InClose(P.CloseQueue), P.Proceed);
    m := m.(queueClosed := true, panicked := p.panicked || p.queueClosed);
    trace := Act(y, trace, m, t, P.InClose(P.DetachQueue), P.Proceed);
    m := m.(detached := true);
    trace := Act(y, trace, m, t, P.InClose(P.UnlockClose), P.Proceed);
  }

  lemma CloseIsSchedule(p: P.Pool, t: Tid)
    requires AtRest(p) && p.mu.None?
    ensures IsCall(p, P.Begin(t, P.Close), Closed(p), t, None, false)
  {
    var y := Origin(p, P.Begin(t, P.Close));
    var trace := Enter(y, t);
    trace := Act(y, trace, p, t, P.InClose(P.LockClose), P.Proceed);
    var m := p.(mu := Some(t));
    if p.closed {
      trace := Act(y, trace, m, t, P.InClose(P.SetClosed), P.Proceed);
      trace := Act(y, trace, m, t, P.InClose(P.UnlockClosedTwice), P.Proceed);
    } else {
      trace := ShutPath(y, trace, m, t);
      m := p.(closed := true, queueClosed := true, detached := true);
      trace := DrainPath(y, trace, m, t);
    }
    assert CallTrace(y, trace, Closed(p), t, None, false);
  }

  // ---- Acquire ----

  /** One dead idle channel received and dropped: back at the head of the loop. */
  lemma DropDeadPath(y: Origin, start: seq<P.Event>, p: P.Pool, t: Tid) returns (trace: seq<P.Event>)
    requires Leads(y, start, p, t, Some(P.InAcquire(P.Snapshot)))
    requires p.mu.None? && !p.closed && p.queue != [] && p.queue[0] !in p.open && p.permits > 0 && p.active > 0
    ensures Leads(y, trace, WithoutIdle(p, 1), t, Some(P.InAcquire(P.Snapshot)))
  {
    trace := ReceivePath(y, start, p, t);
    var q := p.(queue := p.queue[1..]);
    trace := Act(y, trace, q, t, P.InAcquire(P.Inspect(p.queue[0])), P.Proceed);
    trace := PermitPath(y, trace, q, t, P.Retry);
  }

  lemma ReceivePath(y: Origin, start: seq<P.Event>, p: P.Pool, t: Tid) returns (trace: seq<P.Event>)
    requires Leads(y, start, p, t, Some(P.InAcquire(P.Snapshot)))
    requires p.mu.None? && !p.closed && p.queue != []
    ensures Leads(y, trace, p.(queue := p.queue[1..]), t, Some(P.InAcquire(P.Inspect(p.queue[0]))))
  {
    trace := Act(y, start, p, t, P.InAcquire(P.Snapshot), P.Proceed);
    trace := Act(y, trace, p, t, P.InAcquire(P.Poll), P.Proceed);
  }

  lemma {:induction false} DropPath(y: Origin, start: seq<P.Event>, p: P.Pool, t: Tid, k: nat)
    returns (trace: seq<P.Event>)
    requires Leads(y, start, p, t, Some(P.InAcquire(P.Snapshot)))
    requires p.mu.None? && (k > 0 ==> !p.closed) && k <= DeadPrefix(p.queue, p.open)
    requires k <= p.permits && k <= p.active
    ensures Leads(y, trace, WithoutIdle(p, k), t, Some(P.InAcquire(P.Snapshot)))
    decreases k
  {
    if k == 0 {
      trace := start;
      assert WithoutIdle(p, 0) == p;
    } else {
      trace := DropDeadPath(y, start, p, t);
      var q := WithoutIdle(p, 1);
      assert DeadPrefix(p.queue, p.open) == 1 + DeadPrefix(p.queue[1..], p.open);
      trace := DropPath(y, trace, q, t, k - 1);
      assert q.queue[k - 1..] == p.queue[k..];
      assert WithoutIdle(q, k - 1) == WithoutIdle(p, k);
    }
  }

  lemma ReusePath(y: Origin, start: seq<P.Event>, p: P.Pool, t: Tid) returns (trace: seq<P.Event>)
    requires Leads(y, start, p, t, Some(P.InAcquire(P.Snapshot)))
    requires p.mu.None? && !p.closed && p.queue != [] && p.queue[0] in p.open
    ensures Leads(y, trace, LeasedOut(p.(queue := p.queue[1..]), p.queue[0]), t, None)
  {
    var ch, q := p.queue[0], p.(queue := p.queue[1..]);
    trace := ReceivePath(y, start, p, t);
    trace := Act(y, trace, q, t, P.InAcquire(P.Inspect(ch)), P.Proceed);
    trace := Act(y, trace, q, t, P.InAcquire(P.CountReuse(ch)), P.Proceed);
    trace := Grant(y, trace, q.(stats := q.stats.(acquired := q.stats.acquired + 1)), t, ch);
  }

  /** With nothing idle: to the try for a permit. */
  lemma EmptyPath(y: Origin, start: seq<P.Event>, p: P.Pool, t: Tid) returns (trace: seq<P.Event>)
    requires Leads(y, start, p, t, Some(P.InAcquire(P.Snapshot)))
    requires p.mu.None? && !p.closed && p.queue == [] && !p.queueClosed
    ensures Leads(y, trace, p, t, Some(P.InAcquire(P.TryPermit)))
  {
    trace := Act(y, start, p, t, P.InAcquire(P.Snapshot), P.Proceed);
    trace := Act(y, trace, p, t, P.InAcquire(P.Poll), P.Proceed);
  }

  lemma PermittedPath(y: Origin, start: seq<P.Event>, p: P.Pool, t: Tid) returns (trace: seq<P.Event>)
    requires Leads(y, start, p, t, Some(P.InAcquire(P.Snapshot)))
    requires p.mu.None? && !p.closed && p.queue == [] && !p.queueClosed && p.permits < p.config.poolSize
    ensures Leads(y, trace, p.(permits := p.permits + 1, active := p.active + 1), t, Some(P.InOpen(P.OpenChannel)))
  {
    trace := EmptyPath(y, start, p, t);
    trace := Act(y, trace, p, t, P.InAcquire(P.TryPermit), P.Proceed);
    trace := Act(y, trace, p.(permits := p.permits + 1), t, P.InOpen(P.AddActive), P.Proceed);
  }

  /** A channel opened under a permit, up to the channel options. */
  lemma OpenedPath(y: Origin, start: seq<P.Event>, p: P.Pool, t: Tid) returns (trace: seq<P.Event>)
    requires Leads(y, start, p, t, Some(P.InOpen(P.OpenChannel)))
    ensures var ch := Ch(p.config.conn, p.next);
            var q := p.(open := p.open + {ch}, next := p.next + 1,
                        stats := p.stats.(acquired := p.stats.acquired + 1, created := p.stats.created + 1));
            Leads(y, trace, q, t, Some(P.InOpen(P.RunOptions(ch))))
  {
    var ch := Ch(p.config.conn, p.next);
    trace := Act(y, start, p, t, P.InOpen(P.OpenChannel), P.Proceed);
    var q := p.(open := p.open + {ch}, next := p.next + 1);
    trace := Act(y, trace, q, t, P.InOpen(P.CountAcquired(ch)), P.Proceed);
    q := q.(stats := q.stats.(acquired := q.stats.acquired + 1));
    trace := Act(y, trace, q, t, P.InOpen(P.CountCreated(ch)), P.Proceed);
  }

  lemma NewLeasePath(y: Origin, start: seq<P.Event>, p: P.Pool, t: Tid) returns (trace: seq<P.Event>)
    requires Leads(y, start, p, t, Some(P.InAcquire(P.Snapshot)))
    requires p.mu.None? && !p.closed && p.queue == [] && !p.queueClosed && p.permits < p.config.poolSize
    ensures Leads(y, trace, LeasedOut(WithNew(p), Ch(p.config.conn, p.next)), t, None)
  {
    var ch := Ch(p.config.conn, p.next);
    trace := PermittedPath(y, start, p, t);
    var q := p.(permits := p.permits + 1, active := p.active + 1);
    trace := OpenedPath(y, trace, q, t);
    q := WithNew(p).(stats := p.stats.(acquired := p.stats.acquired + 1, created := p.stats.created + 1));
    trace := Act(y, trace, q, t, P.InOpen(P.RunOptions(ch)), P.Proceed);
    trace := Grant(y, trace, q, t, ch);
  }

  lemma RefusedPath(y: Origin, start: seq<P.Event>, p: P.Pool, t: Tid) returns (trace: seq<P.Event>)
    requires Leads(y, start, p, t, Some(P.InAcquire(P.Snapshot)))
    requires p.mu.None? && !p.closed && p.queue == [] && !p.queueClosed && p.permits < p.config.poolSize
    requires p.active >= 0 && forall c :: c in p.open ==> c.serial < p.next
    ensures Leads(y, trace, WithRefused(p), t, None)
  {
    var ch := Ch(p.config.conn, p.next);
    trace := PermittedPath(y, start, p, t);
    trace := OpenedPath(y, trace, p.(permits := p.permits + 1, active := p.active + 1), t);
    var q := WithNew(p).(stats := p.stats.(acquired := p.stats.acquired + 1, created := p.stats.created + 1));
    trace := RefusalPath(y, trace, q, t, ch);
    assert q.open - {ch} == p.open;
  }

  /** A channel the options refuse is closed, and its permit freed. */
  lemma RefusalPath(y: Origin, start: seq<P.Event>, q: P.Pool, t: Tid, ch: Ch) returns (trace: seq<P.Event>)
    requires Leads(y, start, q, t, Some(P.InOpen(P.RunOptions(ch))))
    ensures Leads(y, trace, PermitReleased(q.(open := q.open - {ch})), t, None)
  {
    trace := Act(y, start, q, t, P.InOpen(P.RunOptions(ch)), P.Fail);
    trace := Act(y, trace, q, t, P.InOpen(P.CloseRefused(ch)), P.Proceed);
    trace := PermitPath(y, trace, q.(open := q.open - {ch}), t, P.Failed);
  }

  lemma OpenFailedPath(y: Origin, start: seq<P.Event>, p: P.Pool, t: Tid) returns (trace: seq<P.Event>)
    requires Leads(y, start, p, t, Some(P.InAcquire(P.Snapshot)))
    requires p.mu.None? && !p.closed && p.queue == [] && !p.queueClosed && p.permits < p.config.poolSize
    requires p.active >= 0
    ensures Leads(y, trace, p, t, None)
  {
    trace := PermittedPath(y, start, p, t);
    var q := p.(permits := p.permits + 1, active := p.active + 1);
    trace := Act(y, trace, q, t, P.InOpen(P.OpenChannel), P.Fail);
    trace := PermitPath(y, trace, q, t, P.Failed);
  }

  /** What is behind the dead front of the queue. */
  lemma BehindFront(p: P.Pool)
    requires AtRest(p)
    ensures var dead, q := DeadPrefix(p.queue, p.open), WithoutIdle(p, DeadPrefix(p.queue, p.open)).queue;
            if dead < |p.queue| then q != [] && q[0] == p.queue[dead] && q[0] in p.open && q[1..] == p.queue[dead + 1..]
            else q == []
  {
  }

  /** With the dead front dropped: the first live idle channel reused, or a new one opened. */
  lemma LeasePath(y: Origin, start: seq<P.Event>, p: P.Pool, t: Tid, ch: Ch, n: P.Pool) returns (trace: seq<P.Event>)
    requires AtRest(p) && p.mu.None? && Acquires(p, World(false, true, false), Leased(ch), n)
    requires Leads(y, start, WithoutIdle(p, DeadPrefix(p.queue, p.open)), t, Some(P.InAcquire(P.Snapshot)))
    ensures Leads(y, trace, n, t, None)
  {
    var dead := DeadPrefix(p.queue, p.open);
    var q := WithoutIdle(p, dead);
    BehindFront(p);
    if dead < |p.queue| {
      trace := ReusePath(y, start, q, t);
      assert n == LeasedOut(q.(queue := q.queue[1..]), q.queue[0]);
    } else {
      trace := NewLeasePath(y, start, q, t);
      assert n == LeasedOut(WithNew(q), Ch(q.config.conn, q.next));
    }
  }

  /** Back at the head of the loop with a done context: the poll takes the context. */
  lemma CancelPath(y: Origin, start: seq<P.Event>, p: P.Pool, t: Tid)
    requires Leads(y, start, p, t, Some(P.InAcquire(P.Snapshot))) && p.mu.None? && !p.closed
    ensures exists trace :: CallTrace(y, trace, p, t, None, true)
  {
    var trace := Act(y, start, p, t, P.InAcquire(P.Snapshot), P.Proceed);
    trace := Stepped(y, trace, p, t, P.InAcquire(P.Poll), P.Cancel);
    assert CallTrace(y, trace, p, t, None, true);
  }

  /** Every outcome of Acquire is a schedule; a call that blocks is one that has reached the blocking select. */
  lemma AcquireIsSchedule(p: P.Pool, w: World, r: Outcome, n: P.Pool, t: Tid)
    requires AtRest(p) && p.mu.None? && Acquires(p, w, r, n)
    ensures IsCall(p, P.Begin(t, P.Acquire), n, t, if r.Blocked? then Some(P.InAcquire(P.Wait)) else None, w.done)
  {
    var y := Origin(p, P.Begin(t, P.Acquire));
    var trace := Enter(y, t);
    var dead := DeadPrefix(p.queue, p.open);
    var k := if r.PoolClosed? then 0
             else if r.Cancelled? then var k :| 0 <= k <= dead && n == WithoutIdle(p, k); k
             else dead;
    var q := WithoutIdle(p, k);
    assert p.closed ==> q == p;
    trace := DropPath(y, trace, p, t, k);
    match r
    case PoolClosed =>
      trace := Act(y, trace, q, t, P.InAcquire(P.Snapshot), P.Proceed);
      assert CallTrace(y, trace, n, t, None, w.done);
    case Cancelled => CancelPath(y, trace, q, t);
    case Leased(ch) =>
      trace := LeasePath(y, trace, p, t, ch, n);
      assert CallTrace(y, trace, n, t, None, w.done);
    case OpenFailed =>
      trace := OpenFailedPath(y, trace, q, t);
      assert CallTrace(y, trace, n, t, None, w.done);
    case OptionsFailed =>
      trace := RefusedPath(y, trace, q, t);
      assert CallTrace(y, trace, n, t, None, w.done);
    case Blocked =>
      trace := EmptyPath(y, trace, q, t);
      trace := Act(y, trace, q, t, P.InAcquire(P.TryPermit), P.Proceed);
      assert CallTrace(y, trace, n, t, Some(P.InAcquire(P.Wait)), w.done);
  }

  // ---- Calls one after the other ----

  /** The history never decides what can happen. */
  lemma {:induction false} LogIsHistory(a: P.Sys, b: P.Sys, trace: seq<P.Event>)
    requires a.s == b.s
    ensures P.After(a, trace).Some? <==> P.After(b, trace).Some?
    ensures P.After(a, trace).Some? ==> P.After(a, trace).value.s == P.After(b, trace).value.s
    decreases |trace|
  {
    if trace != [] && P.Can(a, trace[0]) {
      LogIsHistory(P.Do(a, trace[0]), P.Do(b, trace[0]), trace[1..]);
    }
  }

  lemma {:induction false} Joined(y: P.Sys, first: seq<P.Event>, second: seq<P.Event>)
    requires P.After(y, first).Some?
    ensures P.After(y, first + second) == P.After(P.After(y, first).value, second)
    decreases |first|
  {
    if first == [] {
      assert first + second == second;
    } else {
      assert (first + second)[1..] == first[1..] + second;
      Joined(P.Do(y, first[0]), first[1..], second);
    }
  }

  lemma CallKeepsReached(
      y: P.Sys, conn: nat, poolSize: int, maxIdle: int, trace: seq<P.Event>,
      first: P.Event, n: P.Pool, t: Tid, done: bool)
    requires S.Reached(y, conn, poolSize, maxIdle, trace) && y.s.threads == map[]
    requires IsCall(y.s.p, first, n, t, None, done)
    ensures ReachedAlone(n, conn, poolSize, maxIdle)
  {
    var origin := Origin(y.s.p, first);
    var call :| CallTrace(origin, call, n, t, None, done);
    LogIsHistory(Bare(origin), y, call);
    Joined(P.NewSys(conn, poolSize, maxIdle), trace, call);
    assert S.Reached(P.After(y, call).value, conn, poolSize, maxIdle, trace + call);
  }

  /** Some schedule leads to pool `p`, with no goroutine inside. */
  ghost predicate ReachedAlone(p: P.Pool, conn: nat, poolSize: int, maxIdle: int) {
    exists y, trace :: S.Reached(y, conn, poolSize, maxIdle, trace) && y.s == P.State(p, map[])
  }

  /** A call with its outcome, or a channel dying between two calls. */
  datatype Step =
    | Acquire(w: World, r: Outcome)
    | Release(lease: P.Lease)
    | Discard(lease: P.Lease)
    | Close
    | Die(ch: Ch)

  /** The pool a step leaves, by the specifications the methods of the class meet. */
  predicate Makes(p: P.Pool, e: Step, n: P.Pool) {
    match e
    case Acquire(w, r) => |p.queue| <= p.permits && Acquires(p, w, r, n)
    case Release(lease) => lease in p.leases && n == Released(p, lease)
    case Discard(lease) => lease in p.leases && n == Discarded(p, lease)
    case Close => |p.queue| <= p.permits && n == Closed(p)
    case Die(ch) => n == p.(open := p.open - {ch})
  }

  /** With no goroutine inside, a reached pool is as the class keeps it between calls. */
  lemma RestsAlone(y: P.Sys)
    requires S.Inv(y) && y.s.threads == map[]
    ensures AtRest(y.s.p) && y.s.p.mu.None?
  {
    assert forall role :: Base.Who(y.s.threads, V.Test(role)) == {};
    S.CloserInside(y.s, y.l);
    S.LockerInside(y.s, y.l);
  }

  lemma StepKeepsReached(p: P.Pool, e: Step, n: P.Pool, conn: nat, poolSize: int, maxIdle: int)
    requires ReachedAlone(p, conn, poolSize, maxIdle) && Makes(p, e, n)
    ensures ReachedAlone(n, conn, poolSize, maxIdle)
  {
    var y, trace :| S.Reached(y, conn, poolSize, maxIdle, trace) && y.s == P.State(p, map[]);
    S.ReachedInv(y, conn, poolSize, maxIdle, trace);
    RestsAlone(y);
    var t: Tid := 0;
    match e
    case Acquire(w, r) =>
      if !r.Blocked? {
        AcquireIsSchedule(p, w, r, n, t);
        CallKeepsReached(y, conn, poolSize, maxIdle, trace, P.Begin(t, P.Acquire), n, t, w.done);
      }
    case Release(lease) =>
      ReleaseIsSchedule(p, lease, t);
      CallKeepsReached(y, conn, poolSize, maxIdle, trace, P.GiveBack(t, lease, false), n, t, false);
    case Discard(lease) =>
      DiscardIsSchedule(p, lease, t);
      CallKeepsReached(y, conn, poolSize, maxIdle, trace, P.GiveBack(t, lease, true), n, t, false);
    case Close =>
      CloseIsSchedule(p, t);
      CallKeepsReached(y, conn, poolSize, maxIdle, trace, P.Begin(t, P.Close), n, t, false);
    case Die(ch) =>
      var longer, _ := P.Walk(P.NewSys(conn, poolSize, maxIdle), trace, y.s, P.Die(ch));
      assert S.Reached(P.After(P.NewSys(conn, poolSize, maxIdle), longer).value, conn, poolSize, maxIdle, longer);
  }

  /** `pools` are the pool before and after each of the steps, in order. */
  predicate IsHistory(pools: seq<P.Pool>, steps: seq<Step>) {
    |pools| == |steps| + 1 && forall i: nat :: i < |steps| ==> StepAt(pools, steps, i)
  }

  predicate StepAt(pools: seq<P.Pool>, steps: seq<Step>, i: nat)
    requires |pools| == |steps| + 1 && i < |steps|
  {
    Makes(pools[i], steps[i], pools[i + 1])
  }

  /**
   After any sequence of calls on a new pool, channels dying at will between them, the pool is one that
   some schedule reaches: the bounds, ledgers and safety of PoolSafety hold of it.
   */
  lemma {:induction false} CallsKeepReached(
      pools: seq<P.Pool>, steps: seq<Step>, conn: nat, poolSize: int, maxIdle: int)
    requires IsHistory(pools, steps) && pools[0] == P.New(conn, poolSize, maxIdle)
    ensures ReachedAlone(pools[|steps|], conn, poolSize, maxIdle)
    decreases |steps|
  {
    if steps == [] {
      assert S.Reached(P.NewSys(conn, poolSize, maxIdle), conn, poolSize, maxIdle, []);
    } else {
      var k := |steps| - 1;
      var before, first := pools[..k + 1], steps[..k];
      forall i: nat | i < k ensures StepAt(before, first, i) {
        assert StepAt(pools, steps, i);
      }
      CallsKeepReached(before, first, conn, poolSize, maxIdle);
      assert StepAt(pools, steps, k);
      StepKeepsReached(pools[k], steps[k], pools[k + 1], conn, poolSize, maxIdle);
    }
  }
}
