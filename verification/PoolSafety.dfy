/**
 The guarantees of the channel pool, for every schedule of every number of goroutines: how many
 channels can be open, that none is lost or shared, that the counters add up, that no run panics,
 and what a closed pool guarantees.
 */
module PoolSafety {
  import opened Base
  import opened PoolProtocol
  import opened PoolInvariant
  import opened PoolOwners

  ghost predicate Inv(y: Sys) {
    Tokens(y.s) && Ledger(y.s, y.l) && Control(y.s, y.l) && Owners(y.s, y.l)
  }

  lemma InvNew(conn: nat, poolSize: int, maxIdle: int)
    ensures Inv(NewSys(conn, poolSize, maxIdle))
  {
    var s := NewSys(conn, poolSize, maxIdle).s;
    assert forall role :: Who(s.threads, Test(role)) == {};
  }

  lemma InvStep(y: Sys, e: Event)
    requires Inv(y) && Can(y, e)
    ensures Inv(Do(y, e))
  {
    TokensStep(y.s, y.l, e);
    ControlStep(y.s, y.l, e);
    OwnersStep(y.s, y.l, e);
  }

  lemma {:induction false} InvAfter(y: Sys, trace: seq<Event>)
    requires Inv(y) && After(y, trace).Some?
    ensures Inv(After(y, trace).value)
    decreases |trace|
  {
    if trace != [] {
      InvStep(y, trace[0]);
      InvAfter(Do(y, trace[0]), trace[1..]);
    }
  }

  /** A pool reached from its construction by some schedule. */
  ghost predicate Reached(y: Sys, conn: nat, poolSize: int, maxIdle: int, trace: seq<Event>) {
    After(NewSys(conn, poolSize, maxIdle), trace) == Some(y)
  }

  lemma ReachedInv(y: Sys, conn: nat, poolSize: int, maxIdle: int, trace: seq<Event>)
    requires Reached(y, conn, poolSize, maxIdle, trace)
    ensures Inv(y)
  {
    InvNew(conn, poolSize, maxIdle);
    InvAfter(NewSys(conn, poolSize, maxIdle), trace);
  }

  lemma {:induction false} ConfigConstant(y: Sys, trace: seq<Event>)
    requires After(y, trace).Some?
    ensures After(y, trace).value.s.p.config == y.s.p.config
    decreases |trace|
  {
    if trace != [] {
      ConfigStep(y, trace[0]);
      ConfigConstant(Do(y, trace[0]), trace[1..]);
    }
  }

  lemma ConfigStep(y: Sys, e: Event)
    requires Can(y, e)
    ensures Do(y, e).s.p.config == y.s.p.config
  {
    if e.Run? {
      RunMoves(y.s, y.l, e.t, e.choice);
    }
  }

  // ---- How many channels can be open ----

  /** The channels the history has in the queue, leased, and in a goroutine's hands. */
  function Queued(l: Log): set<Ch> { set c | c in l.owner && l.owner[c].InQueue? }
  function Leased(l: Log): map<Ch, Lease> { map c | c in l.owner && l.owner[c].LeasedTo? :: l.owner[c].lease }
  function Held(l: Log): map<Ch, Tid> { map c | c in l.owner && l.owner[c].HeldBy? :: l.owner[c].t }

  lemma LeasedBound(s: State, l: Log)
    requires Owners(s, l)
    ensures |Leased(l)| <= |s.p.leases|
  {
    forall c | c in Leased(l) ensures Leased(l)[c] in s.p.leases.Keys && s.p.leases[Leased(l)[c]] == c {
      assert Sits(s, l.owner[c], c);
    }
    InjectionBoundsSize(Leased(l), s.p.leases.Keys);
  }

  lemma HeldBound(s: State, l: Log)
    requires Owners(s, l)
    ensures |Held(l)| <= Number(s, Holding)
  {
    forall c | c in Held(l)
      ensures Held(l)[c] in s.threads && Carries(s.threads[Held(l)[c]]) == Some(c)
      ensures Held(l)[c] in Who(s.threads, Test(Holding))
    {
      assert Sits(s, l.owner[c], c);
      assert Plays(s.threads[Held(l)[c]], Holding);
    }
    InjectionBoundsSize(Held(l), Who(s.threads, Test(Holding)));
  }

  lemma QueuedBound(s: State, l: Log)
    requires Owners(s, l)
    ensures |Queued(l)| <= |s.p.queue|
  {
    DistinctSize(s.p.queue);
    var inQueue := set c | c in s.p.queue;
    assert Queued(l) <= inQueue by {
      forall c | c in Queued(l) ensures c in s.p.queue {
        assert Sits(s, l.owner[c], c);
      }
    }
    SubsetSize(Queued(l), inQueue);
  }

  /** Every open channel is covered by a token of its own. */
  lemma OpenCovered(s: State, l: Log)
    requires Tokens(s) && Owners(s, l)
    ensures |s.p.open| <= s.p.permits
  {
    QueuedBound(s, l);
    LeasedBound(s, l);
    HeldBound(s, l);
    var kept := Queued(l) + Leased(l).Keys + Held(l).Keys;
    assert s.p.open <= kept by {
      forall c | c in s.p.open ensures c in kept {
        assert Sits(s, l.owner[c], c);
      }
    }
    SubsetSize(s.p.open, kept);
  }

  /** Open channels made by the pool never exceed its configured size, nor idle ones its configured limit. */
  lemma PoolBounds(y: Sys, conn: nat, poolSize: int, maxIdle: int, trace: seq<Event>)
    requires Reached(y, conn, poolSize, maxIdle, trace)
    ensures y.s.p.permits == |y.s.p.queue| + |y.s.p.leases| + Number(y.s, Holding)
    ensures |y.s.p.open| <= y.s.p.permits <= if poolSize > 0 then poolSize else 1
    ensures |y.s.p.queue| <= if poolSize > 0 then poolSize else 1
    ensures 0 < maxIdle ==> |y.s.p.queue| <= maxIdle
  {
    ReachedInv(y, conn, poolSize, maxIdle, trace);
    ConfigConstant(NewSys(conn, poolSize, maxIdle), trace);
    OpenCovered(y.s, y.l);
  }

  // ---- No channel is lost or shared ----

  /** A channel's places inside the pool, read off the state alone. */
  predicate Located(s: State, o: Owner, c: Ch) {
    !o.Gone? && Sits(s, o, c)
  }

  /** Every channel the pool opened is in exactly one place, or it is closed and in none. */
  lemma NoLeakNoSharing(y: Sys, conn: nat, poolSize: int, maxIdle: int, trace: seq<Event>, c: Ch)
    requires Reached(y, conn, poolSize, maxIdle, trace)
    requires c.conn == conn && c.serial < y.s.p.next
    ensures c in y.s.p.open ==> exists o :: Located(y.s, o, c)
    ensures forall o, q :: Located(y.s, o, c) && Located(y.s, q, c) ==> o == q
    ensures forall i, j :: 0 <= i < j < |y.s.p.queue| ==> y.s.p.queue[i] != y.s.p.queue[j]
  {
    ReachedInv(y, conn, poolSize, maxIdle, trace);
    ConfigConstant(NewSys(conn, poolSize, maxIdle), trace);
    forall o | Located(y.s, o, c) ensures y.l.owner[c] == o {
      LocatedIsOwner(y.s, y.l, o, c);
    }
    if c in y.s.p.open {
      assert Sits(y.s, y.l.owner[c], c);
      assert Located(y.s, y.l.owner[c], c);
    }
  }

  lemma LocatedIsOwner(s: State, l: Log, o: Owner, c: Ch)
    requires Owners(s, l) && Located(s, o, c)
    ensures Known(s.p, l, c, o)
  {
    match o
    case InQueue =>
      var i :| 0 <= i < |s.p.queue| && s.p.queue[i] == c;
      assert Known(s.p, l, s.p.queue[i], InQueue);
    case LeasedTo(lease) => assert Known(s.p, l, s.p.leases[lease], LeasedTo(lease));
    case HeldBy(t) => assert Known(s.p, l, Carries(s.threads[t]).value, HeldBy(t));
  }

  lemma LocalOf(s: State, l: Log, t: Tid)
    requires Control(s, l) && t in s.threads
    ensures Local(s.p, l, t, s.threads[t])
  {
    assert if t in s.threads then Local(s.p, l, t, s.threads[t]) else Absent(s.p, l, t);
  }

  lemma CloserInside(s: State, l: Log)
    requires Control(s, l)
    ensures l.closer.Some? ==> l.closer.value in s.threads && Closing(s.threads[l.closer.value])
  {
    if l.closer.Some? {
      var t := l.closer.value;
      assert if t in s.threads then Local(s.p, l, t, s.threads[t]) else Absent(s.p, l, t);
    }
  }

  lemma LockerInside(s: State, l: Log)
    requires Control(s, l)
    ensures s.p.mu.Some? ==> s.p.mu.value in s.threads
  {
    if s.p.mu.Some? {
      var t := s.p.mu.value;
      assert if t in s.threads then Local(s.p, l, t, s.threads[t]) else Absent(s.p, l, t);
    }
  }

  lemma Quiet(y: Sys)
    requires Inv(y) && y.s.p.closed && y.s.p.leases == map[]
    requires forall t :: t in y.s.threads ==> !Closing(y.s.threads[t]) && !Plays(y.s.threads[t], Holding)
    ensures y.s.p.open == {} && y.s.p.queue == [] && y.s.p.permits == 0
    ensures (forall t :: t in y.s.threads ==> !Plays(y.s.threads[t], Dropping)) ==> y.s.p.active == 0
  {
    CloserInside(y.s, y.l);
    assert Who(y.s.threads, Test(Holding)) == {};
    AddingHold(y.s);
    OpenCovered(y.s, y.l);
    if forall t :: t in y.s.threads ==> !Plays(y.s.threads[t], Dropping) {
      assert Who(y.s.threads, Test(Dropping)) == {};
    }
  }

  /**
   Quiescence: in a closed pool with no lease out, nobody inside Close and no goroutine holding a
   token, every channel the pool opened is closed and all tokens are back; with nobody between a
   token and the counter either, `active` is zero.
   */
  lemma Quiescence(y: Sys, conn: nat, poolSize: int, maxIdle: int, trace: seq<Event>)
    requires Reached(y, conn, poolSize, maxIdle, trace)
    requires y.s.p.closed && y.s.p.leases == map[]
    requires forall t :: t in y.s.threads ==> !Closing(y.s.threads[t]) && !Plays(y.s.threads[t], Holding)
    ensures y.s.p.open == {} && y.s.p.queue == [] && y.s.p.permits == 0
    ensures (forall t :: t in y.s.threads ==> !Plays(y.s.threads[t], Dropping)) ==> y.s.p.active == 0
  {
    ReachedInv(y, conn, poolSize, maxIdle, trace);
    Quiet(y);
  }

  // ---- Counters and guards ----

  /**
   The empty-handed branches of releasePermit are never taken, `active` is the number of tokens up
   to goroutines between a token and the counter, and it never runs below zero. The counter can pass
   the pool size, by at most the number of goroutines that have returned a token and not yet counted it.
   */
  lemma ActiveCount(y: Sys, conn: nat, poolSize: int, maxIdle: int, trace: seq<Event>)
    requires Reached(y, conn, poolSize, maxIdle, trace)
    ensures !y.l.saturated
    ensures y.s.p.active == y.s.p.permits - Number(y.s, Adding) + Number(y.s, Dropping)
    ensures Number(y.s, Dropping) <= y.s.p.active
    ensures y.s.p.active <= (if poolSize > 0 then poolSize else 1) + Number(y.s, Dropping)
  {
    ReachedInv(y, conn, poolSize, maxIdle, trace);
    ConfigConstant(NewSys(conn, poolSize, maxIdle), trace);
    AddingHold(y.s);
  }

  /**
   Every acquisition is accounted for: returned to the idle queue, still out or in hand, discarded,
   closed on return, or refused by the channel options.
   */
  lemma AcquisitionLedger(y: Sys, conn: nat, poolSize: int, maxIdle: int, trace: seq<Event>)
    requires Reached(y, conn, poolSize, maxIdle, trace)
    ensures y.s.p.stats.acquired
         == y.s.p.stats.returned + |y.s.p.leases| + Number(y.s, Owed)
            + y.l.discards + y.l.closedOnReturn + y.l.refused
  {
    ReachedInv(y, conn, poolSize, maxIdle, trace);
  }

  /**
   Every return to the idle queue is accounted for: still idle, just received, reused, dropped as
   dead, or drained by Close. Hence reuses exceed returns by no more than the one goroutine that
   has queued its channel and not yet counted it.
   */
  lemma ReuseLedger(y: Sys, conn: nat, poolSize: int, maxIdle: int, trace: seq<Event>)
    requires Reached(y, conn, poolSize, maxIdle, trace)
    ensures var reuses := y.s.p.stats.acquired - y.s.p.stats.created - Number(y.s, Uncreated);
            && y.s.p.stats.returned + Number(y.s, Sent)
               == |y.s.p.queue| + Number(y.s, Received) + reuses + y.l.deadIdle + y.l.drained
            && reuses <= y.s.p.stats.returned + Number(y.s, Sent)
            && Number(y.s, Sent) <= 1
  {
    ReachedInv(y, conn, poolSize, maxIdle, trace);
    OneSender(y.s, y.l);
  }

  /** Only the holder of the lock can be between the queue and the `returned` counter. */
  lemma OneSender(s: State, l: Log)
    requires Control(s, l)
    ensures Number(s, Sent) <= 1
  {
    var senders := Who(s.threads, Test(Sent));
    forall t | t in senders ensures s.p.mu == Some(t) {
      LocalOf(s, l, t);
      assert Plays(s.threads[t], Sent);
    }
    if s.p.mu.Some? {
      assert senders <= {s.p.mu.value};
      SubsetSize(senders, {s.p.mu.value});
    } else {
      assert senders == {};
    }
  }

  /** No run sends on the closed idle queue or closes it a second time. */
  lemma NeverPanics(y: Sys, conn: nat, poolSize: int, maxIdle: int, trace: seq<Event>)
    requires Reached(y, conn, poolSize, maxIdle, trace)
    ensures !y.s.p.panicked
  {
    ReachedInv(y, conn, poolSize, maxIdle, trace);
  }

  // ---- A closed pool ----

  /** `later` is what is left of `queue` after some channels were taken from its front. */
  predicate Remains(later: seq<Ch>, queue: seq<Ch>) {
    |later| <= |queue| && later == queue[|queue| - |later|..]
  }

  lemma RunMoves(s: State, l: Log, t: Tid, choice: Choice)
    requires Enabled(s, Run(t, choice))
    ensures var r := RunStep(s.p, t, s.threads[t], choice);
            Moves(s.p, l, t, s.threads[t], r.0, RunRecord(s.p, l, t, s.threads[t], choice), r.1)
  {
    match s.threads[t]
    case InAcquire(at) => AcquireMoves(s.p, l, t, at, choice);
    case InOpen(at) => OpenMoves(s.p, l, t, at, choice);
    case InRelease(at) => ReleaseMoves(s.p, l, t, at);
    case InClose(at) => CloseMoves(s.p, l, t, at);
    case InPermit(at) => PermitMoves(s.p, l, t, at);
  }

  /** The queue is left alone, or its first channel is taken. */
  predicate AtMostTaken(later: seq<Ch>, queue: seq<Ch>) {
    later == queue || (queue != [] && later == queue[1..])
  }

  lemma TakenRemains(later: seq<Ch>, queue: seq<Ch>)
    requires AtMostTaken(later, queue)
    ensures Remains(later, queue)
  {
    if later == queue {
      assert queue[0..] == queue;
    }
  }

  predicate StillClosed(p: Pool, n: Pool) {
    n.closed && AtMostTaken(n.queue, p.queue)
  }

  lemma AcquireStillClosed(p: Pool, at: AcquireAt, choice: Choice)
    requires CanAcquire(p, at, choice) && p.closed
    ensures StillClosed(p, AcquireStep(p, at, choice).0)
  {
  }

  lemma ReleaseStillClosed(p: Pool, t: Tid, at: ReleaseAt)
    requires p.closed && !at.SendIdle?
    ensures StillClosed(p, ReleaseStep(p, t, at).0)
  {
  }

  lemma CloseStillClosed(p: Pool, t: Tid, at: CloseAt)
    requires p.closed
    ensures StillClosed(p, CloseStep(p, t, at).0)
  {
  }

  lemma ClosedRunStep(p: Pool, t: Tid, pc: PC, choice: Choice)
    requires CanRun(p, pc, choice) && p.closed && Flags(p, pc)
    ensures StillClosed(p, RunStep(p, t, pc, choice).0)
  {
    match pc
    case InAcquire(at) => AcquireStillClosed(p, at, choice);
    case InOpen(at) => assert OpenStep(p, at, choice).0.queue == p.queue;
    case InRelease(at) => ReleaseStillClosed(p, t, at);
    case InClose(at) => CloseStillClosed(p, t, at);
    case InPermit(at) => assert PermitStep(p, at).0.queue == p.queue;
  }

  lemma ClosedStep(y: Sys, e: Event)
    requires Inv(y) && Can(y, e) && y.s.p.closed
    ensures Do(y, e).s.p.closed && Remains(Do(y, e).s.p.queue, y.s.p.queue)
  {
    if e.Run? {
      LocalOf(y.s, y.l, e.t);
      ClosedRunStep(y.s.p, e.t, y.s.threads[e.t], e.choice);
    }
    TakenRemains(Do(y, e).s.p.queue, y.s.p.queue);
  }

  lemma {:induction false} ClosedRun(y: Sys, trace: seq<Event>)
    requires Inv(y) && y.s.p.closed && After(y, trace).Some?
    ensures After(y, trace).value.s.p.closed && Remains(After(y, trace).value.s.p.queue, y.s.p.queue)
    decreases |trace|
  {
    if trace != [] {
      InvStep(y, trace[0]);
      ClosedStep(y, trace[0]);
      ClosedRun(Do(y, trace[0]), trace[1..]);
    }
  }

  /**
   A closed pool stays closed and its idle queue only empties from the front: a channel that was
   leased or in hand when the pool closed is never idle again, so once it is given back it is closed.
   */
  lemma ClosedForGood(
      y: Sys, conn: nat, poolSize: int, maxIdle: int, trace: seq<Event>, later: seq<Event>, c: Ch)
    requires Reached(y, conn, poolSize, maxIdle, trace) && y.s.p.closed
    requires After(y, later).Some? && c in y.l.owner && c !in y.s.p.queue
    ensures var n := After(y, later).value;
            && n.s.p.closed && Remains(n.s.p.queue, y.s.p.queue) && c !in n.s.p.queue
            && (c in n.s.p.open ==> exists o :: Located(n.s, o, c) && (o.LeasedTo? || o.HeldBy?))
  {
    ReachedInv(y, conn, poolSize, maxIdle, trace);
    ClosedRun(y, later);
    InvAfter(y, later);
    var n := After(y, later).value;
    if c in n.s.p.open {
      assert Sits(n.s, n.l.owner[c], c) && Located(n.s, n.l.owner[c], c);
    }
  }

  /** The idle queue is closed and empty. */
  predicate Spent(p: Pool) {
    p.queueClosed && p.queue == []
  }

  /**
   A goroutine of Acquire that meets the spent queue, from a fresh snapshot or a stale one, at the poll or
   waiting, leaves at once, with an error and with the pool as it was.
   */
  lemma StaleReaderLeaves(
      y: Sys, conn: nat, poolSize: int, maxIdle: int, trace: seq<Event>, t: Tid, choice: Choice)
    requires Reached(y, conn, poolSize, maxIdle, trace) && Spent(y.s.p) && Can(y, Run(t, choice))
    requires y.s.threads[t] in {InAcquire(Snapshot), InAcquire(Poll), InAcquire(Wait)}
    ensures Do(y, Run(t, choice)).s == State(y.s.p, y.s.threads - {t})
  {
    ReachedInv(y, conn, poolSize, maxIdle, trace);
    StaleStep(y.s.p, y.s.threads[t].acquire, choice);
  }

  lemma StaleStep(p: Pool, at: AcquireAt, choice: Choice)
    requires Spent(p) && p.closed && at in {Snapshot, Poll, Wait} && CanAcquire(p, at, choice)
    ensures AcquireStep(p, at, choice) == (p, None)
  {
  }

  /** The goroutine has passed the poll and will try for a permit, or holds one for a channel it is opening. */
  predicate PastPoll(pc: PC) {
    pc == InAcquire(TryPermit) || pc.InOpen?
  }

  lemma SpentRunStep(p: Pool, t: Tid, pc: PC, choice: Choice)
    requires CanRun(p, pc, choice) && p.closed && Spent(p) && Flags(p, pc)
    ensures var r := RunStep(p, t, pc, choice);
            Spent(r.0) && (r.1.Some? && PastPoll(r.1.value) ==> PastPoll(pc))
  {
    ClosedRunStep(p, t, pc, choice);
    match pc
    case InAcquire(at) => assert AcquireStep(p, at, choice).0.queueClosed;
    case InOpen(at) => assert OpenStep(p, at, choice).0.queueClosed;
    case InRelease(at) => assert ReleaseStep(p, t, at).0.queueClosed;
    case InClose(at) => assert CloseStep(p, t, at).0.queueClosed;
    case InPermit(at) => assert PermitStep(p, at).0.queueClosed;
  }

  lemma SpentStep(y: Sys, e: Event, t: Tid)
    requires Inv(y) && Can(y, e) && Spent(y.s.p)
    ensures Spent(Do(y, e).s.p)
    ensures t in Do(y, e).s.threads && PastPoll(Do(y, e).s.threads[t]) ==> t in y.s.threads && PastPoll(y.s.threads[t])
  {
    if e.Run? {
      LocalOf(y.s, y.l, e.t);
      SpentRunStep(y.s.p, e.t, y.s.threads[e.t], e.choice);
    }
  }

  lemma {:induction false} SpentRun(y: Sys, later: seq<Event>, t: Tid)
    requires Inv(y) && Spent(y.s.p) && After(y, later).Some?
    ensures Spent(After(y, later).value.s.p)
    ensures var n := After(y, later).value;
            t in n.s.threads && PastPoll(n.s.threads[t]) ==> t in y.s.threads && PastPoll(y.s.threads[t])
    decreases |later|
  {
    if later != [] {
      InvStep(y, later[0]);
      SpentStep(y, later[0], t);
      SpentRun(Do(y, later[0]), later[1..], t);
    }
  }

  /**
   Once the queue is spent it stays so, and no goroutine goes on to a permit or a new channel but those that
   had already passed the poll.
   */
  lemma NoLatePermits(
      y: Sys, conn: nat, poolSize: int, maxIdle: int, trace: seq<Event>, later: seq<Event>, t: Tid)
    requires Reached(y, conn, poolSize, maxIdle, trace) && Spent(y.s.p) && After(y, later).Some?
    ensures var n := After(y, later).value;
            && Spent(n.s.p)
            && (t in n.s.threads && PastPoll(n.s.threads[t]) ==> t in y.s.threads && PastPoll(y.s.threads[t]))
  {
    ReachedInv(y, conn, poolSize, maxIdle, trace);
    SpentRun(y, later, t);
  }

  // ---- Waiting ----

  /** The steps that can end a wait in Acquire: its own context, a send to the idle queue, the close of the queue. */
  predicate Wakes(s: State, e: Event, t: Tid) {
    e.Run? && e.t in s.threads &&
    match s.threads[e.t] {
      case InRelease(at) => at.SendIdle?
      case InClose(at) => at.CloseQueue?
      case _ => e.t == t && e.choice.Cancel?
    }
  }

  /** Some step of the schedule is of that kind. */
  predicate Woken(y: Sys, trace: seq<Event>, t: Tid)
    requires After(y, trace).Some?
    decreases |trace|
  {
    trace != [] && (Wakes(y.s, trace[0], t) || Woken(Do(y, trace[0]), trace[1..], t))
  }

  /** Goroutine `t` is in Acquire's blocking select, with nothing to receive. */
  predicate IsBlocked(s: State, t: Tid) {
    t in s.threads && s.threads[t] == InAcquire(Wait) && s.p.queue == [] && !s.p.queueClosed
  }

  /** With an idle queue that is empty and open, only a send to it or its close leaves it otherwise. */
  predicate Quenched(p: Pool) {
    p.queue == [] && !p.queueClosed
  }

  lemma AcquireQuenched(p: Pool, at: AcquireAt, choice: Choice)
    requires Quenched(p) && CanAcquire(p, at, choice)
    ensures Quenched(AcquireStep(p, at, choice).0)
  {
  }

  lemma ReleaseQuenched(p: Pool, t: Tid, at: ReleaseAt)
    requires Quenched(p) && p.config.maxIdle > 0 && (at.SendIdle? ==> !p.detached)
    ensures Quenched(ReleaseStep(p, t, at).0) <==> !at.SendIdle?
  {
  }

  lemma CloseQuenched(p: Pool, t: Tid, at: CloseAt)
    requires Quenched(p)
    ensures Quenched(CloseStep(p, t, at).0) <==> !at.CloseQueue?
  {
  }

  lemma RunQuenched(p: Pool, t: Tid, pc: PC, choice: Choice)
    requires Quenched(p) && CanRun(p, pc, choice) && p.config.maxIdle > 0 && Flags(p, pc) && (p.detached ==> p.closed)
    ensures Quenched(RunStep(p, t, pc, choice).0)
            <==> pc != InClose(CloseQueue) && !(pc.InRelease? && pc.release.SendIdle?)
  {
    match pc
    case InAcquire(at) => AcquireQuenched(p, at, choice);
    case InOpen(at) => assert Quenched(OpenStep(p, at, choice).0);
    case InRelease(at) => ReleaseQuenched(p, t, at);
    case InClose(at) => CloseQuenched(p, t, at);
    case InPermit(at) => assert Quenched(PermitStep(p, at).0);
  }

  lemma RunWakesIff(s: State, k: Tid, choice: Choice, t: Tid)
    requires IsBlocked(s, t) && Enabled(s, Run(k, choice))
    requires s.p.config.maxIdle > 0 && Flags(s.p, s.threads[k]) && (s.p.detached ==> s.p.closed)
    ensures Wakes(s, Run(k, choice), t) <==> !IsBlocked(Apply(s, Run(k, choice)), t)
  {
    RunQuenched(s.p, k, s.threads[k], choice);
  }

  /** Exactly the waking steps give a blocked goroutine something to receive, or take it out of the wait. */
  lemma WakesIff(y: Sys, e: Event, t: Tid)
    requires Inv(y) && IsBlocked(y.s, t) && Can(y, e)
    ensures Wakes(y.s, e, t) <==> !IsBlocked(Do(y, e).s, t)
  {
    if e.Run? {
      LocalOf(y.s, y.l, e.t);
      RunWakesIff(y.s, e.t, e.choice, t);
    }
  }

  /** Goroutine `t` is blocked at every moment of the schedule. */
  predicate BlockedThroughout(y: Sys, trace: seq<Event>, t: Tid)
    requires After(y, trace).Some?
    decreases |trace|
  {
    IsBlocked(y.s, t) && (trace != [] ==> BlockedThroughout(Do(y, trace[0]), trace[1..], t))
  }

  lemma {:induction false} BlockedRun(y: Sys, later: seq<Event>, t: Tid)
    requires Inv(y) && IsBlocked(y.s, t) && After(y, later).Some?
    ensures BlockedThroughout(y, later, t) <==> !Woken(y, later, t)
    decreases |later|
  {
    if later != [] {
      WakesIff(y, later[0], t);
      if !Wakes(y.s, later[0], t) {
        InvStep(y, later[0]);
        BlockedRun(Do(y, later[0]), later[1..], t);
      }
    }
  }

  /**
   A goroutine blocked in Acquire stays blocked through a schedule exactly if the schedule has no step of
   its own context, no return to the idle queue and no close of it, whatever permits are freed meanwhile.
   */
  lemma StaysBlockedIff(
      y: Sys, conn: nat, poolSize: int, maxIdle: int, trace: seq<Event>, later: seq<Event>, t: Tid)
    requires Reached(y, conn, poolSize, maxIdle, trace)
    requires IsBlocked(y.s, t) && After(y, later).Some?
    ensures BlockedThroughout(y, later, t) <==> !Woken(y, later, t)
  {
    ReachedInv(y, conn, poolSize, maxIdle, trace);
    BlockedRun(y, later, t);
  }
}
