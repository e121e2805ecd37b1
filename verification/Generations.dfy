/**
 The client over its whole life in pool mode (client.go): every Reconnect retires the channel pools
 it had and dials new ones, while leases of the old pools may still be out.

 `pools` keeps every channel pool the client ever made, each on its own connection; those from
 `from` on are the present ones. Acquire runs under the client's read lock, Reconnect and Close
 under its write lock, so the latter start only when no goroutine is inside Acquire. They then close
 the pools one after the other and hang up the connections, while operations, releases and discards
 on old and present leases go on in between.
 */
module Generations {
  import opened Base
  import P = PoolProtocol
  import V = PoolInvariant
  import O = PoolOwners
  import S = PoolSafety
  import C = PooledChannel

  /** Where the holder of the write lock is; `redial` tells Reconnect from Close. */
  datatype Stage =
    | Serving
    | Stopping(next: nat, redial: bool)
    | Draining(pool: nat, t: Tid, redial: bool)
    | HangingUp(next: nat, redial: bool)
    | Dialling

  datatype Client = Client(pools: seq<C.Sys>, from: nat, closed: bool, stage: Stage)

  datatype Event =
    | Inside(pool: nat, e: C.Event)
    | Stop(redial: bool)
    | StartClose(t: Tid)
    | EndClose
    | PoolsClosed
    | HangUp
    | HungUp
    | Dialled(count: nat)

  predicate StartsAcquire(e: C.Event) {
    e.InPool? && e.e.Begin? && e.e.call.Acquire?
  }

  predicate StartsClose(e: C.Event) {
    e.InPool? && e.e.Begin? && e.e.call.Close?
  }

  /** The goroutine is inside Acquire. */
  predicate Acquiring(pc: P.PC) {
    pc.InAcquire? || pc.InOpen? || (pc.InPermit? && (pc.permit.next.Retry? || pc.permit.next.Failed?))
  }

  /** The goroutine is inside Close. */
  predicate Stops(pc: P.PC) {
    pc.InClose? || (pc.InPermit? && pc.permit.next.Drain?)
  }

  predicate NoAcquire(y: C.Sys) {
    forall t :: t in y.pool.s.threads ==> !Acquiring(y.pool.s.threads[t])
  }

  predicate Can(c: Client, e: Event) {
    match e
    case Inside(i, pe) =>
      && i < |c.pools| && C.Can(c.pools[i], pe) && !StartsClose(pe)
      && (StartsAcquire(pe) ==> c.stage.Serving? && !c.closed && c.from <= i)
    case Stop(_) =>
      c.stage.Serving? && !c.closed && forall i :: c.from <= i < |c.pools| ==> NoAcquire(c.pools[i])
    case StartClose(t) =>
      c.stage.Stopping? && c.stage.next < |c.pools| && t !in c.pools[c.stage.next].pool.s.threads
    case EndClose =>
      c.stage.Draining? && c.stage.pool < |c.pools| && c.stage.t !in c.pools[c.stage.pool].pool.s.threads
    case PoolsClosed => c.stage.Stopping? && c.stage.next == |c.pools|
    case HangUp => c.stage.HangingUp? && c.stage.next < |c.pools|
    case HungUp => c.stage.HangingUp? && c.stage.next == |c.pools|
    case Dialled(_) => c.stage.Dialling?
  }

  /** Closing a connection closes every channel opened on it. */
  function Disconnected(y: C.Sys): C.Sys {
    y.(pool := y.pool.(s := y.pool.s.(p := y.pool.s.p.(open := {}))))
  }

  /** Newly dialled pools, one per connection, with the configured sizes. */
  function Fresh(conn: nat, count: nat, poolSize: int, maxIdle: int): (r: seq<C.Sys>)
    ensures |r| == count && forall i :: 0 <= i < count ==> r[i] == C.NewSys(conn + i, poolSize, maxIdle)
  {
    seq(count, (i: nat) => C.NewSys(conn + i, poolSize, maxIdle))
  }

  function Do(c: Client, e: Event, poolSize: int, maxIdle: int): Client
    requires Can(c, e)
  {
    match e
    case Inside(i, pe) => c.(pools := c.pools[i := C.Do(c.pools[i], pe)])
    case Stop(redial) => c.(closed := !redial, stage := Stopping(c.from, redial))
    case StartClose(t) =>
      var i := c.stage.next;
      c.(pools := c.pools[i := C.Do(c.pools[i], C.InPool(P.Begin(t, P.Close)))],
         stage := Draining(i, t, c.stage.redial))
    case EndClose => c.(stage := Stopping(c.stage.pool + 1, c.stage.redial))
    case PoolsClosed => c.(stage := HangingUp(c.from, c.stage.redial))
    case HangUp =>
      var i := c.stage.next;
      c.(pools := c.pools[i := Disconnected(c.pools[i])], stage := HangingUp(i + 1, c.stage.redial))
    case HungUp => c.(from := |c.pools|, stage := if c.stage.redial then Dialling else Serving)
    case Dialled(count) =>
      c.(pools := c.pools + Fresh(|c.pools|, count, poolSize, maxIdle), stage := Serving)
  }

  function After(c: Client, trace: seq<Event>, poolSize: int, maxIdle: int): Option<Client>
    decreases |trace|
  {
    if trace == [] then Some(c)
    else if !Can(c, trace[0]) then None
    else After(Do(c, trace[0], poolSize, maxIdle), trace[1..], poolSize, maxIdle)
  }

  /** A client about to dial for the first time. */
  const NEW_CLIENT := Client([], 0, false, Dialling)

  // ---- What one step of a pool can change ----

  ghost predicate Confined(p: P.Pool, pc: P.PC, n: P.Pool, next: Option<P.PC>) {
    && (!Acquiring(pc) ==> n.open <= p.open && (next.Some? ==> !Acquiring(next.value)))
    && (!Stops(pc) ==> n.closed == p.closed && (next.Some? ==> !Stops(next.value)))
    && (pc == P.InClose(P.LockClose) ==> n.closed == p.closed && next == Some(P.InClose(P.SetClosed)))
    && (pc == P.InClose(P.SetClosed) && !p.closed ==> n.closed && next == Some(P.InClose(P.CloseQueue)))
    && (p.closed && Stops(pc) && pc != P.InClose(P.LockClose) ==>
          n.closed && (next.Some? ==> Stops(next.value) && !Early(next.value)))
  }

  /** Inside Close, before the flag is set. */
  predicate Early(pc: P.PC) {
    pc == P.InClose(P.LockClose) || pc == P.InClose(P.SetClosed)
  }

  lemma AcquireConfined(p: P.Pool, at: P.AcquireAt, choice: P.Choice)
    requires P.CanAcquire(p, at, choice)
    ensures var r := P.AcquireStep(p, at, choice); Confined(p, P.InAcquire(at), r.0, r.1)
  {
  }

  lemma OpenConfined(p: P.Pool, at: P.OpenAt, choice: P.Choice)
    ensures var r := P.OpenStep(p, at, choice); Confined(p, P.InOpen(at), r.0, r.1)
  {
  }

  lemma ReleaseConfined(p: P.Pool, t: Tid, at: P.ReleaseAt)
    ensures var r := P.ReleaseStep(p, t, at); Confined(p, P.InRelease(at), r.0, r.1)
  {
  }

  lemma CloseConfined(p: P.Pool, t: Tid, at: P.CloseAt)
    ensures var r := P.CloseStep(p, t, at); Confined(p, P.InClose(at), r.0, r.1)
  {
  }

  lemma PermitConfined(p: P.Pool, at: P.PermitAt)
    ensures var r := P.PermitStep(p, at); Confined(p, P.InPermit(at), r.0, r.1)
  {
  }

  lemma RunConfined(p: P.Pool, t: Tid, pc: P.PC, choice: P.Choice)
    requires P.CanRun(p, pc, choice)
    ensures var r := P.RunStep(p, t, pc, choice); Confined(p, pc, r.0, r.1)
  {
    match pc
    case InAcquire(at) => AcquireConfined(p, at, choice);
    case InOpen(at) => OpenConfined(p, at, choice);
    case InRelease(at) => ReleaseConfined(p, t, at);
    case InClose(at) => CloseConfined(p, t, at);
    case InPermit(at) => PermitConfined(p, at);
  }

  // ---- What a pool is at each stage ----

  ghost predicate Kept(y: C.Sys, conn: nat) {
    C.Inv(y) && y.pool.s.p.config.conn == conn
  }

  predicate Running(y: P.Sys) {
    !y.s.p.closed && forall t :: t in y.s.threads ==> !Stops(y.s.threads[t])
  }

  /** Goroutine `t`, and no other, is closing the pool. */
  predicate Halting(y: P.Sys, t: Tid) {
    && (forall k :: k in y.s.threads && Stops(y.s.threads[k]) ==> k == t)
    && (if t in y.s.threads && Early(y.s.threads[t]) then !y.s.p.closed else y.s.p.closed)
  }

  predicate Halted(y: P.Sys) {
    y.s.p.closed && y.s.p.queue == []
  }

  predicate Retired(y: C.Sys) {
    Halted(y.pool) && y.pool.s.p.open == {} && NoAcquire(y)
  }

  /** What pool `i` is, given where the client is. */
  predicate Fine(c: Client, i: nat)
    requires i < |c.pools|
  {
    var y := c.pools[i];
    if i < c.from then Retired(y)
    else
      match c.stage
      case Serving => Running(y.pool)
      case Stopping(next, _) => NoAcquire(y) && if i < next then Halted(y.pool) else Running(y.pool)
      case Draining(k, t, _) =>
        NoAcquire(y) && (if i < k then Halted(y.pool) else if i == k then Halting(y.pool, t) else Running(y.pool))
      case HangingUp(next, _) => NoAcquire(y) && Halted(y.pool) && (i < next ==> y.pool.s.p.open == {})
      case Dialling => false
  }

  predicate Placed(c: Client) {
    && c.from <= |c.pools|
    && match c.stage {
         case Serving => c.closed ==> c.from == |c.pools|
         case Stopping(next, redial) => c.closed == !redial && c.from <= next <= |c.pools|
         case Draining(k, _, redial) => c.closed == !redial && c.from <= k < |c.pools|
         case HangingUp(next, redial) => c.closed == !redial && c.from <= next <= |c.pools|
         case Dialling => !c.closed && c.from == |c.pools|
       }
  }

  ghost predicate Inv(c: Client) {
    && Placed(c)
    && (forall i :: 0 <= i < |c.pools| ==> Kept(c.pools[i], i))
    && (forall i :: 0 <= i < |c.pools| ==> Fine(c, i))
  }

  // ---- Steps inside a pool keep what it is ----

  lemma NoAcquireStep(y: P.Sys, e: P.Event)
    requires P.Can(y, e) && (e.Begin? ==> e.call.Close?)
    requires forall t :: t in y.s.threads ==> !Acquiring(y.s.threads[t])
    ensures forall t :: t in P.Do(y, e).s.threads ==> !Acquiring(P.Do(y, e).s.threads[t])
    ensures P.Do(y, e).s.p.open <= y.s.p.open
  {
    if e.Run? {
      RunConfined(y.s.p, e.t, y.s.threads[e.t], e.choice);
    }
  }

  lemma RunningStep(y: P.Sys, e: P.Event)
    requires P.Can(y, e) && (e.Begin? ==> e.call.Acquire?) && Running(y)
    ensures Running(P.Do(y, e))
  {
    if e.Run? {
      RunConfined(y.s.p, e.t, y.s.threads[e.t], e.choice);
    }
  }

  lemma HaltingStep(y: P.Sys, e: P.Event, t: Tid)
    requires P.Can(y, e) && (e.Begin? ==> e.call.Acquire?) && Halting(y, t)
    ensures Halting(P.Do(y, e), t)
  {
    if e.Run? {
      RunConfined(y.s.p, e.t, y.s.threads[e.t], e.choice);
    }
  }

  lemma HaltedStep(y: P.Sys, e: P.Event)
    requires S.Inv(y) && P.Can(y, e) && Halted(y)
    ensures Halted(P.Do(y, e))
  {
    S.ClosedStep(y, e);
  }

  lemma KeptStep(y: C.Sys, e: C.Event, conn: nat)
    requires Kept(y, conn) && C.Can(y, e)
    ensures Kept(C.Do(y, e), conn)
  {
    C.InvStep(y, e);
    C.PoolPartDoes(y, e);
    var part := C.PoolPart(y, e);
    if part.Some? {
      S.ConfigStep(y.pool, part.value);
    }
  }

  lemma FineInside(c: Client, i: nat, e: C.Event)
    requires Inv(c) && Can(c, Inside(i, e))
    ensures Fine(c.(pools := c.pools[i := C.Do(c.pools[i], e)]), i)
  {
    var y := c.pools[i];
    assert Kept(y, i) && Fine(c, i);
    C.PoolPartDoes(y, e);
    var part := C.PoolPart(y, e);
    if part.Some? {
      if NoAcquire(y) && !StartsAcquire(e) {
        NoAcquireStep(y.pool, part.value);
      }
      if Running(y.pool) {
        RunningStep(y.pool, part.value);
      }
      if Halted(y.pool) {
        HaltedStep(y.pool, part.value);
      }
      if c.stage.Draining? && Halting(y.pool, c.stage.t) {
        HaltingStep(y.pool, part.value, c.stage.t);
      }
    }
  }

  lemma InvInside(c: Client, i: nat, e: C.Event)
    requires Inv(c) && Can(c, Inside(i, e))
    ensures Inv(c.(pools := c.pools[i := C.Do(c.pools[i], e)]))
  {
    FineInside(c, i, e);
    assert Kept(c.pools[i], i);
    KeptStep(c.pools[i], e, i);
    Replaced(c, i, C.Do(c.pools[i], e));
  }

  lemma Replaced(c: Client, i: nat, y: C.Sys)
    requires Inv(c) && i < |c.pools| && Kept(y, i) && Fine(c.(pools := c.pools[i := y]), i)
    ensures Inv(c.(pools := c.pools[i := y]))
  {
    OneReplaced(c, i, y, c.stage);
  }

  /** The stage stays, or the closing of pool `i` starts. */
  predicate StartsAt(c: Client, i: nat, stage: Stage) {
    stage == c.stage || (c.stage.Stopping? && c.stage.next == i && stage.Draining? && stage.pool == i)
  }

  lemma OtherFine(c: Client, i: nat, y: C.Sys, stage: Stage, k: nat)
    requires i < |c.pools| && k < |c.pools| && k != i && Fine(c, k) && StartsAt(c, i, stage)
    ensures Fine(c.(pools := c.pools[i := y], stage := stage), k)
  {
  }

  /** Replacing one pool by a fine one, and perhaps starting to close it, leaves the others as they were. */
  lemma OneReplaced(c: Client, i: nat, y: C.Sys, stage: Stage)
    requires Inv(c) && i < |c.pools| && Kept(y, i) && StartsAt(c, i, stage)
    requires Placed(c.(pools := c.pools[i := y], stage := stage))
    requires Fine(c.(pools := c.pools[i := y], stage := stage), i)
    ensures Inv(c.(pools := c.pools[i := y], stage := stage))
  {
    var n := c.(pools := c.pools[i := y], stage := stage);
    forall k | 0 <= k < |n.pools| ensures Kept(n.pools[k], k) && Fine(n, k) {
      assert Kept(c.pools[k], k) && Fine(c, k);
      if k != i {
        OtherFine(c, i, y, stage, k);
      }
    }
  }

  // ---- Steps of the client keep the invariant ----

  lemma InvStartClose(c: Client, t: Tid, poolSize: int, maxIdle: int)
    requires Inv(c) && Can(c, StartClose(t))
    ensures Inv(Do(c, StartClose(t), poolSize, maxIdle))
  {
    var i := c.stage.next;
    assert Kept(c.pools[i], i);
    KeptStep(c.pools[i], C.InPool(P.Begin(t, P.Close)), i);
    StartedFine(c, t, poolSize, maxIdle);
    OneReplaced(c, i, C.Do(c.pools[i], C.InPool(P.Begin(t, P.Close))), Draining(i, t, c.stage.redial));
  }

  lemma StartedFine(c: Client, t: Tid, poolSize: int, maxIdle: int)
    requires Inv(c) && Can(c, StartClose(t))
    ensures Placed(Do(c, StartClose(t), poolSize, maxIdle))
    ensures Fine(Do(c, StartClose(t), poolSize, maxIdle), c.stage.next)
  {
    assert Fine(c, c.stage.next);
    StartHalts(c.pools[c.stage.next], t);
  }

  lemma StartHalts(y: C.Sys, t: Tid)
    requires NoAcquire(y) && Running(y.pool) && t !in y.pool.s.threads
    ensures var n := C.Do(y, C.InPool(P.Begin(t, P.Close))); NoAcquire(n) && Halting(n.pool, t)
  {
    NoAcquireStep(y.pool, P.Begin(t, P.Close));
  }

  /** When the closing goroutine has left, the pool is closed and its queue drained. */
  lemma LeftHalted(y: P.Sys, t: Tid)
    requires S.Inv(y) && Halting(y, t) && t !in y.s.threads
    ensures Halted(y)
  {
    forall k | k in y.s.threads ensures !V.Closing(y.s.threads[k]) {
      assert !Stops(y.s.threads[k]);
    }
    S.CloserInside(y.s, y.l);
  }

  lemma InvEndClose(c: Client, poolSize: int, maxIdle: int)
    requires Inv(c) && Can(c, EndClose)
    ensures Inv(Do(c, EndClose, poolSize, maxIdle))
  {
    var n := Do(c, EndClose, poolSize, maxIdle);
    forall k | 0 <= k < |n.pools| ensures Kept(n.pools[k], k) && Fine(n, k) {
      assert Kept(c.pools[k], k) && Fine(c, k);
      if k == c.stage.pool {
        LeftHalted(c.pools[k].pool, c.stage.t);
      }
    }
  }

  lemma InvDisconnected(y: C.Sys, conn: nat)
    requires Kept(y, conn)
    ensures Kept(Disconnected(y), conn)
  {
    var n := Disconnected(y);
    DisconnectedPool(y.pool, n.pool);
    DisconnectedOwners(y.pool, n.pool);
    forall lease | lease in n.wrappers ensures C.WrapperOk(n, lease) {
      assert C.WrapperOk(y, lease);
    }
  }

  lemma DisconnectedPool(y: P.Sys, n: P.Sys)
    requires S.Inv(y) && n == y.(s := y.s.(p := y.s.p.(open := {})))
    ensures V.Tokens(n.s) && V.Ledger(n.s, n.l) && V.Control(n.s, n.l)
  {
    assert forall role :: V.Number(n.s, role) == V.Number(y.s, role);
    forall t ensures if t in n.s.threads then V.Local(n.s.p, n.l, t, n.s.threads[t]) else V.Absent(n.s.p, n.l, t) {
      assert if t in y.s.threads then V.Local(y.s.p, y.l, t, y.s.threads[t]) else V.Absent(y.s.p, y.l, t);
    }
  }

  lemma DisconnectedOwners(y: P.Sys, n: P.Sys)
    requires O.Owners(y.s, y.l) && n == y.(s := y.s.(p := y.s.p.(open := {})))
    ensures O.Owners(n.s, n.l)
  {
    forall c | c in n.l.owner ensures O.Sits(n.s, n.l.owner[c], c) {
      assert O.Sits(y.s, y.l.owner[c], c);
    }
  }

  lemma InvHangUp(c: Client, poolSize: int, maxIdle: int)
    requires Inv(c) && Can(c, HangUp)
    ensures Inv(Do(c, HangUp, poolSize, maxIdle))
  {
    var n := Do(c, HangUp, poolSize, maxIdle);
    forall k | 0 <= k < |n.pools| ensures Kept(n.pools[k], k) && Fine(n, k) {
      assert Kept(c.pools[k], k) && Fine(c, k);
      if k == c.stage.next {
        InvDisconnected(c.pools[k], k);
      }
    }
  }

  lemma InvDialled(c: Client, count: nat, poolSize: int, maxIdle: int)
    requires Inv(c) && Can(c, Dialled(count))
    ensures Inv(Do(c, Dialled(count), poolSize, maxIdle))
  {
    var n := Do(c, Dialled(count), poolSize, maxIdle);
    forall k | 0 <= k < |n.pools| ensures Kept(n.pools[k], k) && Fine(n, k) {
      if k < |c.pools| {
        assert Kept(c.pools[k], k) && Fine(c, k);
      } else {
        assert n.pools[k] == C.NewSys(k, poolSize, maxIdle);
        S.InvNew(k, poolSize, maxIdle);
      }
    }
  }

  lemma InvStep(c: Client, e: Event, poolSize: int, maxIdle: int)
    requires Inv(c) && Can(c, e)
    ensures Inv(Do(c, e, poolSize, maxIdle))
  {
    match e
    case Inside(i, pe) => InvInside(c, i, pe);
    case StartClose(t) => InvStartClose(c, t, poolSize, maxIdle);
    case EndClose => InvEndClose(c, poolSize, maxIdle);
    case HangUp => InvHangUp(c, poolSize, maxIdle);
    case Dialled(count) => InvDialled(c, count, poolSize, maxIdle);
    case _ =>
      forall k | 0 <= k < |c.pools| ensures Fine(Do(c, e, poolSize, maxIdle), k) {
        assert Fine(c, k);
      }
  }

  lemma {:induction false} InvAfter(c: Client, trace: seq<Event>, poolSize: int, maxIdle: int)
    requires Inv(c) && After(c, trace, poolSize, maxIdle).Some?
    ensures Inv(After(c, trace, poolSize, maxIdle).value)
    decreases |trace|
  {
    if trace != [] {
      InvStep(c, trace[0], poolSize, maxIdle);
      InvAfter(Do(c, trace[0], poolSize, maxIdle), trace[1..], poolSize, maxIdle);
    }
  }

  // ---- The guarantees ----

  /**
   Generation isolation: in every run of the client, a pool of an earlier generation is closed, has
   nothing idle, nothing open and no goroutine in Acquire; a pool's idle queue and leases hold only
   channels opened on its own connection; so a channel leased from one pool is never idle in another.
   */
  lemma GenerationIsolation(c: Client, trace: seq<Event>, poolSize: int, maxIdle: int, i: nat, k: nat)
    requires After(NEW_CLIENT, trace, poolSize, maxIdle) == Some(c)
    requires i < |c.pools| && k < |c.pools|
    ensures i < c.from ==>
              var p := c.pools[i].pool.s.p; p.closed && p.queue == [] && p.open == {} && NoAcquire(c.pools[i])
    ensures forall j :: 0 <= j < |c.pools[i].pool.s.p.queue| ==> c.pools[i].pool.s.p.queue[j].conn == i
    ensures forall lease :: lease in c.pools[i].pool.s.p.leases ==>
              && c.pools[i].pool.s.p.leases[lease].conn == i
              && c.pools[i].pool.s.p.leases[lease] !in c.pools[k].pool.s.p.queue
    ensures c.closed && c.stage.Serving? ==> c.pools[i].pool.s.p.open == {}
  {
    InvAfter(NEW_CLIENT, trace, poolSize, maxIdle);
    assert Kept(c.pools[i], i) && Fine(c, i) && Kept(c.pools[k], k);
    QueueIsOwn(c.pools[i].pool);
    QueueIsOwn(c.pools[k].pool);
    LeasesAreOwn(c.pools[i].pool);
  }

  /** A leased channel is the pool's own, and not idle in it. */
  lemma LeasesAreOwn(y: P.Sys)
    requires O.Owners(y.s, y.l)
    ensures forall lease :: lease in y.s.p.leases ==>
              y.s.p.leases[lease].conn == y.s.p.config.conn && y.s.p.leases[lease] !in y.s.p.queue
  {
    forall lease | lease in y.s.p.leases
      ensures y.s.p.leases[lease].conn == y.s.p.config.conn && y.s.p.leases[lease] !in y.s.p.queue
    {
      assert O.Known(y.s.p, y.l, y.s.p.leases[lease], P.LeasedTo(lease));
      if y.s.p.leases[lease] in y.s.p.queue {
        S.LocatedIsOwner(y.s, y.l, P.InQueue, y.s.p.leases[lease]);
      }
    }
  }

  lemma QueueIsOwn(y: P.Sys)
    requires O.Owners(y.s, y.l)
    ensures forall c :: c in y.s.p.queue ==> c.conn == y.s.p.config.conn
  {
    forall c | c in y.s.p.queue ensures c.conn == y.s.p.config.conn {
      var j :| 0 <= j < |y.s.p.queue| && y.s.p.queue[j] == c;
      assert O.Known(y.s.p, y.l, y.s.p.queue[j], P.InQueue);
    }
  }

  /**
   A serving client's present pools are open, and Acquire can begin in each: in every run, whatever was
   closed or redialled before.
   */
  lemma PresentPoolsServe(c: Client, trace: seq<Event>, poolSize: int, maxIdle: int, i: nat, t: Tid)
    requires After(NEW_CLIENT, trace, poolSize, maxIdle) == Some(c) && c.stage.Serving? && !c.closed
    requires c.from <= i < |c.pools| && t !in c.pools[i].pool.s.threads
    ensures !c.pools[i].pool.s.p.closed && !c.pools[i].pool.s.p.queueClosed
    ensures Can(c, Inside(i, C.InPool(P.Begin(t, P.Acquire))))
  {
    InvAfter(NEW_CLIENT, trace, poolSize, maxIdle);
    assert Fine(c, i) && Kept(c.pools[i], i);
  }

  /** What a dial brings: as many new pools as dialled, each on a connection of its own, and only these are present. */
  lemma DialledServes(c: Client, trace: seq<Event>, poolSize: int, maxIdle: int, count: nat, i: nat, t: Tid)
    requires After(NEW_CLIENT, trace, poolSize, maxIdle) == Some(c) && c.stage.Dialling? && i < count
    ensures var n := Do(c, Dialled(count), poolSize, maxIdle);
            && |n.pools| == |c.pools| + count && n.from == |c.pools| && n.stage.Serving? && !n.closed
            && n.pools[..|c.pools|] == c.pools
            && n.pools[n.from + i].pool.s.p.config.conn == n.from + i
            && n.pools[n.from + i].pool.s.p.queue == [] && n.pools[n.from + i].pool.s.p.open == {}
            && Can(n, Inside(n.from + i, C.InPool(P.Begin(t, P.Acquire))))
  {
    InvAfter(NEW_CLIENT, trace, poolSize, maxIdle);
    assert Do(c, Dialled(count), poolSize, maxIdle).pools[|c.pools| + i] == C.NewSys(|c.pools| + i, poolSize, maxIdle);
  }

  lemma {:induction false} StaysRetired(c: Client, trace: seq<Event>, poolSize: int, maxIdle: int, i: nat)
    requires Inv(c) && i < c.from && After(c, trace, poolSize, maxIdle).Some?
    ensures var n := After(c, trace, poolSize, maxIdle).value; i < n.from <= |n.pools| && Retired(n.pools[i])
    decreases |trace|
  {
    assert Fine(c, i);
    if trace != [] {
      InvStep(c, trace[0], poolSize, maxIdle);
      StaysRetired(Do(c, trace[0], poolSize, maxIdle), trace[1..], poolSize, maxIdle, i);
    }
  }

  /** A retired pool stays retired whatever the client does later, so a late give-back is never made idle. */
  lemma RetiredForGood(
      c: Client, trace: seq<Event>, later: seq<Event>, poolSize: int, maxIdle: int, i: nat)
    requires After(NEW_CLIENT, trace, poolSize, maxIdle) == Some(c)
    requires i < c.from && After(c, later, poolSize, maxIdle).Some?
    ensures var n := After(c, later, poolSize, maxIdle).value;
            i < |c.pools| && Retired(c.pools[i]) && i < n.from <= |n.pools| && Retired(n.pools[i])
  {
    InvAfter(NEW_CLIENT, trace, poolSize, maxIdle);
    assert Fine(c, i);
    StaysRetired(c, later, poolSize, maxIdle, i);
  }

  /**
   The end of a client: after its Close, once every wrapper of a pool has ended and no goroutine is
   inside it, that pool has every channel closed and all permits and counts back, whichever generation
   it belongs to; so when that is true of every pool, nothing of the client's life is left.
   */
  lemma ClosedClientLeavesNothing(c: Client, trace: seq<Event>, poolSize: int, maxIdle: int)
    requires After(NEW_CLIENT, trace, poolSize, maxIdle) == Some(c) && c.closed && c.stage.Serving?
    requires forall i :: 0 <= i < |c.pools| ==> Settled(c.pools[i])
    ensures forall i :: 0 <= i < |c.pools| ==>
              var p := c.pools[i].pool.s.p;
              p.open == {} && p.queue == [] && p.leases == map[] && p.permits == 0 && p.active == 0
  {
    InvAfter(NEW_CLIENT, trace, poolSize, maxIdle);
    forall i | 0 <= i < |c.pools|
      ensures var p := c.pools[i].pool.s.p;
              p.open == {} && p.queue == [] && p.leases == map[] && p.permits == 0 && p.active == 0
    {
      assert Kept(c.pools[i], i) && Fine(c, i) && Settled(c.pools[i]);
      C.SettledInv(c.pools[i]);
    }
  }

  /** Every wrapper of the pool has ended, and no goroutine is inside the pool. */
  predicate Settled(y: C.Sys) {
    y.pool.s.threads == map[] && forall lease :: lease in y.wrappers ==> y.wrappers[lease].log.ran != []
  }
}
