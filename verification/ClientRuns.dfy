/**
 That a client can really do what Generations says is safe: from every state in which it serves and nobody
 is inside its present pools, Reconnect and Close run to their end, whatever leases are still out.
 */
module ClientRuns {
  import opened Base
  import P = PoolProtocol
  import S = PoolSafety
  import C = PooledChannel
  import K = ChannelPool
  import Q = PoolSequential
  import opened Generations

  lemma {:induction false} Joined(c: Client, first: seq<Event>, second: seq<Event>, poolSize: int, maxIdle: int)
    requires After(c, first, poolSize, maxIdle).Some?
    ensures After(c, first + second, poolSize, maxIdle)
         == After(After(c, first, poolSize, maxIdle).value, second, poolSize, maxIdle)
    decreases |first|
  {
    if first == [] {
      assert first + second == second;
    } else {
      assert (first + second)[1..] == first[1..] + second;
      Joined(Do(c, first[0], poolSize, maxIdle), first[1..], second, poolSize, maxIdle);
    }
  }

  lemma OneStep(c: Client, e: Event, poolSize: int, maxIdle: int)
    requires Can(c, e)
    ensures After(c, [e], poolSize, maxIdle) == Some(Do(c, e, poolSize, maxIdle))
  {
    assert [e][1..] == [];
  }

  /** The client with the pool part of pool `i` replaced. */
  function WithPool(c: Client, i: nat, pool: P.Sys): Client
    requires i < |c.pools|
  {
    c.(pools := c.pools[i := c.pools[i].(pool := pool)])
  }

  /** Steps of a goroutine inside Close, taken within the client. */
  lemma {:induction false} CloseInside(
      c: Client, i: nat, trace: seq<P.Event>, t: Tid, poolSize: int, maxIdle: int) returns (more: seq<Event>)
    requires i < |c.pools| && P.After(c.pools[i].pool, trace).Some?
    requires forall j :: 0 <= j < |trace| ==> Q.Own(trace[j], t)
    requires t in c.pools[i].pool.s.threads ==> Stops(c.pools[i].pool.s.threads[t])
    ensures After(c, more, poolSize, maxIdle) == Some(WithPool(c, i, P.After(c.pools[i].pool, trace).value))
    decreases |trace|
  {
    if trace == [] {
      more := [];
      assert c.pools == c.pools[i := c.pools[i]];
    } else {
      var e, x := trace[0], c.pools[i].pool;
      RunConfined(x.s.p, t, x.s.threads[t], e.choice);
      StillStops(x.s.p, t, x.s.threads[t], e.choice);
      var n := Do(c, Inside(i, C.InPool(e)), poolSize, maxIdle);
      assert n == WithPool(c, i, P.Do(x, e));
      var rest := CloseInside(n, i, trace[1..], t, poolSize, maxIdle);
      more := [Inside(i, C.InPool(e))] + rest;
      assert more[1..] == rest;
      assert n.pools[i := n.pools[i].(pool := P.After(x, trace).value)]
          == c.pools[i := c.pools[i].(pool := P.After(x, trace).value)];
    }
  }

  /** A goroutine inside Close stays there until it leaves. */
  lemma StillStops(p: P.Pool, t: Tid, pc: P.PC, choice: P.Choice)
    requires P.CanRun(p, pc, choice) && Stops(pc)
    ensures P.RunStep(p, t, pc, choice).1.Some? ==> Stops(P.RunStep(p, t, pc, choice).1.value)
  {
    match pc
    case InClose(at) => assert P.CloseStep(p, t, at).1.Some? ==> Stops(P.CloseStep(p, t, at).1.value);
    case InPermit(at) => assert P.PermitStep(p, at).1.Some? ==> Stops(P.PermitStep(p, at).1.value);
  }

  /** What closing may change of a client: its pools, but neither their number nor any lease or wrapper. */
  ghost predicate SameLeases(c: Client, n: Client) {
    && n.from == c.from && n.closed == c.closed && |n.pools| == |c.pools|
    && forall i :: 0 <= i < |c.pools| ==>
         n.pools[i].wrappers == c.pools[i].wrappers && n.pools[i].pool.s.p.leases == c.pools[i].pool.s.p.leases
  }

  lemma SameOn(a: Client, b: Client, c: Client)
    requires SameLeases(a, b) && SameLeases(b, c)
    ensures SameLeases(a, c)
  {
  }

  ghost predicate QuietFrom(c: Client, k: nat) {
    forall i :: k <= i < |c.pools| ==> c.pools[i].pool.s.threads == map[]
  }

  /** The pools from `k` on are sound, with nobody inside. */
  ghost predicate Closable(c: Client, k: nat) {
    forall i :: k <= i < |c.pools| ==> c.pools[i].pool.s.threads == map[] && S.Inv(c.pools[i].pool)
  }

  lemma QuietClosable(c: Client)
    requires Inv(c) && QuietFrom(c, c.from)
    ensures Closable(c, c.from)
  {
    forall i | c.from <= i < |c.pools| ensures S.Inv(c.pools[i].pool) {
      assert Kept(c.pools[i], i);
    }
  }

  /** The steps of Close, after its beginning, on a pool with nobody inside. */
  lemma CloseSteps(y: P.Sys, t: Tid) returns (trace: seq<P.Event>)
    requires S.Inv(y) && y.s.threads == map[]
    ensures P.After(P.Do(y, P.Begin(t, P.Close)), trace).Some?
    ensures P.After(P.Do(y, P.Begin(t, P.Close)), trace).value.s.threads == map[]
    ensures P.After(P.Do(y, P.Begin(t, P.Close)), trace).value.s.p.leases == y.s.p.leases
    ensures var z := P.Do(y, P.Begin(t, P.Close)).s;
            t in z.threads && Stops(z.threads[t]) && z.p.leases == y.s.p.leases
    ensures forall j :: 0 <= j < |trace| ==> Q.Own(trace[j], t)
  {
    Q.RestsAlone(y);
    Q.CloseIsSchedule(y.s.p, t);
    var origin := Q.Origin(y.s.p, P.Begin(t, P.Close));
    var call :| Q.CallTrace(origin, call, K.Closed(y.s.p), t, None, false);
    Q.LogIsHistory(Q.Bare(origin), y, call);
    trace := call[1..];
    forall j | 0 <= j < |trace| ensures Q.Own(trace[j], t) {
      assert Q.Own(call[j + 1], t);
    }
  }

  lemma Prepended(c: Client, e: Event, rest: seq<Event>, poolSize: int, maxIdle: int)
    requires Can(c, e)
    ensures After(c, [e] + rest, poolSize, maxIdle) == After(Do(c, e, poolSize, maxIdle), rest, poolSize, maxIdle)
  {
    assert ([e] + rest)[1..] == rest;
  }

  /** The end of a Close that took the pool to `pool`. */
  lemma ClosePasses(c: Client, k: nat, redial: bool, pool: P.Sys, poolSize: int, maxIdle: int)
    requires k < |c.pools| && c.stage.Draining? && c.stage.pool == k && c.stage.redial == redial
    requires c.stage.t !in pool.s.threads && pool.s.p.leases == c.pools[k].pool.s.p.leases
    ensures Can(WithPool(c, k, pool), EndClose)
    ensures var n := Do(WithPool(c, k, pool), EndClose, poolSize, maxIdle);
            && n.stage == Stopping(k + 1, redial) && SameLeases(c, n)
            && forall i :: 0 <= i < |c.pools| && i != k ==> n.pools[i] == c.pools[i]
  {
  }

  lemma StartKeeps(c: Client, t: Tid, poolSize: int, maxIdle: int)
    requires Can(c, StartClose(t))
    ensures var n, k := Do(c, StartClose(t), poolSize, maxIdle), c.stage.next;
            && SameLeases(c, n) && n.stage == Draining(k, t, c.stage.redial)
            && n.pools[k].pool == P.Do(c.pools[k].pool, P.Begin(t, P.Close))
            && forall i :: 0 <= i < |c.pools| && i != k ==> n.pools[i] == c.pools[i]
  {
  }

  /** Close of one pool with nobody inside, from beginning to end. */
  lemma CloseOne(c: Client, k: nat, redial: bool, t: Tid, poolSize: int, maxIdle: int) returns (more: seq<Event>)
    requires c.stage == Stopping(k, redial) && k < |c.pools| && Closable(c, k)
    ensures After(c, more, poolSize, maxIdle).Some?
    ensures var n := After(c, more, poolSize, maxIdle).value;
            && n.stage == Stopping(k + 1, redial) && SameLeases(c, n)
            && forall i :: 0 <= i < |c.pools| && i != k ==> n.pools[i] == c.pools[i]
  {
    var started := Do(c, StartClose(t), poolSize, maxIdle);
    StartKeeps(c, t, poolSize, maxIdle);
    var trace := CloseSteps(c.pools[k].pool, t);
    var rest := CloseRest(started, k, redial, trace, poolSize, maxIdle);
    Prepended(c, StartClose(t), rest, poolSize, maxIdle);
    SameOn(c, started, After(started, rest, poolSize, maxIdle).value);
    more := [StartClose(t)] + rest;
  }

  lemma CloseRest(c: Client, k: nat, redial: bool, trace: seq<P.Event>, poolSize: int, maxIdle: int)
    returns (more: seq<Event>)
    requires k < |c.pools| && c.stage.Draining? && c.stage.pool == k && c.stage.redial == redial
    requires var t, y := c.stage.t, c.pools[k].pool;
             && t in y.s.threads && Stops(y.s.threads[t]) && P.After(y, trace).Some?
             && P.After(y, trace).value.s.threads == map[] && P.After(y, trace).value.s.p.leases == y.s.p.leases
             && forall j :: 0 <= j < |trace| ==> Q.Own(trace[j], t)
    ensures After(c, more, poolSize, maxIdle).Some?
    ensures var n := After(c, more, poolSize, maxIdle).value;
            && n.stage == Stopping(k + 1, redial) && SameLeases(c, n)
            && forall i :: 0 <= i < |c.pools| && i != k ==> n.pools[i] == c.pools[i]
  {
    var pool := P.After(c.pools[k].pool, trace).value;
    var inside := CloseInside(c, k, trace, c.stage.t, poolSize, maxIdle);
    ClosePasses(c, k, redial, pool, poolSize, maxIdle);
    OneStep(WithPool(c, k, pool), EndClose, poolSize, maxIdle);
    Joined(c, inside, [EndClose], poolSize, maxIdle);
    more := inside + [EndClose];
  }

  lemma {:induction false} CloseAll(c: Client, k: nat, redial: bool, t: Tid, poolSize: int, maxIdle: int)
    returns (more: seq<Event>)
    requires c.stage == Stopping(k, redial) && k <= |c.pools| && Closable(c, k)
    ensures After(c, more, poolSize, maxIdle).Some?
    ensures var n := After(c, more, poolSize, maxIdle).value;
            n.stage == Stopping(|c.pools|, redial) && SameLeases(c, n)
    decreases |c.pools| - k
  {
    if k == |c.pools| {
      more := [];
    } else {
      var first := CloseOne(c, k, redial, t, poolSize, maxIdle);
      var n := After(c, first, poolSize, maxIdle).value;
      var rest := CloseAll(n, k + 1, redial, t, poolSize, maxIdle);
      Joined(c, first, rest, poolSize, maxIdle);
      SameOn(c, n, After(n, rest, poolSize, maxIdle).value);
      more := first + rest;
    }
  }

  lemma {:induction false} HangUpAll(c: Client, k: nat, redial: bool, poolSize: int, maxIdle: int)
    returns (more: seq<Event>)
    requires c.stage == HangingUp(k, redial) && k <= |c.pools|
    ensures After(c, more, poolSize, maxIdle).Some?
    ensures var n := After(c, more, poolSize, maxIdle).value;
            n.stage == HangingUp(|c.pools|, redial) && SameLeases(c, n)
    decreases |c.pools| - k
  {
    if k == |c.pools| {
      more := [];
    } else {
      var n := Do(c, HangUp, poolSize, maxIdle);
      var rest := HangUpAll(n, k + 1, redial, poolSize, maxIdle);
      more := [HangUp] + rest;
      assert more[1..] == rest;
    }
  }

  /** Reconnect and Close up to the point where everything held before is closed and hung up. */
  lemma LetsGo(c: Client, redial: bool, t: Tid, poolSize: int, maxIdle: int) returns (more: seq<Event>)
    requires Inv(c) && c.stage.Serving? && !c.closed && QuietFrom(c, c.from)
    ensures After(c, more, poolSize, maxIdle).Some?
    ensures var n := After(c, more, poolSize, maxIdle).value;
            && n.closed == !redial && n.stage == (if redial then Dialling else Serving)
            && n.from == |n.pools| == |c.pools| && SameLeases(c.(from := n.from, closed := n.closed), n)
  {
    var a := Do(c, Stop(redial), poolSize, maxIdle);
    OneStep(c, Stop(redial), poolSize, maxIdle);
    QuietClosable(c);
    var closing := CloseAll(a, c.from, redial, t, poolSize, maxIdle);
    Joined(c, [Stop(redial)], closing, poolSize, maxIdle);
    var b := After(a, closing, poolSize, maxIdle).value;
    OneStep(b, PoolsClosed, poolSize, maxIdle);
    var d := Do(b, PoolsClosed, poolSize, maxIdle);
    var hanging := HangUpAll(d, d.from, redial, poolSize, maxIdle);
    Joined(b, [PoolsClosed], hanging, poolSize, maxIdle);
    var e := After(d, hanging, poolSize, maxIdle).value;
    OneStep(e, HungUp, poolSize, maxIdle);
    Joined(b, [PoolsClosed] + hanging, [HungUp], poolSize, maxIdle);
    Joined(c, [Stop(redial)] + closing, [PoolsClosed] + hanging + [HungUp], poolSize, maxIdle);
    more := [Stop(redial)] + closing + ([PoolsClosed] + hanging + [HungUp]);
  }

  /**
   From every state of a client's life in which it serves and nobody is inside its present pools, Reconnect
   can run to its end with any number of new pools, and Close to its; leases of old pools stay out meanwhile.
   */
  lemma ReconnectCompletes(
      c: Client, trace: seq<Event>, poolSize: int, maxIdle: int, t: Tid, count: nat) returns (more: seq<Event>)
    requires After(NEW_CLIENT, trace, poolSize, maxIdle) == Some(c)
    requires c.stage.Serving? && !c.closed && QuietFrom(c, c.from)
    ensures After(c, more, poolSize, maxIdle).Some?
    ensures var n := After(c, more, poolSize, maxIdle).value;
            && n.stage.Serving? && !n.closed && n.from == |c.pools| && |n.pools| == |c.pools| + count
            && forall i :: 0 <= i < |c.pools| ==> n.pools[i].pool.s.p.leases == c.pools[i].pool.s.p.leases
  {
    InvAfter(NEW_CLIENT, trace, poolSize, maxIdle);
    more := LetsGo(c, true, t, poolSize, maxIdle);
    var m := After(c, more, poolSize, maxIdle).value;
    OneStep(m, Dialled(count), poolSize, maxIdle);
    Joined(c, more, [Dialled(count)], poolSize, maxIdle);
    more := more + [Dialled(count)];
  }

  lemma CloseCompletes(c: Client, trace: seq<Event>, poolSize: int, maxIdle: int, t: Tid) returns (more: seq<Event>)
    requires After(NEW_CLIENT, trace, poolSize, maxIdle) == Some(c)
    requires c.stage.Serving? && !c.closed && QuietFrom(c, c.from)
    ensures After(c, more, poolSize, maxIdle).Some?
    ensures var n := After(c, more, poolSize, maxIdle).value;
            && n.stage.Serving? && n.closed && n.from == |n.pools| == |c.pools|
            && forall i :: 0 <= i < |c.pools| ==> n.pools[i].pool.s.p.leases == c.pools[i].pool.s.p.leases
  {
    InvAfter(NEW_CLIENT, trace, poolSize, maxIdle);
    more := LetsGo(c, false, t, poolSize, maxIdle);
  }
}
