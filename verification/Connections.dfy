/**
 The connections behind the client: all-or-nothing dialling (ConnectionPool in pool.go), reconnecting
 (client.go) and the health verdict (health.go).
 */
module Connections {
  import opened Base
  import RoundRobin

  type Conn = nat

  /**
   The outside world: which connections are open. Dialling may fail, and during any dial or hang-up any
   connections may be lost; both are for good. `lost` remembers those that were lost, for the statements.
   */
  class Network {
    var live: set<Conn>
    var next: Conn
    ghost var lost: set<Conn>

    ghost predicate Valid()
      reads this
    {
      live !! lost && (forall c :: c in live ==> c < next) && (forall c :: c in lost ==> c < next)
    }

    constructor ()
      ensures Valid() && live == {} && lost == {} && next == 0
    {
      live, lost, next := {}, {}, 0;
    }

    /** The broker or the network drops some connections. */
    method Lose()
      requires Valid()
      modifies this`live, this`lost
      ensures Valid() && old(lost) <= lost && live == old(live) - lost
    {
      var dropped: set<Conn> := *;
      lost := lost + (dropped * live);
      live := live - dropped;
    }

    /** A dial, answered or not. */
    method Dial(answered: bool) returns (r: Option<Conn>)
      requires Valid()
      modifies this
      ensures Valid() && old(lost) <= lost && next == old(next) + 1
      ensures r.Some? == answered
      ensures r.None? ==> live == old(live) - lost
      ensures r.Some? ==> r.value == old(next) && live == old(live) + {r.value} - lost
    {
      next := next + 1;
      if answered {
        live := live + {next - 1};
        r := Some(next - 1);
      } else {
        r := None;
      }
      Lose();
    }

    method Hangup(c: Conn)
      requires Valid()
      modifies this`live, this`lost
      ensures Valid() && old(lost) <= lost && live == old(live) - {c} - lost
    {
      live := live - {c};
      Lose();
    }
  }

  /** The open connections among the slots. */
  function OpenSlots(slots: seq<Option<Conn>>, live: set<Conn>): set<int> {
    set i | 0 <= i < |slots| && slots[i].Some? && slots[i].value in live
  }

  function Conns(slots: seq<Option<Conn>>): set<Conn> {
    set i | 0 <= i < |slots| && slots[i].Some? :: slots[i].value
  }

  /** newConnectionPool: how many slots for a configured size and a number of URIs. */
  function SlotCount(poolSize: int, uris: nat): (n: nat)
    ensures uris > 0 ==> 1 <= n <= uris
  {
    if poolSize <= 0 || (poolSize > uris && uris > 0) then uris else poolSize
  }

  class ConnectionPool {
    var connections: seq<Option<Conn>>
    var channelPools: seq<bool>
    var closed: bool
    var current: int
    var total: int

    constructor (poolSize: int, uris: nat)
      ensures !closed && current == 0 && total == 0
      ensures |connections| == |channelPools| == SlotCount(poolSize, uris)
      ensures uris > 0 ==> |connections| == if 0 < poolSize <= uris then poolSize else uris
      ensures forall i :: 0 <= i < |connections| ==> connections[i].None? && !channelPools[i]
    {
      var n := poolSize;
      if n <= 0 {
        n := uris;
      }
      if n > uris && uris > 0 {
        n := uris;
      }
      connections := seq(n, _ => None);
      channelPools := seq(n, _ => false);
      closed, current, total := false, 0, 0;
    }

    /**
     dialAll: on success every slot has its own new connection and a channel pool, and is open unless that
     connection was lost meanwhile; on failure no connection of this attempt is open. It succeeds exactly if
     every dial is answered, and stops at the first that is not; `answers` are those of the addresses.
     */
    method DialAll(net: Network, answers: nat -> bool) returns (ok: bool)
      requires net.Valid() && |connections| == |channelPools| && total == 0
      requires forall i :: 0 <= i < |connections| ==> connections[i].None?
      modifies this`connections, this`channelPools, this`total, net
      ensures net.Valid() && |connections| == |old(connections)| == |channelPools| && net.next >= old(net.next)
      ensures old(net.lost) <= net.lost
      ensures forall i :: 0 <= i < |connections| && connections[i].Some? ==>
                old(net.next) <= connections[i].value < net.next
      ensures forall i, j :: 0 <= i < j < |connections| && connections[i].Some? && connections[j].Some?
                             ==> connections[i] != connections[j]
      ensures ok ==> net.live == old(net.live) + Conns(connections) - net.lost && total == |connections|
      ensures ok ==> forall i :: 0 <= i < |connections| ==> connections[i].Some? && channelPools[i]
      ensures ok <==> AllAnswer(answers, |connections|)
      ensures !ok ==> net.live == old(net.live) - net.lost && 0 <= total < |connections|
      ensures !ok ==> !answers(total) && forall i :: 0 <= i < total ==> answers(i)
    {
      var i := 0;
      while i < |connections|
        invariant net.Valid() && net.next >= old(net.next) && old(net.lost) <= net.lost
        invariant 0 <= i <= |connections| == |old(connections)| == |channelPools| && total == i
        invariant forall k :: 0 <= k < i ==> answers(k)
        invariant forall k :: i <= k < |connections| ==> connections[k].None?
        invariant forall k :: 0 <= k < i ==> connections[k].Some? && channelPools[k]
        invariant forall k :: 0 <= k < i ==> old(net.next) <= connections[k].value < net.next
        invariant forall k, j :: 0 <= k < j < i ==> connections[k] != connections[j]
        invariant net.live == old(net.live) + Conns(connections) - net.lost
      {
        var conn := net.Dial(answers(i));
        if conn.None? {
          HangupFirst(net, i);
          assert net.live == old(net.live) - net.lost by {
            assert Conns(connections) == set k | 0 <= k < i :: connections[k].value;
            assert forall c :: c in old(net.live) ==> c !in Conns(connections);
          }
          return false;
        }
        ghost var before := connections;
        connections := connections[i := conn];
        channelPools := channelPools[i := true];
        total := total + 1;
        assert Conns(connections) == Conns(before) + {conn.value} by {
          assert connections[i] == conn;
          assert forall k :: 0 <= k < |before| && k != i ==> connections[k] == before[k];
        }
        i := i + 1;
      }
      return true;
    }

    /** Closes the connections in the first `n` slots. */
    method HangupFirst(net: Network, n: nat)
      requires net.Valid() && n <= |connections| && forall k :: 0 <= k < n ==> connections[k].Some?
      modifies net`live, net`lost
      ensures net.Valid() && old(net.lost) <= net.lost
      ensures net.live == old(net.live) - (set k | 0 <= k < n :: connections[k].value) - net.lost
    {
      for j := 0 to n
        invariant net.Valid() && old(net.lost) <= net.lost
        invariant net.live == old(net.live) - (set k | 0 <= k < j :: connections[k].value) - net.lost
      {
        net.Hangup(connections[j].value);
      }
    }

    /** The slot the next acquisition uses; the shared counter advances. */
    method NextSlot() returns (slot: int)
      requires RoundRobin.INT32_MIN <= current <= RoundRobin.INT32_MAX
      requires 0 < |connections| <= RoundRobin.INT32_MAX
      modifies this`current
      ensures slot == RoundRobin.Slot(old(current), |connections|) && current == RoundRobin.Tick(old(current))
    {
      current := RoundRobin.Tick(current);
      slot := RoundRobin.Remainder(current, |connections|);
    }

    /** The first count of Stats. */
    method CountOpen(net: Network) returns (active: nat)
      ensures active == |OpenSlots(connections, net.live)|
    {
      active := 0;
      for i := 0 to |connections|
        invariant active == |OpenSlots(connections[..i], net.live)|
      {
        OpenSlotsNext(connections, net.live, i);
        if connections[i].Some? && connections[i].value in net.live {
          active := active + 1;
        }
      }
      assert connections[..|connections|] == connections;
    }

    /** Close: every connection of the pool is closed; the slots keep their closed connections. */
    method Close(net: Network)
      requires net.Valid()
      modifies this`closed, net`live, net`lost
      ensures net.Valid() && closed && old(net.lost) <= net.lost
      ensures old(closed) ==> net.live == old(net.live) && net.lost == old(net.lost)
      ensures !old(closed) ==> net.live == old(net.live) - Conns(connections) - net.lost
    {
      if closed {
        return;
      }
      closed := true;
      for i := 0 to |connections|
        invariant closed && net.Valid() && old(net.lost) <= net.lost
        invariant net.live == old(net.live) - Conns(connections[..i]) - net.lost
      {
        assert connections[..i + 1] == connections[..i] + [connections[i]];
        ConnsNext(connections[..i], connections[i]);
        if connections[i].Some? {
          net.Hangup(connections[i].value);
        }
      }
      assert connections[..|connections|] == connections;
    }
  }

  lemma OpenSlotsNext(slots: seq<Option<Conn>>, live: set<Conn>, i: nat)
    requires i < |slots|
    ensures |OpenSlots(slots[..i + 1], live)|
         == |OpenSlots(slots[..i], live)| + if slots[i].Some? && slots[i].value in live then 1 else 0
  {
    var before := OpenSlots(slots[..i], live);
    var open := slots[i].Some? && slots[i].value in live;
    assert OpenSlots(slots[..i + 1], live) == if open then before + {i as int} else before;
  }

  lemma ConnsNext(slots: seq<Option<Conn>>, slot: Option<Conn>)
    ensures Conns(slots + [slot]) == Conns(slots) + if slot.Some? then {slot.value} else {}
  {
    var longer := slots + [slot];
    assert longer[|slots|] == slot;
    assert forall i :: 0 <= i < |slots| ==> longer[i] == slots[i];
  }

  /** Distinct connections in all slots are as many as the slots. */
  lemma {:induction false} ConnsCount(slots: seq<Option<Conn>>)
    requires forall i :: 0 <= i < |slots| ==> slots[i].Some?
    requires forall i, j :: 0 <= i < j < |slots| ==> slots[i] != slots[j]
    ensures |Conns(slots)| == |slots|
    decreases |slots|
  {
    if slots != [] {
      var front, last := slots[..|slots| - 1], slots[|slots| - 1];
      ConnsCount(front);
      ConnsNext(front, last);
      assert slots == front + [last];
      assert last.value !in Conns(front);
    }
  }

  // ---- Health ----

  datatype HealthStatus = Up | Degraded | Down | ClosedStatus

  datatype HealthInfo = HealthInfo(status: HealthStatus, active: int, total: int)

  predicate IsOpenSlot(slot: Option<Conn>, live: set<Conn>) {
    slot.Some? && slot.value in live
  }

  lemma AllOpen(slots: seq<Option<Conn>>, live: set<Conn>)
    ensures |OpenSlots(slots, live)| <= |slots|
    ensures |OpenSlots(slots, live)| == |slots| <==> forall i :: 0 <= i < |slots| ==> IsOpenSlot(slots[i], live)
    ensures |OpenSlots(slots, live)| == 0 <==> forall i :: 0 <= i < |slots| ==> !IsOpenSlot(slots[i], live)
  {
    var all := Below(|slots|);
    assert OpenSlots(slots, live) <= all;
    SubsetSize(OpenSlots(slots, live), all);
    if |OpenSlots(slots, live)| == |slots| {
      SubsetEqual(OpenSlots(slots, live), all);
      forall i | 0 <= i < |slots| ensures IsOpenSlot(slots[i], live) {
        assert i in all;
      }
    }
    if forall i :: 0 <= i < |slots| ==> IsOpenSlot(slots[i], live) {
      assert OpenSlots(slots, live) == all;
    }
    if forall i :: 0 <= i < |slots| ==> !IsOpenSlot(slots[i], live) {
      assert OpenSlots(slots, live) == {};
    }
    forall i | 0 <= i < |slots| && IsOpenSlot(slots[i], live) ensures OpenSlots(slots, live) != {} {
      assert i in OpenSlots(slots, live);
    }
  }

  function Below(n: nat): (r: set<int>)
    ensures |r| == n && forall i :: i in r <==> 0 <= i < n
  {
    if n == 0 then {} else Below(n - 1) + {n - 1}
  }

  lemma SubsetEqual<T>(small: set<T>, large: set<T>)
    requires small <= large && |small| == |large|
    ensures small == large
  {
    assert large == small + (large - small);
  }

  // ---- The client ----

  datatype DialError = NoAddress | Refused | ClientClosed

  /** The first `n` addresses answer. */
  predicate AllAnswer(answers: nat -> bool, n: int) {
    forall i :: 0 <= i < n ==> answers(i)
  }

  /** What is live after a dial, when some of what was kept and some of what was dialled is lost. */
  lemma Renewed(kept: set<Conn>, dialled: set<Conn>, before: set<Conn>, after: set<Conn>)
    requires before <= after
    ensures kept - before + dialled - after == kept + dialled - after
    ensures dialled <= kept + dialled - after <==> dialled !! after
    ensures kept - before - after == kept - after
  {
  }

  lemma NoneShared(dialled: set<Conn>, live: set<Conn>, bound: Conn)
    requires (forall c :: c in dialled ==> bound <= c) && (forall c :: c in live ==> c < bound)
    ensures dialled !! live
  {
  }

  /** `uris` is the number of addresses the configuration lists. */
  class Client {
    const poolSize: int
    const channelPoolSize: int
    const uris: nat
    var conn: Option<Conn>
    var pool: ConnectionPool?
    var closed: bool

    /** What holds between calls: a pool in use has one slot per dialled connection. */
    ghost predicate Valid(net: Network)
      reads this, net, pool
    {
      && net.Valid()
      && (conn.Some? ==> conn.value < net.next && pool == null)
      && (pool != null ==>
            && 1 <= |pool.connections| <= uris && 0 <= pool.total <= |pool.connections|
            && (!closed ==> !pool.closed)
            && forall c :: c in Conns(pool.connections) ==> c < net.next)
    }

    predicate SingleMode() {
      poolSize <= 1 && uris == 1 && channelPoolSize <= 0
    }

    constructor (poolSize: int, channelPoolSize: int, uris: nat)
      ensures !closed && conn.None? && pool == null
      ensures this.poolSize == poolSize && this.channelPoolSize == channelPoolSize && this.uris == uris
    {
      this.poolSize, this.channelPoolSize, this.uris := poolSize, channelPoolSize, uris;
      conn, pool, closed := None, null, false;
    }

    /** The connections the client holds: its single one, or those of its pool. */
    function Held(): set<Conn>
      reads this, pool
    {
      if conn.Some? then {conn.value} else if pool != null then Conns(pool.connections) else {}
    }

    /** dial in single mode. */
    method DialSingle(net: Network, answer: bool) returns (ok: bool)
      requires Valid(net) && conn.None? && pool == null && !closed
      modifies this`conn, net
      ensures Valid(net) && pool == null && old(net.lost) <= net.lost && ok == conn.Some? == answer
      ensures ok ==> net.live == old(net.live) + Held() - net.lost && |Held()| == 1
      ensures !ok ==> net.live == old(net.live) - net.lost && Held() == {}
      ensures forall c :: c in Held() ==> old(net.next) <= c < net.next
    {
      conn := net.Dial(answer);
      ok := conn.Some?;
      assert Held() == if ok then {conn.value} else {};
    }

    /** dial in pool mode: as many connections as configured and addressed, or none. */
    method DialPool(net: Network, answers: nat -> bool) returns (ok: bool)
      requires Valid(net) && conn.None? && pool == null && !closed && uris > 0
      modifies this`pool, net
      ensures Valid(net) && pool != null && fresh(pool) && old(net.lost) <= net.lost
      ensures ok <==> AllAnswer(answers, if 0 < poolSize <= uris then poolSize else uris)
      ensures ok ==> net.live == old(net.live) + Held() - net.lost
      ensures ok ==> |Held()| == |pool.connections| == if 0 < poolSize <= uris then poolSize else uris
      ensures ok ==> forall i :: 0 <= i < |pool.connections| ==> pool.connections[i].Some?
      ensures !ok ==> net.live == old(net.live) - net.lost
      ensures Held() == Conns(pool.connections)
      ensures forall c :: c in Held() ==> old(net.next) <= c < net.next
    {
      pool := new ConnectionPool(poolSize, uris);
      ok := pool.DialAll(net, answers);
      if ok {
        ConnsCount(pool.connections);
      }
    }

    /**
     dial: a single connection, or a pool of as many as configured and addressed, all or none. It succeeds
     exactly if every address it needs answers.
     */
    method Dial(net: Network, answers: nat -> bool) returns (r: Option<DialError>)
      requires Valid(net) && conn.None? && pool == null && !closed
      modifies this`conn, this`pool, net
      ensures Valid(net) && (pool != null ==> fresh(pool)) && old(net.lost) <= net.lost
      ensures r == Some(NoAddress) <==> uris == 0
      ensures r.None? <==> uris > 0 && AllAnswer(answers, if 0 < poolSize <= uris then poolSize else uris)
      ensures r.None? ==> net.live == old(net.live) + Held() - net.lost
      ensures r.None? ==> |Held()| == if 0 < poolSize <= uris then poolSize else uris
      ensures r.None? ==> (conn.Some? <==> poolSize <= 1 && uris == 1 && channelPoolSize <= 0)
      ensures r.None? ==> (conn.None? <==> pool != null)
      ensures r.None? && pool != null ==> forall i :: 0 <= i < |pool.connections| ==> pool.connections[i].Some?
      ensures r.Some? ==> net.live == old(net.live) - net.lost && conn.None? && r.value != ClientClosed
      ensures forall c :: c in Held() ==> old(net.next) <= c < net.next
    {
      if uris == 0 {
        return Some(NoAddress);
      }
      if SingleMode() {
        var ok := DialSingle(net, answers(0));
        return if ok then None else Some(Refused);
      }
      var ok := DialPool(net, answers);
      return if ok then None else Some(Refused);
    }

    /** The verdict as the documentation defines it, from the client's connections alone. */
    ghost function Verdict(net: Network): HealthStatus
      reads this, net, pool
    {
      if closed then ClosedStatus
      else if conn.Some? then (if conn.value in net.live then Up else Down)
      else if pool == null then Down
      else if forall i :: 0 <= i < |pool.connections| ==> IsOpenSlot(pool.connections[i], net.live) then Up
      else if forall i :: 0 <= i < |pool.connections| ==> !IsOpenSlot(pool.connections[i], net.live) then Down
      else Degraded
    }

    /**
     Reconnect: what the client held is closed first, then it dials again. If that fails, no connection of
     the attempt is open and the client is down. If not, the client holds new connections, open unless lost
     meanwhile, and it is fully up exactly if none of them was lost.
     */
    method Reconnect(net: Network, answers: nat -> bool) returns (r: Option<DialError>)
      requires Valid(net)
      modifies this`conn, this`pool, net, pool
      ensures Valid(net)
      ensures r == Some(ClientClosed) <==> closed
      ensures r.None? <==> !closed && uris > 0 && AllAnswer(answers, if 0 < poolSize <= uris then poolSize else uris)
      ensures r.None? ==> |Held()| == if 0 < poolSize <= uris then poolSize else uris
      ensures r.None? ==> (conn.Some? <==> poolSize <= 1 && uris == 1 && channelPoolSize <= 0)
      ensures old(net.lost) <= net.lost
      ensures closed ==> net.live == old(net.live) && conn == old(conn) && pool == old(pool)
      ensures !closed && r.Some? ==> net.live == old(net.live) - old(Held()) - net.lost && Verdict(net) == Down
      ensures !closed && r.None? ==>
                && net.live == old(net.live) - old(Held()) + Held() - net.lost
                && (Verdict(net) == Up <==> Held() !! net.lost)
      ensures !closed ==> forall c :: c in Held() ==> old(net.next) <= c < net.next
    {
      if closed {
        return Some(ClientClosed);
      }
      LetGo(net);
      ghost var lost := net.lost;
      r := Dial(net, answers);
      Renewed(old(net.live) - old(Held()), Held(), lost, net.lost);
      if r.None? {
        VerdictUp(net);
      } else {
        NoneShared(Held(), net.live, old(net.next));
        VerdictDown(net);
      }
    }

    /** The first half of Reconnect: what the client held is closed and forgotten. */
    method LetGo(net: Network)
      requires Valid(net) && !closed
      modifies this`conn, this`pool, net`live, net`lost, pool
      ensures Valid(net) && conn.None? && pool == null && old(net.lost) <= net.lost
      ensures net.live == old(net.live) - old(Held()) - net.lost
    {
      if conn.Some? {
        net.Hangup(conn.value);
        conn := None;
      }
      if pool != null {
        pool.Close(net);
        pool := null;
      }
    }

    lemma VerdictUp(net: Network)
      requires !closed && (conn.Some? <==> pool == null)
      requires pool != null ==>
                 1 <= |pool.connections| && forall i :: 0 <= i < |pool.connections| ==> pool.connections[i].Some?
      ensures Verdict(net) == Up <==> Held() <= net.live
    {
      if pool != null {
        forall i | 0 <= i < |pool.connections| ensures pool.connections[i].value in Held() {
        }
      }
    }

    lemma VerdictDown(net: Network)
      requires !closed && conn.None? && Held() !! net.live && (pool != null ==> 1 <= |pool.connections|)
      ensures Verdict(net) == Down
    {
      if pool != null {
        forall i | 0 <= i < |pool.connections| ensures !IsOpenSlot(pool.connections[i], net.live) {
          assert pool.connections[i].Some? ==> pool.connections[i].value in Held();
        }
        assert !IsOpenSlot(pool.connections[0], net.live);
      }
    }

    method Close(net: Network)
      requires Valid(net)
      modifies this`closed, net, pool
      ensures Valid(net) && closed && conn == old(conn) && pool == old(pool)
      ensures old(net.lost) <= net.lost
      ensures old(closed) ==> net.live == old(net.live)
      ensures !old(closed) ==> net.live == old(net.live) - old(Held()) - net.lost
    {
      if closed {
        return;
      }
      closed := true;
      if conn.Some? {
        net.Hangup(conn.value);
      }
      if pool != null {
        pool.Close(net);
      }
    }

    method HealthStatus(net: Network) returns (h: HealthInfo)
      requires Valid(net)
      ensures h.status == Verdict(net)
      ensures h.status == ClosedStatus <==> closed
      ensures !closed && conn.Some? ==>
                && h.total == 1 && h.active == (if conn.value in net.live then 1 else 0)
                && h.status == if conn.value in net.live then Up else Down
      ensures closed || (conn.None? && pool == null) ==> h.active == h.total == 0
      ensures !closed && pool != null ==>
                && h.active == |OpenSlots(pool.connections, net.live)| && h.total == |pool.connections|
                && (h.status == Up <==> h.active == h.total)
                && (h.status == Down <==> h.active == 0)
                && (h.status == Degraded <==> 0 < h.active < h.total)
    {
      if closed {
        return HealthInfo(ClosedStatus, 0, 0);
      }
      if conn.Some? {
        return if conn.value !in net.live then HealthInfo(Down, 0, 1) else HealthInfo(Up, 1, 1);
      }
      if pool == null {
        return HealthInfo(Down, 0, 0);
      }
      AllOpen(pool.connections, net.live);
      var active := pool.CountOpen(net);
      var total := if |pool.connections| > pool.total then |pool.connections| else pool.total;
      if pool.closed {
        return HealthInfo(ClosedStatus, active, total);
      }
      if total == 0 {
        return HealthInfo(Down, 0, 0);
      }
      if active == 0 {
        return HealthInfo(Down, active, total);
      }
      if active < total {
        return HealthInfo(Degraded, active, total);
      }
      return HealthInfo(Up, active, total);
    }

    /** Health: at least one usable connection. */
    method Health(net: Network) returns (ok: bool)
      requires Valid(net)
      ensures ok <==> !closed && Held() * net.live != {}
    {
      var h := HealthStatus(net);
      ok := h.status == Up || h.status == Degraded;
      if conn.Some? {
        assert conn.value in net.live ==> conn.value in Held() * net.live;
      } else if pool != null {
        AllOpen(pool.connections, net.live);
        if i :| 0 <= i < |pool.connections| && IsOpenSlot(pool.connections[i], net.live) {
          assert pool.connections[i].value in Held() * net.live;
        } else {
          assert Conns(pool.connections) * net.live == {};
        }
      }
    }
  }
}
