/**
 `ChannelPool` (pool.go) as the object it is, its methods called by one goroutine at a time. Each
 method meets a specification on the pool as a value; PoolSequential shows that each such
 specification is a schedule of the step machine, so that what holds in every schedule holds here.
 */
module ChannelPool {
  import opened Base
  import P = PoolProtocol
  import V = PoolInvariant

  /** How Acquire ends. Blocked: only the context, a return, or Close could end the call. */
  datatype Outcome = Leased(ch: Ch) | PoolClosed | Cancelled | OpenFailed | OptionsFailed | Blocked

  /** What a call of Acquire meets: is its context done, does the broker open a channel, do the options refuse it. */
  datatype World = World(done: bool, opens: bool, refuses: bool)

  /** How many channels at the front of the idle queue are closed. */
  function DeadPrefix(q: seq<Ch>, open: set<Ch>): (n: nat)
    ensures n <= |q|
    ensures forall i :: 0 <= i < n ==> q[i] !in open
    ensures n < |q| ==> q[n] in open
  {
    if q == [] || q[0] in open then 0 else 1 + DeadPrefix(q[1..], open)
  }

  lemma {:induction false} DeadPrefixAt(q: seq<Ch>, open: set<Ch>, n: nat)
    requires n <= |q| && (forall i :: 0 <= i < n ==> q[i] !in open) && (n < |q| ==> q[n] in open)
    ensures DeadPrefix(q, open) == n
  {
    if n > 0 {
      DeadPrefixAt(q[1..], open, n - 1);
    }
  }

  // ---- Specifications on the pool as a value ----

  /** releasePermit. */
  function PermitReleased(p: P.Pool): P.Pool {
    p.(permits := if p.permits > 0 then p.permits - 1 else 0, active := if p.active > 0 then p.active - 1 else p.active)
  }

  /** The first `k` idle channels dropped, each with its token. */
  function WithoutIdle(p: P.Pool, k: nat): P.Pool
    requires k <= |p.queue| && k <= p.permits
  {
    p.(queue := p.queue[k..], permits := p.permits - k, active := p.active - k)
  }

  /** `ch` leased, counted as acquired. */
  function LeasedOut(p: P.Pool, ch: Ch): P.Pool {
    p.(leases := p.leases[p.nextLease := ch], nextLease := p.nextLease + 1,
       stats := p.stats.(acquired := p.stats.acquired + 1))
  }

  /** A new channel opened under a new token, and counted as created. */
  function WithNew(p: P.Pool): P.Pool {
    p.(permits := p.permits + 1, active := p.active + 1, next := p.next + 1,
       open := p.open + {Ch(p.config.conn, p.next)}, stats := p.stats.(created := p.stats.created + 1))
  }

  /** A new channel opened and closed again because the channel options refused it: both counters keep it. */
  function WithRefused(p: P.Pool): P.Pool {
    p.(next := p.next + 1,
       stats := p.stats.(acquired := p.stats.acquired + 1, created := p.stats.created + 1))
  }

  /** The outcomes of Acquire on pool `p`, with the pool each leaves. */
  predicate Acquires(p: P.Pool, w: World, r: Outcome, n: P.Pool)
    requires |p.queue| <= p.permits
  {
    var dead := DeadPrefix(p.queue, p.open);
    var empty := dead == |p.queue| && !w.done && !p.closed;
    var room := p.permits - dead < p.config.poolSize;
    match r
    case PoolClosed => p.closed && n == p
    case Cancelled => !p.closed && w.done && exists k :: 0 <= k <= dead && n == WithoutIdle(p, k)
    case Leased(ch) =>
      !p.closed && if dead < |p.queue|
                   then ch == p.queue[dead] && n == LeasedOut(WithoutIdle(p, dead).(queue := p.queue[dead + 1..]), ch)
                   else empty && room && w.opens && !w.refuses && ch == Ch(p.config.conn, p.next)
                        && n == LeasedOut(WithNew(WithoutIdle(p, dead)), ch)
    case OpenFailed => empty && room && !w.opens && n == WithoutIdle(p, dead)
    case OptionsFailed => empty && room && w.opens && w.refuses && n == WithRefused(WithoutIdle(p, dead))
    case Blocked => empty && !room && n == p
  }

  /** release, for a lease. */
  function Released(p: P.Pool, lease: P.Lease): P.Pool
    requires lease in p.leases
  {
    var ch := p.leases[lease];
    var q := p.(leases := p.leases - {lease});
    if p.closed || (ch in p.open && (p.detached || |p.queue| >= p.config.maxIdle))
    then PermitReleased(q.(open := p.open - {ch}))
    else if ch in p.open then q.(queue := p.queue + [ch], stats := p.stats.(returned := p.stats.returned + 1))
    else PermitReleased(q)
  }

  /** discard, for a lease. */
  function Discarded(p: P.Pool, lease: P.Lease): P.Pool
    requires lease in p.leases
  {
    PermitReleased(p.(leases := p.leases - {lease}, open := p.open - {p.leases[lease]}))
  }

  /** Close: every idle channel is closed and its token taken back. */
  function Closed(p: P.Pool): P.Pool
    requires |p.queue| <= p.permits
  {
    if p.closed then p
    else WithoutIdle(p, |p.queue|).(closed := true, queueClosed := true, detached := true,
                                    open := p.open - set c | c in p.queue)
  }

  /** What holds of the pool between calls. */
  ghost predicate AtRest(p: P.Pool) {
    && V.Bounded(p)
    && p.permits == p.active == |p.queue| + |p.leases|
    && (forall lease :: lease in p.leases ==> lease < p.nextLease)
    && (forall c :: c in p.open ==> c.serial < p.next)
    && p.queueClosed == p.detached == p.closed && (p.closed ==> p.queue == [])
  }

  /** Acquire keeps the pool at rest, and blocks exactly when every permit is out on a lease. */
  lemma AcquiresAtRest(p: P.Pool, w: World, r: Outcome, n: P.Pool)
    requires AtRest(p) && Acquires(p, w, r, n)
    ensures AtRest(n)
    ensures r.Blocked? <==> !w.done && !p.closed && p.queue == [] && |p.leases| == p.config.poolSize
  {
    if r.Leased? {
      assert p.nextLease !in p.leases;
      assert |p.leases[p.nextLease := r.ch]| == |p.leases| + 1;
    }
  }

  // ---- What the calls mean ----

  /** The first live channel of the idle queue is at `i`. */
  predicate FirstLive(q: seq<Ch>, open: set<Ch>, i: int) {
    0 <= i < |q| && q[i] in open && forall j :: 0 <= j < i ==> q[j] !in open
  }

  /** An outcome that leases `ch`: one lease and one acquisition more. */
  predicate Leases(p: P.Pool, n: P.Pool, ch: Ch) {
    n.leases == p.leases[p.nextLease := ch] && n.nextLease == p.nextLease + 1
    && n.stats.acquired == p.stats.acquired + 1 && n.stats.returned == p.stats.returned
  }

  /** Only a closed pool refuses, and only a done context cancels. */
  lemma AcquireRefusals(p: P.Pool, w: World, r: Outcome, n: P.Pool)
    requires AtRest(p) && Acquires(p, w, r, n)
    ensures r.PoolClosed? <==> p.closed
    ensures r.Cancelled? ==> w.done
    ensures r.PoolClosed? || r.Cancelled? || r.Blocked? ==>
              n.open == p.open && n.leases == p.leases && n.stats == p.stats && n.next == p.next
  {
  }

  /** With a live idle channel and a context not done, Acquire leases the first such channel, and opens none. */
  lemma AcquireReuses(p: P.Pool, w: World, r: Outcome, n: P.Pool, i: int)
    requires AtRest(p) && Acquires(p, w, r, n)
    requires !p.closed && !w.done && FirstLive(p.queue, p.open, i)
    ensures r == Leased(p.queue[i]) && Leases(p, n, p.queue[i]) && n.queue == p.queue[i + 1..]
    ensures n.open == p.open && n.next == p.next && n.stats.created == p.stats.created
  {
    DeadPrefixAt(p.queue, p.open, i);
  }

  /**
   With no live idle channel, an open pool and a context not done: every permit leased means waiting;
   otherwise the broker and the options decide, and a new channel is leased exactly if both agree.
   */
  lemma AcquireOpens(p: P.Pool, w: World, r: Outcome, n: P.Pool)
    requires AtRest(p) && Acquires(p, w, r, n)
    requires !p.closed && !w.done && forall i :: 0 <= i < |p.queue| ==> p.queue[i] !in p.open
    ensures |p.leases| == p.config.poolSize ==> r == Blocked && n == p
    ensures |p.leases| < p.config.poolSize ==> n.queue == []
    ensures |p.leases| < p.config.poolSize && !w.opens ==>
              r == OpenFailed && n.open == p.open && n.leases == p.leases && n.stats == p.stats
    ensures |p.leases| < p.config.poolSize && w.opens && w.refuses ==>
              && r == OptionsFailed && n.open == p.open && n.leases == p.leases
              && n.stats == P.Stats(p.stats.acquired + 1, p.stats.returned, p.stats.created + 1)
    ensures |p.leases| < p.config.poolSize && w.opens && !w.refuses ==>
              && r.Leased? && r.ch !in p.open && n.open == p.open + {r.ch} && Leases(p, n, r.ch)
              && n.stats.created == p.stats.created + 1
  {
    DeadPrefixAt(p.queue, p.open, |p.queue|);
    assert p.queue[|p.queue|..] == [];
  }

  /** Some outcome is always possible, whatever the call meets. */
  lemma AcquireAnswers(p: P.Pool, w: World) returns (r: Outcome, n: P.Pool)
    requires AtRest(p)
    ensures Acquires(p, w, r, n)
  {
    var dead := DeadPrefix(p.queue, p.open);
    var q := WithoutIdle(p, dead);
    if p.closed {
      return PoolClosed, p;
    } else if w.done {
      return Cancelled, WithoutIdle(p, 0);
    } else if dead < |p.queue| {
      return Leased(p.queue[dead]), LeasedOut(q.(queue := p.queue[dead + 1..]), p.queue[dead]);
    } else if p.permits - dead >= p.config.poolSize {
      return Blocked, p;
    } else if !w.opens {
      return OpenFailed, q;
    } else if w.refuses {
      return OptionsFailed, WithRefused(q);
    }
    return Leased(Ch(p.config.conn, p.next)), LeasedOut(WithNew(q), Ch(p.config.conn, p.next));
  }

  /**
   release: a live channel returned to an open pool with room becomes the last idle one, still open, and is
   counted; any other is closed, and its permit is free.
   */
  lemma ReleaseMeans(p: P.Pool, lease: P.Lease)
    requires AtRest(p) && lease in p.leases
    ensures var n, ch := Released(p, lease), p.leases[lease];
            && n.leases == p.leases - {lease} && n.closed == p.closed
            && n.stats.acquired == p.stats.acquired && n.stats.created == p.stats.created
            && if !p.closed && ch in p.open && |p.queue| < p.config.maxIdle
               then n.queue == p.queue + [ch] && n.open == p.open && n.stats.returned == p.stats.returned + 1
                    && n.permits == p.permits
               else n.queue == p.queue && n.open == p.open - {ch} && n.stats.returned == p.stats.returned
                    && n.permits == p.permits - 1
  {
    assert p.leases.Keys != {};
  }

  class ChannelPool {
    const config: P.Config
    var channels: seq<Ch>
    var channelsClosed: bool
    var channelsNil: bool
    var permits: nat
    var closed: bool
    var active: int
    var acquired: int
    var returned: int
    var created: int
    // The broker's side: which channels of this pool are open, and how many were opened.
    var open: set<Ch>
    var next: nat
    // The leases whose callbacks are still unused.
    ghost var leases: map<P.Lease, Ch>
    ghost var nextLease: P.Lease

    ghost function View(): P.Pool
      reads this
    {
      P.Pool(config, channels, channelsClosed, channelsNil, permits, None, closed, active,
             P.Stats(acquired, returned, created), open, next, false, leases, nextLease)
    }

    ghost predicate Valid()
      reads this
    {
      AtRest(View())
    }

    constructor (conn: nat, channelPoolSize: int, channelPoolMaxIdle: int)
      ensures Valid() && View() == P.New(conn, channelPoolSize, channelPoolMaxIdle)
      ensures config.conn == conn && !closed && channels == [] && open == {} && leases == map[]
      ensures config.poolSize == if channelPoolSize > 0 then channelPoolSize else 1
      ensures 0 < channelPoolMaxIdle <= config.poolSize ==> config.maxIdle == channelPoolMaxIdle
      ensures !(0 < channelPoolMaxIdle <= config.poolSize) ==> config.maxIdle == config.poolSize
    {
      var poolSize := if channelPoolSize <= 0 then 1 else channelPoolSize;
      var maxIdle := channelPoolMaxIdle;
      if maxIdle <= 0 {
        maxIdle := poolSize;
      }
      if maxIdle > poolSize {
        maxIdle := poolSize;
      }
      config := P.Config(conn, poolSize, maxIdle);
      channels, channelsClosed, channelsNil := [], false, false;
      permits, closed, active := 0, false, 0;
      acquired, returned, created := 0, 0, 0;
      open, next := {}, 0;
      leases, nextLease := map[], 0;
    }

    /** A receive from the semaphore that never blocks, then the compare-and-swap loop on `active`. */
    method ReleasePermit()
      modifies this`permits, this`active
      ensures View() == PermitReleased(old(View()))
    {
      if permits > 0 {
        permits := permits - 1;
      }
      var done := false;
      while !done
        invariant permits == if old(permits) > 0 then old(permits) - 1 else 0
        invariant active == if done && old(active) > 0 then old(active) - 1 else old(active)
        decreases !done
      {
        var seen := active;
        if seen <= 0 {
          done := true;
        } else if active == seen {
          active := seen - 1;
          done := true;
        }
      }
    }

    /** A send to the semaphore that never blocks. */
    method AcquirePermit() returns (ok: bool)
      modifies this`permits, this`active
      ensures ok <==> old(permits) < config.poolSize
      ensures View() == if ok then old(View()).(permits := old(permits) + 1, active := old(active) + 1) else old(View())
    {
      ok := permits < config.poolSize;
      if ok {
        permits := permits + 1;
        active := active + 1;
      }
    }

    /**
     Acquire, from the snapshot loop to the lease. The select's choice between a done context and a ready
     idle channel is not determined.
     */
    method Acquire(w: World) returns (r: Outcome)
      requires Valid()
      modifies this
      ensures Valid() && Acquires(old(View()), w, r, View())
      ensures r.PoolClosed? <==> old(closed)
      ensures r.Cancelled? ==> w.done
      ensures r.Blocked? <==> !w.done && !old(closed) && old(channels) == [] && |old(leases)| == config.poolSize
      ensures !old(closed) && !w.done ==>
                forall i :: FirstLive(old(channels), old(open), i) ==>
                  && r == Leased(old(channels)[i]) && channels == old(channels)[i + 1..]
                  && open == old(open) && next == old(next)
    {
      r := AcquireLoop(w);
      ghost var before, after := old(View()), View();
      AcquiresAtRest(before, w, r, after);
      AcquireRefusals(before, w, r, after);
      if !old(closed) && !w.done {
        forall i | FirstLive(old(channels), old(open), i)
          ensures r == Leased(old(channels)[i]) && channels == old(channels)[i + 1..]
          ensures open == old(open) && next == old(next)
        {
          AcquireReuses(before, w, r, after, i);
        }
      }
    }

    method AcquireLoop(w: World) returns (r: Outcome)
      requires Valid()
      modifies this
      ensures Acquires(old(View()), w, r, View())
    {
      ghost var before := View();
      ghost var k: nat := 0;
      while true
        invariant k <= DeadPrefix(before.queue, before.open) && View() == WithoutIdle(before, k)
        decreases |channels|
      {
        if closed {
          return PoolClosed;
        }
        var pickContext: bool := *;
        if w.done && (pickContext || channels == []) {
          return Cancelled;
        }
        if channels != [] {
          var ch := channels[0];
          channels := channels[1..];
          if ch in open {
            DeadPrefixAt(before.queue, before.open, k);
            LeaseIdle(ch);
            return Leased(ch);
          }
          ReleasePermit();
          k := k + 1;
          continue;
        }
        r := TakePermit(w);
        return;
      }
    }

    method LeaseIdle(ch: Ch)
      modifies this`acquired, this`leases, this`nextLease
      ensures View() == LeasedOut(old(View()), ch)
    {
      acquired := acquired + 1;
      leases, nextLease := leases[nextLease := ch], nextLease + 1;
    }

    /** With nothing idle: open a channel if there is a permit; else only the blocking select is left. */
    method TakePermit(w: World) returns (r: Outcome)
      requires permits == active && forall c :: c in open ==> c.serial < next
      modifies this
      ensures r.Blocked? <==> old(permits) >= config.poolSize
      ensures match r
              case Leased(ch) =>
                && w.opens && !w.refuses && ch == Ch(config.conn, old(next))
                && View() == LeasedOut(WithNew(old(View())), ch)
              case OpenFailed => !w.opens && View() == old(View())
              case OptionsFailed => w.opens && w.refuses && View() == WithRefused(old(View()))
              case Blocked => View() == old(View())
              case _ => false
    {
      var ok := AcquirePermit();
      if !ok {
        return Blocked;
      }
      r := Open(w);
    }

    /** Opening a channel under a permit just taken. */
    method Open(w: World) returns (r: Outcome)
      requires permits > 0 && active > 0 && (forall c :: c in open ==> c.serial < next)
      modifies this
      ensures var p := old(View());
              var untaken := p.(permits := p.permits - 1, active := p.active - 1);
              match r
              case Leased(ch) =>
                && w.opens && !w.refuses && ch == Ch(p.config.conn, p.next)
                && View() == LeasedOut(WithNew(untaken), ch)
              case OpenFailed => !w.opens && View() == untaken
              case OptionsFailed => w.opens && w.refuses && View() == WithRefused(untaken)
              case _ => false
    {
      if !w.opens {
        ReleasePermit();
        return OpenFailed;
      }
      var ch := Ch(config.conn, next);
      open, next := open + {ch}, next + 1;
      acquired := acquired + 1;
      created := created + 1;
      var ok := RunOptions(ch, w.refuses);
      if !ok {
        assert open == old(open);
        return OptionsFailed;
      }
      return Leased(ch);
    }

    /** The channel options run on a new channel: a refusal closes it and frees its permit. */
    method RunOptions(ch: Ch, refuses: bool) returns (ok: bool)
      requires permits > 0 && active > 0
      modifies this
      ensures ok == !refuses
      ensures var p := old(View());
              View() == if ok then p.(leases := p.leases[p.nextLease := ch], nextLease := p.nextLease + 1)
                        else p.(open := p.open - {ch}, permits := p.permits - 1, active := p.active - 1)
    {
      if refuses {
        open := open - {ch};
        ReleasePermit();
        return false;
      }
      leases, nextLease := leases[nextLease := ch], nextLease + 1;
      return true;
    }

    method Release(ch: Ch, ghost lease: P.Lease)
      requires Valid() && lease in leases && leases[lease] == ch
      modifies this
      ensures Valid() && View() == Released(old(View()), lease) && leases == old(leases) - {lease}
      ensures !old(closed) && ch in old(open) && |old(channels)| < config.maxIdle ==>
                && ch in open && open == old(open) && channels == old(channels) + [ch]
                && returned == old(returned) + 1 && permits == old(permits)
      ensures old(closed) || ch !in old(open) || |old(channels)| >= config.maxIdle ==>
                && open == old(open) - {ch} && channels == old(channels)
                && returned == old(returned) && permits == old(permits) - 1
    {
      ReleaseMeans(View(), lease);
      leases := leases - {lease};
      if closed {
        open := open - {ch};
        ReleasePermit();
        return;
      }
      if ch !in open {
        ReleasePermit();
        return;
      }
      if |channels| < config.maxIdle {
        channels := channels + [ch];
        returned := returned + 1;
      } else {
        open := open - {ch};
        ReleasePermit();
      }
    }

    method Discard(ch: Ch, ghost lease: P.Lease)
      requires Valid() && lease in leases && leases[lease] == ch
      modifies this
      ensures Valid() && View() == Discarded(old(View()), lease) && leases == old(leases) - {lease}
      ensures open == old(open) - {ch} && channels == old(channels)
      ensures permits == old(permits) - 1 && returned == old(returned)
    {
      leases := leases - {lease};
      open := open - {ch};
      ReleasePermit();
    }

    method Close()
      requires Valid()
      modifies this
      ensures Valid() && View() == Closed(old(View()))
      ensures closed && channels == [] && leases == old(leases)
      ensures !old(closed) ==>
                open == old(open) - (set c | c in old(channels)) && permits == old(permits) - |old(channels)|
    {
      if closed {
        return;
      }
      closed := true;
      channelsClosed := true;
      channelsNil := true;
      Drain();
    }

    /** The drain loop of Close. */
    method Drain()
      requires |channels| <= permits == active
      modifies this`channels, this`open, this`permits, this`active
      ensures View() == WithoutIdle(old(View()), |old(channels)|).(open := old(open) - set c | c in old(channels))
    {
      ghost var k: nat := 0;
      while channels != []
        invariant k <= |old(channels)| && channels == old(channels)[k..]
        invariant permits == active == old(permits) - k
        invariant open == old(open) - set c | c in old(channels)[..k]
        decreases |channels|
      {
        var ch := channels[0];
        channels := channels[1..];
        open := open - {ch};
        ReleasePermit();
        assert old(channels)[..k + 1] == old(channels)[..k] + [ch];
        k := k + 1;
      }
      assert old(channels)[..k] == old(channels);
    }
  }
}
