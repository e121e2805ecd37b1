/**
 Where the pool's channels are. Every action of a goroutine inside the pool moves at most one
 channel, in one of five ways, and each way keeps the bookkeeping of owners right.
 */
module PoolOwners {
  import opened Base
  import opened PoolProtocol
  import opened PoolInvariant

  /** The place `o` really has channel `c`; a channel that is gone is closed. */
  predicate Sits(s: State, o: Owner, c: Ch) {
    match o
    case InQueue => c in s.p.queue
    case LeasedTo(lease) => lease in s.p.leases && s.p.leases[lease] == c
    case HeldBy(t) => t in s.threads && Carries(s.threads[t]) == Some(c)
    case Gone => c !in s.p.open
  }

  predicate Distinct(q: seq<Ch>) {
    forall i, j :: 0 <= i < j < |q| ==> q[i] != q[j]
  }

  predicate Known(p: Pool, l: Log, c: Ch, o: Owner) {
    c in l.owner && l.owner[c] == o
  }

  predicate QueueOwned(p: Pool, l: Log) {
    Distinct(p.queue) && forall i :: 0 <= i < |p.queue| ==> Known(p, l, p.queue[i], InQueue)
  }

  ghost predicate Owners(s: State, l: Log) {
    && (forall c :: c in l.owner <==> c.conn == s.p.config.conn && c.serial < s.p.next)
    && (forall c :: c in s.p.open ==> c in l.owner)
    && (forall c :: c in l.owner ==> Sits(s, l.owner[c], c))
    && Distinct(s.p.queue)
    && (forall i :: 0 <= i < |s.p.queue| ==> Known(s.p, l, s.p.queue[i], InQueue))
    && (forall lease :: lease in s.p.leases ==> Known(s.p, l, s.p.leases[lease], LeasedTo(lease)))
    && (forall t :: t in s.threads && Carries(s.threads[t]).Some?
                    ==> Known(s.p, l, Carries(s.threads[t]).value, HeldBy(t)))
  }

  function Hand(pc: Option<PC>): Option<Ch> {
    if pc.Some? then Carries(pc.value) else None
  }

  // ---- The five ways a channel can move ----

  predicate Stays(p: Pool, l: Log, t: Tid, pc: PC, n: Pool, m: Log, next: Option<PC>) {
    n.queue == p.queue && n.open == p.open && n.next == p.next && m.owner == l.owner && Hand(next) == Carries(pc)
  }

  predicate Taken(p: Pool, l: Log, t: Tid, pc: PC, n: Pool, m: Log, next: Option<PC>) {
    && p.queue != [] && n.queue == p.queue[1..] && n.open == p.open && n.next == p.next
    && m.owner == l.owner[p.queue[0] := HeldBy(t)]
    && Carries(pc) == None && Hand(next) == Some(p.queue[0])
  }

  predicate Put(p: Pool, l: Log, t: Tid, pc: PC, n: Pool, m: Log, next: Option<PC>) {
    && Carries(pc).Some? && Hand(next) == None
    && n.queue == p.queue + [Carries(pc).value] && n.open == p.open && n.next == p.next
    && m.owner == l.owner[Carries(pc).value := InQueue]
  }

  predicate Dropped(p: Pool, l: Log, t: Tid, pc: PC, n: Pool, m: Log, next: Option<PC>) {
    && Carries(pc).Some? && Hand(next) == None
    && n.queue == p.queue && n.next == p.next
    && Carries(pc).value !in n.open && (n.open == p.open || n.open == p.open - {Carries(pc).value})
    && m.owner == l.owner[Carries(pc).value := Gone]
  }

  predicate Opened(p: Pool, l: Log, t: Tid, pc: PC, n: Pool, m: Log, next: Option<PC>) {
    var ch := Ch(p.config.conn, p.next);
    && Carries(pc) == None && Hand(next) == Some(ch)
    && n.queue == p.queue && n.open == p.open + {ch} && n.next == p.next + 1
    && m.owner == l.owner[ch := HeldBy(t)]
  }

  predicate Moves(p: Pool, l: Log, t: Tid, pc: PC, n: Pool, m: Log, next: Option<PC>) {
    && n.config == p.config && n.leases == p.leases
    && (|| Stays(p, l, t, pc, n, m, next)
        || Taken(p, l, t, pc, n, m, next)
        || Put(p, l, t, pc, n, m, next)
        || Dropped(p, l, t, pc, n, m, next)
        || Opened(p, l, t, pc, n, m, next))
  }

  lemma AcquireMoves(p: Pool, l: Log, t: Tid, at: AcquireAt, choice: Choice)
    requires CanAcquire(p, at, choice)
    ensures var r := AcquireStep(p, at, choice); var m := AcquireRecord(p, l, t, at, choice);
            Moves(p, l, t, InAcquire(at), r.0, m, r.1)
  {
  }

  lemma OpenMoves(p: Pool, l: Log, t: Tid, at: OpenAt, choice: Choice)
    ensures var r := OpenStep(p, at, choice); var m := OpenRecord(p, l, t, at, choice);
            Moves(p, l, t, InOpen(at), r.0, m, r.1)
  {
  }

  lemma ReleaseMoves(p: Pool, l: Log, t: Tid, at: ReleaseAt)
    ensures var r := ReleaseStep(p, t, at); Moves(p, l, t, InRelease(at), r.0, ReleaseRecord(p, l, at), r.1)
  {
  }

  lemma CloseMoves(p: Pool, l: Log, t: Tid, at: CloseAt)
    ensures var r := CloseStep(p, t, at); Moves(p, l, t, InClose(at), r.0, CloseRecord(p, l, t, at), r.1)
  {
  }

  lemma PermitMoves(p: Pool, l: Log, t: Tid, at: PermitAt)
    ensures var r := PermitStep(p, at); Moves(p, l, t, InPermit(at), r.0, PermitRecord(p, l, at), r.1)
  {
  }

  // ---- Each way keeps the owners right ----

  lemma OwnersStay(s: State, l: Log, t: Tid, n: Pool, m: Log, next: Option<PC>)
    requires Owners(s, l) && t in s.threads && n.config == s.p.config && n.leases == s.p.leases
    requires Stays(s.p, l, t, s.threads[t], n, m, next)
    ensures Owners(Moved(s, t, n, next), m)
  {
    var x := Moved(s, t, n, next);
    forall c | c in m.owner ensures Sits(x, m.owner[c], c) {
      assert Sits(s, l.owner[c], c);
    }
  }

  lemma QueueTaken(p: Pool, l: Log, t: Tid, pc: PC, n: Pool, m: Log, next: Option<PC>)
    requires QueueOwned(p, l) && Taken(p, l, t, pc, n, m, next)
    ensures QueueOwned(n, m)
  {
    forall i | 0 <= i < |n.queue| ensures Known(n, m, n.queue[i], InQueue) {
      assert n.queue[i] == p.queue[i + 1] && Known(p, l, p.queue[i + 1], InQueue);
    }
  }

  lemma OwnersTaken(s: State, l: Log, t: Tid, n: Pool, m: Log, next: Option<PC>)
    requires Owners(s, l) && t in s.threads && n.config == s.p.config && n.leases == s.p.leases
    requires Taken(s.p, l, t, s.threads[t], n, m, next)
    ensures Owners(Moved(s, t, n, next), m)
  {
    var x := Moved(s, t, n, next);
    var q := s.p.queue;
    QueueTaken(s.p, l, t, s.threads[t], n, m, next);
    assert q == [q[0]] + n.queue;
    assert Known(s.p, l, q[0], InQueue);
    forall c | c in m.owner ensures Sits(x, m.owner[c], c) {
      assert c in l.owner && Sits(s, l.owner[c], c);
    }
  }

  lemma QueuePut(p: Pool, l: Log, t: Tid, pc: PC, n: Pool, m: Log, next: Option<PC>)
    requires QueueOwned(p, l) && Put(p, l, t, pc, n, m, next)
    requires Known(p, l, Carries(pc).value, HeldBy(t))
    ensures QueueOwned(n, m) && forall c :: c in n.queue <==> c in p.queue || c == Carries(pc).value
  {
    forall i | 0 <= i < |p.queue| ensures n.queue[i] != Carries(pc).value && Known(n, m, n.queue[i], InQueue) {
      assert n.queue[i] == p.queue[i] && Known(p, l, p.queue[i], InQueue);
    }
  }

  lemma OwnersPut(s: State, l: Log, t: Tid, n: Pool, m: Log, next: Option<PC>)
    requires Owners(s, l) && t in s.threads && n.config == s.p.config && n.leases == s.p.leases
    requires Put(s.p, l, t, s.threads[t], n, m, next)
    ensures Owners(Moved(s, t, n, next), m)
  {
    var x := Moved(s, t, n, next);
    assert Known(s.p, l, Carries(s.threads[t]).value, HeldBy(t));
    QueuePut(s.p, l, t, s.threads[t], n, m, next);
    forall c | c in m.owner ensures Sits(x, m.owner[c], c) {
      assert c in l.owner && Sits(s, l.owner[c], c);
    }
  }

  lemma OwnersDropped(s: State, l: Log, t: Tid, n: Pool, m: Log, next: Option<PC>)
    requires Owners(s, l) && t in s.threads && n.config == s.p.config && n.leases == s.p.leases
    requires Dropped(s.p, l, t, s.threads[t], n, m, next)
    ensures Owners(Moved(s, t, n, next), m)
  {
    var x := Moved(s, t, n, next);
    assert Known(s.p, l, Carries(s.threads[t]).value, HeldBy(t));
    forall c | c in m.owner ensures Sits(x, m.owner[c], c) {
      assert c in l.owner && Sits(s, l.owner[c], c);
    }
    forall i | 0 <= i < |n.queue| ensures Known(n, m, n.queue[i], InQueue) {
      assert Known(s.p, l, s.p.queue[i], InQueue);
    }
  }

  lemma OwnersOpened(s: State, l: Log, t: Tid, n: Pool, m: Log, next: Option<PC>)
    requires Owners(s, l) && t in s.threads && n.config == s.p.config && n.leases == s.p.leases
    requires Opened(s.p, l, t, s.threads[t], n, m, next)
    ensures Owners(Moved(s, t, n, next), m)
  {
    var x := Moved(s, t, n, next);
    assert Ch(s.p.config.conn, s.p.next) !in l.owner;
    forall c | c in m.owner ensures Sits(x, m.owner[c], c) {
      assert c in l.owner ==> Sits(s, l.owner[c], c);
    }
    forall i | 0 <= i < |n.queue| ensures Known(n, m, n.queue[i], InQueue) {
      assert Known(s.p, l, s.p.queue[i], InQueue);
    }
  }

  lemma OwnersRun(s: State, l: Log, t: Tid, choice: Choice)
    requires Owners(s, l) && Enabled(s, Run(t, choice))
    ensures Owners(Apply(s, Run(t, choice)), Record(s, l, Run(t, choice)))
  {
    var r := RunStep(s.p, t, s.threads[t], choice);
    var m := RunRecord(s.p, l, t, s.threads[t], choice);
    assert Moves(s.p, l, t, s.threads[t], r.0, m, r.1) by {
      match s.threads[t]
      case InAcquire(at) => AcquireMoves(s.p, l, t, at, choice);
      case InOpen(at) => OpenMoves(s.p, l, t, at, choice);
      case InRelease(at) => ReleaseMoves(s.p, l, t, at);
      case InClose(at) => CloseMoves(s.p, l, t, at);
      case InPermit(at) => PermitMoves(s.p, l, t, at);
    }
    if Stays(s.p, l, t, s.threads[t], r.0, m, r.1) {
      OwnersStay(s, l, t, r.0, m, r.1);
    } else if Taken(s.p, l, t, s.threads[t], r.0, m, r.1) {
      OwnersTaken(s, l, t, r.0, m, r.1);
    } else if Put(s.p, l, t, s.threads[t], r.0, m, r.1) {
      OwnersPut(s, l, t, r.0, m, r.1);
    } else if Dropped(s.p, l, t, s.threads[t], r.0, m, r.1) {
      OwnersDropped(s, l, t, r.0, m, r.1);
    } else {
      OwnersOpened(s, l, t, r.0, m, r.1);
    }
  }

  lemma OwnersGrant(s: State, l: Log, t: Tid)
    requires Owners(s, l) && Enabled(s, Grant(t)) && s.p.nextLease !in s.p.leases
    ensures Owners(Apply(s, Grant(t)), Record(s, l, Grant(t)))
  {
    var n, m := Apply(s, Grant(t)), Record(s, l, Grant(t));
    assert Known(s.p, l, s.threads[t].acquire.ch, HeldBy(t));
    forall c | c in m.owner ensures Sits(n, m.owner[c], c) {
      assert c in l.owner && Sits(s, l.owner[c], c);
    }
    forall i | 0 <= i < |n.p.queue| ensures Known(n.p, m, n.p.queue[i], InQueue) {
      assert Known(s.p, l, s.p.queue[i], InQueue);
    }
  }

  lemma OwnersGiveBack(s: State, l: Log, t: Tid, lease: Lease, discard: bool)
    requires Owners(s, l) && Enabled(s, GiveBack(t, lease, discard))
    ensures Owners(Apply(s, GiveBack(t, lease, discard)), Record(s, l, GiveBack(t, lease, discard)))
  {
    var n, m := Apply(s, GiveBack(t, lease, discard)), Record(s, l, GiveBack(t, lease, discard));
    assert Known(s.p, l, s.p.leases[lease], LeasedTo(lease));
    forall c | c in m.owner ensures Sits(n, m.owner[c], c) {
      assert c in l.owner && Sits(s, l.owner[c], c);
    }
    forall i | 0 <= i < |n.p.queue| ensures Known(n.p, m, n.p.queue[i], InQueue) {
      assert Known(s.p, l, s.p.queue[i], InQueue);
    }
  }

  lemma OwnersElse(s: State, l: Log, e: Event)
    requires Owners(s, l) && Enabled(s, e) && (e.Begin? || e.Die?)
    ensures Owners(Apply(s, e), l)
  {
    var n := Apply(s, e);
    forall c | c in l.owner ensures Sits(n, l.owner[c], c) {
      assert Sits(s, l.owner[c], c);
    }
  }

  lemma OwnersStep(s: State, l: Log, e: Event)
    requires Owners(s, l) && Tokens(s) && Enabled(s, e)
    ensures Owners(Apply(s, e), Record(s, l, e))
  {
    match e
    case Run(t, choice) => OwnersRun(s, l, t, choice);
    case Grant(t) => OwnersGrant(s, l, t);
    case GiveBack(t, lease, discard) => OwnersGiveBack(s, l, t, lease, discard);
    case _ => OwnersElse(s, l, e);
  }
}
