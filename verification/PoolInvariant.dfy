/**
 What every step of the pool keeps. The invariant has four independent parts: who owns each
 channel, who holds the lock and how far Close has come, how many tokens and counts are out, and
 that no run panics or reaches an empty-handed branch of releasePermit.
 */
module PoolInvariant {
  import opened Base
  import opened PoolProtocol

  // ---- Counting goroutines by the part they play ----

  datatype Role = Holding | Adding | Dropping | Owed | Uncreated | Sent | Received

  /** The channel a goroutine has in its hands. */
  function Carries(pc: PC): Option<Ch> {
    match pc
    case InAcquire(at) =>
      if at.Snapshot? || at.Poll? || at.TryPermit? || at.Wait? then None else Some(at.ch)
    case InOpen(at) => if at.AddActive? || at.OpenChannel? then None else Some(at.ch)
    case InRelease(at) => if at.CountReturned? || at.UnlockRelease? then None else Some(at.ch)
    case InClose(at) => if at.CloseDrained? then Some(at.ch) else None
    case InPermit(_) => None
  }

  /**
   Holding: owns one token of the semaphore. Adding and Dropping: has moved its token but not yet
   the `active` counter. Owed: its channel is counted in `acquired` and not yet in any way of
   leaving. Uncreated: counted in `acquired`, not yet in `created`. Sent: its channel is in the
   queue, not yet in `returned`. Received: took a channel from the queue, not yet in `acquired`.
   */
  predicate Plays(pc: PC, role: Role) {
    match pc
    case InAcquire(at) =>
      (match role
       case Holding => Carries(pc).Some?
       case Owed => at.Granted?
       case Received => at.Inspect? || at.CountReuse?
       case _ => false)
    case InOpen(at) =>
      (match role
       case Holding => true
       case Adding => at.AddActive?
       case Owed => at.CountCreated? || at.RunOptions? || at.CloseRefused?
       case Uncreated => at.CountCreated?
       case _ => false)
    case InRelease(at) =>
      (match role
       case Holding => Carries(pc).Some?
       case Owed => !at.UnlockRelease?
       case Sent => at.CountReturned?
       case _ => false)
    case InClose(at) => role.Holding? && at.CloseDrained?
    case InPermit(at) => if at.TakeToken? then role.Holding? else role.Dropping?
  }

  function Test(role: Role): PC -> bool {
    pc => Plays(pc, role)
  }

  /** How many goroutines play a part. */
  function Number(s: State, role: Role): nat {
    Count(s.threads, Test(role))
  }

  // ---- Tokens and counters ----

  predicate Tokens(s: State) {
    var p := s.p;
    && Bounded(p)
    && p.permits == |p.queue| + |p.leases| + Number(s, Holding)
    && p.active == p.permits - Number(s, Adding) + Number(s, Dropping)
    && (forall lease :: lease in p.leases ==> lease < p.nextLease)
  }

  predicate Ledger(s: State, l: Log) {
    var p := s.p;
    && p.stats.acquired == p.stats.returned + |p.leases| + Number(s, Owed) + l.discards + l.closedOnReturn + l.refused
    && p.stats.returned + Number(s, Sent)
       == |p.queue| + Number(s, Received) + (p.stats.acquired - p.stats.created - Number(s, Uncreated))
          + l.deadIdle + l.drained
  }

  /** One if the goroutine plays the part. */
  function Share(pc: Option<PC>, role: Role): nat {
    if pc.Some? && Plays(pc.value, role) then 1 else 0
  }

  function At(s: State, t: Tid): Option<PC> {
    if t in s.threads then Some(s.threads[t]) else None
  }

  /** When only goroutine `t` moves, each number changes by that goroutine's own share. */
  lemma NumberMoves(s: State, n: State, t: Tid)
    requires SameBut(s.threads, n.threads, t)
    ensures forall role :: Number(n, role) == Number(s, role) - Share(At(s, t), role) + Share(At(n, t), role)
    ensures forall role :: Share(At(s, t), role) <= Number(s, role)
  {
    forall role
      ensures Number(n, role) == Number(s, role) - Share(At(s, t), role) + Share(At(n, t), role)
      ensures Share(At(s, t), role) <= Number(s, role)
    {
      CountMove(s.threads, n.threads, t, Test(role));
      PartBound(s.threads, t, Test(role));
    }
  }

  /** One action keeps the token equations: what the goroutine gains the pool loses. */
  ghost predicate Balanced(p: Pool, pc: PC, n: Pool, next: Option<PC>) {
    && n.permits - |n.queue| - Share(next, Holding) == p.permits - |p.queue| - Share(Some(pc), Holding)
    && n.active - n.permits + Share(next, Adding) - Share(next, Dropping)
       == p.active - p.permits + Share(Some(pc), Adding) - Share(Some(pc), Dropping)
    && (Bounded(p) ==> Bounded(n))
    && n.leases == p.leases && n.nextLease == p.nextLease
  }

  predicate Bounded(p: Pool) {
    1 <= p.config.maxIdle <= p.config.poolSize && |p.queue| <= p.config.maxIdle && p.permits <= p.config.poolSize
  }

  lemma AcquireBalanced(p: Pool, at: AcquireAt, choice: Choice)
    requires CanAcquire(p, at, choice)
    ensures var r := AcquireStep(p, at, choice); Balanced(p, InAcquire(at), r.0, r.1)
  {
  }

  lemma OpenBalanced(p: Pool, at: OpenAt, choice: Choice)
    ensures var r := OpenStep(p, at, choice); Balanced(p, InOpen(at), r.0, r.1)
  {
  }

  lemma ReleaseBalanced(p: Pool, t: Tid, at: ReleaseAt)
    ensures var r := ReleaseStep(p, t, at); Balanced(p, InRelease(at), r.0, r.1)
  {
  }

  lemma CloseBalanced(p: Pool, t: Tid, at: CloseAt)
    ensures var r := CloseStep(p, t, at); Balanced(p, InClose(at), r.0, r.1)
  {
  }

  lemma PermitBalanced(p: Pool, at: PermitAt)
    requires at.TakeToken? ==> p.permits > 0
    requires at.LoadActive? ==> p.active > 0
    ensures var r := PermitStep(p, at); Balanced(p, InPermit(at), r.0, r.1)
  {
  }

  /** One action keeps the ledger equations. */
  ghost predicate Booked(p: Pool, l: Log, pc: PC, n: Pool, m: Log, next: Option<PC>) {
    && n.stats.acquired - n.stats.returned - Share(next, Owed) - m.discards - m.closedOnReturn - m.refused
       == p.stats.acquired - p.stats.returned - Share(Some(pc), Owed) - l.discards - l.closedOnReturn - l.refused
    && n.stats.returned + Share(next, Sent) - |n.queue| - Share(next, Received)
       - (n.stats.acquired - n.stats.created - Share(next, Uncreated)) - m.deadIdle - m.drained
       == p.stats.returned + Share(Some(pc), Sent) - |p.queue| - Share(Some(pc), Received)
          - (p.stats.acquired - p.stats.created - Share(Some(pc), Uncreated)) - l.deadIdle - l.drained
  }

  lemma AcquireBooked(p: Pool, l: Log, t: Tid, at: AcquireAt, choice: Choice)
    requires CanAcquire(p, at, choice)
    ensures var r := AcquireStep(p, at, choice);
            Booked(p, l, InAcquire(at), r.0, AcquireRecord(p, l, t, at, choice), r.1)
  {
  }

  lemma OpenBooked(p: Pool, l: Log, t: Tid, at: OpenAt, choice: Choice)
    ensures var r := OpenStep(p, at, choice); Booked(p, l, InOpen(at), r.0, OpenRecord(p, l, t, at, choice), r.1)
  {
  }

  lemma ReleaseBooked(p: Pool, l: Log, t: Tid, at: ReleaseAt)
    ensures var r := ReleaseStep(p, t, at); Booked(p, l, InRelease(at), r.0, ReleaseRecord(p, l, at), r.1)
  {
  }

  lemma CloseBooked(p: Pool, l: Log, t: Tid, at: CloseAt)
    ensures var r := CloseStep(p, t, at); Booked(p, l, InClose(at), r.0, CloseRecord(p, l, t, at), r.1)
  {
  }

  lemma PermitBooked(p: Pool, l: Log, at: PermitAt)
    ensures var r := PermitStep(p, at); Booked(p, l, InPermit(at), r.0, PermitRecord(p, l, at), r.1)
  {
  }

  /** A goroutine standing at a guard of releasePermit finds the guard open. */
  lemma GuardsHold(s: State, t: Tid)
    requires Tokens(s) && t in s.threads && s.threads[t].InPermit?
    ensures s.threads[t].permit.TakeToken? ==> s.p.permits > 0
    ensures !s.threads[t].permit.TakeToken? ==> s.p.active > 0
  {
    NumberMoves(s, s, t);
    AddingHold(s);
    assert Plays(s.threads[t], if s.threads[t].permit.TakeToken? then Holding else Dropping);
  }

  lemma AddingHold(s: State)
    ensures Number(s, Adding) <= Number(s, Holding)
  {
    forall t | t in Who(s.threads, Test(Adding)) ensures t in Who(s.threads, Test(Holding)) {
      assert Plays(s.threads[t], Adding);
      assert Plays(s.threads[t], Holding);
    }
    SubsetSize(Who(s.threads, Test(Adding)), Who(s.threads, Test(Holding)));
  }

  function Moved(s: State, t: Tid, p: Pool, next: Option<PC>): State {
    State(p, if next.Some? then s.threads[t := next.value] else s.threads - {t})
  }

  lemma TokensMove(s: State, l: Log, t: Tid, p: Pool, m: Log, next: Option<PC>)
    requires Tokens(s) && Ledger(s, l) && t in s.threads
    requires Balanced(s.p, s.threads[t], p, next) && Booked(s.p, l, s.threads[t], p, m, next)
    ensures Tokens(Moved(s, t, p, next)) && Ledger(Moved(s, t, p, next), m)
  {
    NumberMoves(s, Moved(s, t, p, next), t);
  }

  /** The equations are kept by every action of a goroutine inside the pool. */
  lemma TokensRun(s: State, l: Log, t: Tid, choice: Choice)
    requires Tokens(s) && Ledger(s, l) && Enabled(s, Run(t, choice))
    ensures Tokens(Apply(s, Run(t, choice))) && Ledger(Apply(s, Run(t, choice)), Record(s, l, Run(t, choice)))
  {
    var r := RunStep(s.p, t, s.threads[t], choice);
    var m := RunRecord(s.p, l, t, s.threads[t], choice);
    assert Balanced(s.p, s.threads[t], r.0, r.1) && Booked(s.p, l, s.threads[t], r.0, m, r.1) by {
      match s.threads[t]
      case InAcquire(at) => AcquireBalanced(s.p, at, choice); AcquireBooked(s.p, l, t, at, choice);
      case InOpen(at) => OpenBalanced(s.p, at, choice); OpenBooked(s.p, l, t, at, choice);
      case InRelease(at) => ReleaseBalanced(s.p, t, at); ReleaseBooked(s.p, l, t, at);
      case InClose(at) => CloseBalanced(s.p, t, at); CloseBooked(s.p, l, t, at);
      case InPermit(at) => GuardsHold(s, t); PermitBalanced(s.p, at); PermitBooked(s.p, l, at);
    }
    TokensMove(s, l, t, r.0, m, r.1);
  }

  /** A goroutine's change of place takes over `k` tokens from leases, and no other part. */
  ghost predicate Exchanges(from: Option<PC>, to: Option<PC>, k: int) {
    forall role :: Share(to, role) - Share(from, role) == if role == Holding || role == Owed then k else 0
  }

  /** A goroutine entering the pool or taking its lease away exchanges one holder of a token for another. */
  lemma TokensEvent(s: State, n: State, l: Log, m: Log, t: Tid)
    requires Tokens(s) && Ledger(s, l) && SameBut(s.threads, n.threads, t)
    requires n.p == s.p.(leases := n.p.leases, nextLease := n.p.nextLease) && m == l.(owner := m.owner)
    requires forall lease :: lease in n.p.leases ==> lease < n.p.nextLease
    requires Exchanges(At(s, t), At(n, t), |s.p.leases| - |n.p.leases|)
    ensures Tokens(n) && Ledger(n, m)
  {
    NumberMoves(s, n, t);
  }

  lemma TokensBegin(s: State, l: Log, t: Tid, call: Call)
    requires Tokens(s) && Ledger(s, l) && Enabled(s, Begin(t, call))
    ensures Tokens(Apply(s, Begin(t, call))) && Ledger(Apply(s, Begin(t, call)), l)
  {
    var n := Apply(s, Begin(t, call));
    assert Exchanges(None, At(n, t), 0);
    TokensEvent(s, n, l, l, t);
  }

  lemma TokensGrant(s: State, l: Log, t: Tid)
    requires Tokens(s) && Ledger(s, l) && Enabled(s, Grant(t))
    ensures Tokens(Apply(s, Grant(t))) && Ledger(Apply(s, Grant(t)), Record(s, l, Grant(t)))
  {
    var n := Apply(s, Grant(t));
    assert |n.p.leases| == |s.p.leases| + 1 by {
      assert s.p.nextLease !in s.p.leases;
    }
    assert Exchanges(At(s, t), None, -1);
    TokensEvent(s, n, l, Record(s, l, Grant(t)), t);
  }

  lemma GiveBackShares(ch: Ch, discard: bool)
    ensures Exchanges(None, Some(InRelease(if discard then CloseDiscarded(ch) else LockRelease(ch))), 1)
  {
  }

  lemma TokensGiveBack(s: State, l: Log, t: Tid, lease: Lease, discard: bool)
    requires Tokens(s) && Ledger(s, l) && Enabled(s, GiveBack(t, lease, discard))
    ensures var e := GiveBack(t, lease, discard); Tokens(Apply(s, e)) && Ledger(Apply(s, e), Record(s, l, e))
  {
    var e := GiveBack(t, lease, discard);
    var n := Apply(s, e);
    assert |n.p.leases| == |s.p.leases| - 1 by {
      assert n.p.leases.Keys == s.p.leases.Keys - {lease};
    }
    GiveBackShares(s.p.leases[lease], discard);
    TokensEvent(s, n, l, Record(s, l, e), t);
  }

  lemma TokensStep(s: State, l: Log, e: Event)
    requires Tokens(s) && Ledger(s, l) && Enabled(s, e)
    ensures Tokens(Apply(s, e)) && Ledger(Apply(s, e), Record(s, l, e))
  {
    match e
    case Begin(t, call) => TokensBegin(s, l, t, call);
    case Run(t, choice) => TokensRun(s, l, t, choice);
    case Grant(t) => TokensGrant(s, l, t);
    case GiveBack(t, lease, discard) => TokensGiveBack(s, l, t, lease, discard);
    case Die(_) => assert forall role :: Number(Apply(s, e), role) == Number(s, role);
  }

  // ---- The lock, and how far Close has come ----

  /** The goroutine holds the pool's write lock. */
  predicate Critical(pc: PC) {
    match pc
    case InRelease(at) => !at.LockRelease? && !at.CloseDiscarded?
    case InClose(at) => !at.LockClose? && !at.DrainQueue? && !at.CloseDrained?
    case InPermit(at) => at.next.Unlock?
    case _ => false
  }

  /** The goroutine is in the one Close that found the pool open. */
  predicate Closing(pc: PC) {
    match pc
    case InClose(at) => !at.LockClose? && !at.SetClosed? && !at.UnlockClosedTwice?
    case InPermit(at) => at.next.Drain?
    case _ => false
  }

  /** What a goroutine knows about the flags from where it stands. */
  predicate Flags(p: Pool, pc: PC) {
    match pc
    case InRelease(at) => at.CheckDead? || at.SendIdle? ==> !p.closed
    case InClose(at) =>
      && (at.UnlockClosedTwice? ==> p.closed)
      && (at.CloseQueue? ==> p.closed && !p.queueClosed && !p.detached)
      && (at.DetachQueue? ==> p.closed && p.queueClosed && !p.detached)
      && (at.UnlockClose? || at.DrainQueue? || at.CloseDrained? ==> p.closed && p.queueClosed && p.detached)
    case InPermit(at) => at.next.Drain? ==> p.closed && p.queueClosed && p.detached
    case _ => true
  }

  predicate Local(p: Pool, l: Log, t: Tid, pc: PC) {
    && (Critical(pc) <==> p.mu == Some(t))
    && (Closing(pc) <==> l.closer == Some(t))
    && Flags(p, pc)
  }

  predicate Absent(p: Pool, l: Log, t: Tid) {
    p.mu != Some(t) && l.closer != Some(t)
  }

  predicate Stages(p: Pool, l: Log) {
    && (!p.closed ==> !p.queueClosed && !p.detached && l.closer.None?)
    && (p.closed && l.closer.None? ==> p.queueClosed && p.detached && p.queue == [])
    && !p.panicked && !l.saturated
  }

  ghost predicate Control(s: State, l: Log) {
    && Stages(s.p, l)
    && (forall t :: if t in s.threads then Local(s.p, l, t, s.threads[t]) else Absent(s.p, l, t))
  }

  predicate Here(p: Pool, l: Log, t: Tid, at: Option<PC>) {
    if at.Some? then Local(p, l, t, at.value) else Absent(p, l, t)
  }

  /** An action of goroutine `t` leaves alone what the other goroutines know. */
  predicate Undisturbed(p: Pool, l: Log, t: Tid, n: Pool, m: Log) {
    && (n.mu == p.mu || (p.mu in {None, Some(t)} && n.mu in {None, Some(t)}))
    && (m.closer == l.closer || (l.closer in {None, Some(t)} && m.closer in {None, Some(t)}))
    && (n.closed != p.closed ==> p.mu == Some(t) && n.closed)
    && (n.queueClosed != p.queueClosed || n.detached != p.detached ==> l.closer == Some(t))
  }

  ghost predicate Controlled(p: Pool, l: Log, t: Tid, n: Pool, m: Log, next: Option<PC>) {
    Stages(n, m) && Here(n, m, t, next) && Undisturbed(p, l, t, n, m)
  }

  lemma AcquireControlled(p: Pool, l: Log, t: Tid, at: AcquireAt, choice: Choice)
    requires CanAcquire(p, at, choice) && Stages(p, l) && Local(p, l, t, InAcquire(at))
    ensures var r := AcquireStep(p, at, choice); Controlled(p, l, t, r.0, AcquireRecord(p, l, t, at, choice), r.1)
  {
  }

  lemma OpenControlled(p: Pool, l: Log, t: Tid, at: OpenAt, choice: Choice)
    requires Stages(p, l) && Local(p, l, t, InOpen(at))
    ensures var r := OpenStep(p, at, choice); Controlled(p, l, t, r.0, OpenRecord(p, l, t, at, choice), r.1)
  {
  }

  lemma ReleaseControlled(p: Pool, l: Log, t: Tid, at: ReleaseAt)
    requires Stages(p, l) && Local(p, l, t, InRelease(at)) && (at.LockRelease? ==> p.mu.None?)
    ensures var r := ReleaseStep(p, t, at); Controlled(p, l, t, r.0, ReleaseRecord(p, l, at), r.1)
  {
  }

  lemma CloseControlled(p: Pool, l: Log, t: Tid, at: CloseAt)
    requires Stages(p, l) && Local(p, l, t, InClose(at)) && (at.LockClose? ==> p.mu.None?)
    ensures var r := CloseStep(p, t, at); Controlled(p, l, t, r.0, CloseRecord(p, l, t, at), r.1)
  {
  }

  lemma PermitControlled(p: Pool, l: Log, t: Tid, at: PermitAt)
    requires Stages(p, l) && Local(p, l, t, InPermit(at))
    requires at.TakeToken? ==> p.permits > 0
    requires at.LoadActive? ==> p.active > 0
    ensures var r := PermitStep(p, at); Controlled(p, l, t, r.0, PermitRecord(p, l, at), r.1)
  {
  }

  lemma ControlMove(s: State, l: Log, t: Tid, p: Pool, m: Log, next: Option<PC>)
    requires Control(s, l) && Controlled(s.p, l, t, p, m, next)
    ensures Control(Moved(s, t, p, next), m)
  {
    var n := Moved(s, t, p, next);
    forall k | k != t ensures if k in n.threads then Local(p, m, k, n.threads[k]) else Absent(p, m, k) {
      assert if k in s.threads then Local(s.p, l, k, s.threads[k]) else Absent(s.p, l, k);
    }
  }

  lemma ControlRun(s: State, l: Log, t: Tid, choice: Choice)
    requires Tokens(s) && Control(s, l) && Enabled(s, Run(t, choice))
    ensures Control(Apply(s, Run(t, choice)), Record(s, l, Run(t, choice)))
  {
    var r := RunStep(s.p, t, s.threads[t], choice);
    var m := RunRecord(s.p, l, t, s.threads[t], choice);
    assert Controlled(s.p, l, t, r.0, m, r.1) by {
      assert Local(s.p, l, t, s.threads[t]);
      match s.threads[t]
      case InAcquire(at) => AcquireControlled(s.p, l, t, at, choice);
      case InOpen(at) => OpenControlled(s.p, l, t, at, choice);
      case InRelease(at) => ReleaseControlled(s.p, l, t, at);
      case InClose(at) => CloseControlled(s.p, l, t, at);
      case InPermit(at) => GuardsHold(s, t); PermitControlled(s.p, l, t, at);
    }
    ControlMove(s, l, t, r.0, m, r.1);
  }

  lemma ControlStep(s: State, l: Log, e: Event)
    requires Tokens(s) && Control(s, l) && Enabled(s, e)
    ensures Control(Apply(s, e), Record(s, l, e))
  {
    if e.Run? {
      ControlRun(s, l, e.t, e.choice);
    } else if !e.Die? {
      var n := Apply(s, e);
      assert Here(s.p, l, e.t, At(s, e.t));
      ControlMove(s, l, e.t, n.p, Record(s, l, e), At(n, e.t));
    }
  }
}
