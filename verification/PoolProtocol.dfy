/**
 `ChannelPool` (pool.go) as a step machine: any number of goroutines, one atomic action of the
 source per step, arbitrary interleaving.

 A goroutine is an entry of `threads` that says which action it takes next; a goroutine outside
 every pool call has no entry. Clients are disciplined as the `Channel` wrapper makes them: a lease
 is an entry of `leases`, and `GiveBack` uses it up.
 */
module PoolProtocol {
  import opened Base

  type Lease = nat

  /** What follows a call of releasePermit, by call site. */
  datatype Next = Retry | Failed | Discarded | Unlock | Drain

  /** The actions of Acquire, of its opening of a channel, of the two callbacks, of Close, and of releasePermit. */
  datatype AcquireAt =
    | Snapshot
    | Poll
    | Inspect(ch: Ch)
    | CountReuse(ch: Ch)
    | TryPermit
    | Wait
    | Granted(ch: Ch)

  datatype OpenAt =
    | AddActive
    | OpenChannel
    | CountAcquired(ch: Ch)
    | CountCreated(ch: Ch)
    | RunOptions(ch: Ch)
    | CloseRefused(ch: Ch)

  datatype ReleaseAt =
    | LockRelease(ch: Ch)
    | CheckClosed(ch: Ch)
    | CheckDead(ch: Ch)
    | SendIdle(ch: Ch)
    | CountReturned
    | CloseReturned(ch: Ch)
    | UnlockRelease
    | CloseDiscarded(ch: Ch)

  datatype CloseAt =
    | LockClose
    | SetClosed
    | CloseQueue
    | DetachQueue
    | UnlockClose
    | UnlockClosedTwice
    | DrainQueue
    | CloseDrained(ch: Ch)

  datatype PermitAt = TakeToken(next: Next) | LoadActive(next: Next) | SwapActive(next: Next, seen: int)

  /** The action a goroutine takes next. */
  datatype PC =
    | InAcquire(acquire: AcquireAt)
    | InOpen(opening: OpenAt)
    | InRelease(release: ReleaseAt)
    | InClose(close: CloseAt)
    | InPermit(permit: PermitAt)

  /** The connection the pool opens its channels on, and its two limits. */
  datatype Config = Config(conn: nat, poolSize: nat, maxIdle: nat)

  datatype Stats = Stats(acquired: int, returned: int, created: int)

  /**
   The pool's fields. The Go channel `channels` is its buffer `queue`, a bit for `close`, and a
   bit for the field having been set to nil. `permits` is the number of tokens in the semaphore's
   buffer, `mu` the goroutine holding the write lock. `open` is the broker's view: the channels of
   this pool that are open. `next` numbers the channels opened so far. `panicked` is set by a send
   on a closed Go channel or a second close of it.
   */
  datatype Pool = Pool(
    config: Config,
    queue: seq<Ch>, queueClosed: bool, detached: bool,
    permits: nat, mu: Option<Tid>, closed: bool,
    active: int, stats: Stats,
    open: set<Ch>, next: nat, panicked: bool,
    leases: map<Lease, Ch>, nextLease: Lease)

  /** A pool and the goroutines inside its methods. */
  datatype State = State(p: Pool, threads: map<Tid, PC>)

  /** newChannelPool: the two sizes as the constructor adjusts them. */
  function PoolSize(configured: int): (n: nat)
    ensures n >= 1
  {
    if configured <= 0 then 1 else configured
  }

  function MaxIdle(configured: int, poolSize: nat): (n: nat)
    requires poolSize >= 1
    ensures 1 <= n <= poolSize
  {
    var wanted := if configured <= 0 then poolSize else configured;
    if wanted > poolSize then poolSize else wanted
  }

  function New(conn: nat, channelPoolSize: int, channelPoolMaxIdle: int): Pool {
    var poolSize := PoolSize(channelPoolSize);
    Pool(Config(conn, poolSize, MaxIdle(channelPoolMaxIdle, poolSize)),
         [], false, false, 0, None, false, 0, Stats(0, 0, 0), {}, 0, false, map[], 0)
  }

  datatype Call = Acquire | Close

  /** How an undetermined step goes: normally, by a done context, or by an error from the broker or the options. */
  datatype Choice = Proceed | Cancel | Fail

  datatype Event =
    | Begin(t: Tid, call: Call)
    | Run(t: Tid, choice: Choice)
    | Grant(t: Tid)
    | GiveBack(t: Tid, lease: Lease, discard: bool)
    | Die(ch: Ch)

  predicate Enabled(s: State, e: Event) {
    match e
    case Begin(t, _) => t !in s.threads
    case Run(t, choice) => t in s.threads && CanRun(s.p, s.threads[t], choice)
    case Grant(t) => t in s.threads && s.threads[t].InAcquire? && s.threads[t].acquire.Granted?
    case GiveBack(t, lease, _) => t !in s.threads && lease in s.p.leases
    case Die(ch) => true
  }

  /** Which choices a goroutine at `pc` has: locks, the blocking select of Acquire, and the fallible calls. */
  predicate CanRun(p: Pool, pc: PC, choice: Choice) {
    match pc
    case InAcquire(at) => CanAcquire(p, at, choice)
    case InOpen(at) => choice.Proceed? || (choice.Fail? && (at.OpenChannel? || at.RunOptions?))
    case InRelease(at) => choice.Proceed? && (at.LockRelease? ==> p.mu.None?)
    case InClose(at) =>
      choice.Proceed? && (at.LockClose? ==> p.mu.None?) && (at.DrainQueue? ==> p.queue != [] || p.queueClosed)
    case InPermit(at) => choice.Proceed?
  }

  predicate CanAcquire(p: Pool, at: AcquireAt, choice: Choice) {
    match at
    case Snapshot => choice.Proceed? && p.mu.None?
    case Poll => choice.Proceed? || choice.Cancel?
    case Wait => choice.Cancel? || (choice.Proceed? && (p.queue != [] || p.queueClosed))
    case Granted(_) => false
    case _ => choice.Proceed?
  }

  function Apply(s: State, e: Event): State
    requires Enabled(s, e)
  {
    match e
    case Begin(t, call) =>
      s.(threads := s.threads[t := if call.Acquire? then InAcquire(Snapshot) else InClose(LockClose)])
    case Run(t, choice) =>
      var (p, pc) := RunStep(s.p, t, s.threads[t], choice);
      State(p, if pc.Some? then s.threads[t := pc.value] else s.threads - {t})
    case Grant(t) =>
      var ch := s.threads[t].acquire.ch;
      State(s.p.(leases := s.p.leases[s.p.nextLease := ch], nextLease := s.p.nextLease + 1), s.threads - {t})
    case GiveBack(t, lease, discard) =>
      var ch := s.p.leases[lease];
      State(s.p.(leases := s.p.leases - {lease}),
            s.threads[t := InRelease(if discard then CloseDiscarded(ch) else LockRelease(ch))])
    case Die(ch) => s.(p := s.p.(open := s.p.open - {ch}))
  }

  /** One action of a goroutine at `pc`: the pool afterwards and where the goroutine is then; None when it leaves. */
  function RunStep(p: Pool, t: Tid, pc: PC, choice: Choice): (Pool, Option<PC>)
    requires CanRun(p, pc, choice)
  {
    match pc
    case InAcquire(at) => AcquireStep(p, at, choice)
    case InOpen(at) => OpenStep(p, at, choice)
    case InRelease(at) => ReleaseStep(p, t, at)
    case InClose(at) => CloseStep(p, t, at)
    case InPermit(at) => PermitStep(p, at)
  }

  function AcquireStep(p: Pool, at: AcquireAt, choice: Choice): (Pool, Option<PC>)
    requires CanAcquire(p, at, choice)
  {
    match at
    case Snapshot => (p, if p.closed then None else Some(InAcquire(Poll)))
    case Poll =>
      if choice.Cancel? then (p, None)
      else if p.queue != [] then (p.(queue := p.queue[1..]), Some(InAcquire(Inspect(p.queue[0]))))
      else (p, if p.queueClosed then None else Some(InAcquire(TryPermit)))
    case Wait =>
      if choice.Cancel? then (p, None)
      else if p.queue != [] then (p.(queue := p.queue[1..]), Some(InAcquire(Inspect(p.queue[0]))))
      else (p, None)
    case Inspect(ch) => (p, Some(if ch in p.open then InAcquire(CountReuse(ch)) else InPermit(TakeToken(Retry))))
    case CountReuse(ch) => (p.(stats := p.stats.(acquired := p.stats.acquired + 1)), Some(InAcquire(Granted(ch))))
    case TryPermit =>
      if p.permits < p.config.poolSize then (p.(permits := p.permits + 1), Some(InOpen(AddActive)))
      else (p, Some(InAcquire(Wait)))
  }

  function OpenStep(p: Pool, at: OpenAt, choice: Choice): (Pool, Option<PC>) {
    match at
    case AddActive => (p.(active := p.active + 1), Some(InOpen(OpenChannel)))
    case OpenChannel =>
      if choice.Fail? then (p, Some(InPermit(TakeToken(Failed))))
      else
        var ch := Ch(p.config.conn, p.next);
        (p.(open := p.open + {ch}, next := p.next + 1), Some(InOpen(CountAcquired(ch))))
    case CountAcquired(ch) =>
      (p.(stats := p.stats.(acquired := p.stats.acquired + 1)), Some(InOpen(CountCreated(ch))))
    case CountCreated(ch) => (p.(stats := p.stats.(created := p.stats.created + 1)), Some(InOpen(RunOptions(ch))))
    case RunOptions(ch) => (p, Some(if choice.Fail? then InOpen(CloseRefused(ch)) else InAcquire(Granted(ch))))
    case CloseRefused(ch) => (p.(open := p.open - {ch}), Some(InPermit(TakeToken(Failed))))
  }

  function ReleaseStep(p: Pool, t: Tid, at: ReleaseAt): (Pool, Option<PC>) {
    match at
    case LockRelease(ch) => (p.(mu := Some(t)), Some(InRelease(CheckClosed(ch))))
    case CheckClosed(ch) => (p, Some(InRelease(if p.closed then CloseReturned(ch) else CheckDead(ch))))
    case CheckDead(ch) => (p, Some(if ch in p.open then InRelease(SendIdle(ch)) else InPermit(TakeToken(Unlock))))
    case SendIdle(ch) =>
      if p.detached then (p, Some(InRelease(CloseReturned(ch))))
      else if p.queueClosed then (p.(panicked := true), Some(InRelease(CloseReturned(ch))))
      else if |p.queue| < p.config.maxIdle then (p.(queue := p.queue + [ch]), Some(InRelease(CountReturned)))
      else (p, Some(InRelease(CloseReturned(ch))))
    case CountReturned => (p.(stats := p.stats.(returned := p.stats.returned + 1)), Some(InRelease(UnlockRelease)))
    case CloseReturned(ch) => (p.(open := p.open - {ch}), Some(InPermit(TakeToken(Unlock))))
    case UnlockRelease => (p.(mu := None), None)
    case CloseDiscarded(ch) => (p.(open := p.open - {ch}), Some(InPermit(TakeToken(Discarded))))
  }

  function CloseStep(p: Pool, t: Tid, at: CloseAt): (Pool, Option<PC>) {
    match at
    case LockClose => (p.(mu := Some(t)), Some(InClose(SetClosed)))
    case SetClosed =>
      if p.closed then (p, Some(InClose(UnlockClosedTwice))) else (p.(closed := true), Some(InClose(CloseQueue)))
    case CloseQueue =>
      (p.(queueClosed := true, panicked := p.panicked || p.queueClosed), Some(InClose(DetachQueue)))
    case DetachQueue => (p.(detached := true), Some(InClose(UnlockClose)))
    case UnlockClose => (p.(mu := None), Some(InClose(DrainQueue)))
    case UnlockClosedTwice => (p.(mu := None), None)
    case DrainQueue =>
      if p.queue != [] then (p.(queue := p.queue[1..]), Some(InClose(CloseDrained(p.queue[0])))) else (p, None)
    case CloseDrained(ch) => (p.(open := p.open - {ch}), Some(InPermit(TakeToken(Drain))))
  }

  function PermitStep(p: Pool, at: PermitAt): (Pool, Option<PC>) {
    match at
    case TakeToken(next) =>
      (if p.permits > 0 then p.(permits := p.permits - 1) else p, Some(InPermit(LoadActive(next))))
    case LoadActive(next) =>
      if p.active <= 0 then (p, Resume(next)) else (p, Some(InPermit(SwapActive(next, p.active))))
    case SwapActive(next, seen) =>
      if p.active == seen then (p.(active := seen - 1), Resume(next)) else (p, Some(InPermit(LoadActive(next))))
  }

  /** Where the caller of releasePermit goes on. */
  function Resume(next: Next): Option<PC> {
    match next
    case Retry => Some(InAcquire(Snapshot))
    case Failed => None
    case Discarded => None
    case Unlock => Some(InRelease(UnlockRelease))
    case Drain => Some(InClose(DrainQueue))
  }

  /** Where a channel is: waiting in the idle queue, leased, in the hands of a goroutine inside the pool, or closed. */
  datatype Owner = InQueue | LeasedTo(lease: Lease) | HeldBy(t: Tid) | Gone

  /**
   History kept beside the state; no step reads it. `owner` follows every channel ever opened,
   `closer` is the goroutine inside the effective Close, the counters number the channels that left
   circulation by each route, and `saturated` records a visit to an empty-handed branch of releasePermit.
   */
  datatype Log = Log(
    owner: map<Ch, Owner>, closer: Option<Tid>,
    discards: nat, closedOnReturn: nat, refused: nat, deadIdle: nat, drained: nat,
    saturated: bool)

  const EMPTY_LOG := Log(map[], None, 0, 0, 0, 0, 0, false)

  function Record(s: State, l: Log, e: Event): Log
    requires Enabled(s, e)
  {
    match e
    case Begin(t, call) => l
    case Run(t, choice) => RunRecord(s.p, l, t, s.threads[t], choice)
    case Grant(t) => l.(owner := l.owner[s.threads[t].acquire.ch := LeasedTo(s.p.nextLease)])
    case GiveBack(t, lease, discard) => l.(owner := l.owner[s.p.leases[lease] := HeldBy(t)])
    case Die(ch) => l
  }

  function RunRecord(p: Pool, l: Log, t: Tid, pc: PC, choice: Choice): Log {
    match pc
    case InAcquire(at) => AcquireRecord(p, l, t, at, choice)
    case InOpen(at) => OpenRecord(p, l, t, at, choice)
    case InRelease(at) => ReleaseRecord(p, l, at)
    case InClose(at) => CloseRecord(p, l, t, at)
    case InPermit(at) => PermitRecord(p, l, at)
  }

  function AcquireRecord(p: Pool, l: Log, t: Tid, at: AcquireAt, choice: Choice): Log {
    match at
    case Poll => if choice.Cancel? || p.queue == [] then l else l.(owner := l.owner[p.queue[0] := HeldBy(t)])
    case Wait => if choice.Cancel? || p.queue == [] then l else l.(owner := l.owner[p.queue[0] := HeldBy(t)])
    case Inspect(ch) =>
      if ch in p.open then l else l.(owner := l.owner[ch := Gone], deadIdle := l.deadIdle + 1)
    case _ => l
  }

  function OpenRecord(p: Pool, l: Log, t: Tid, at: OpenAt, choice: Choice): Log {
    match at
    case OpenChannel => if choice.Fail? then l else l.(owner := l.owner[Ch(p.config.conn, p.next) := HeldBy(t)])
    case CloseRefused(ch) => l.(owner := l.owner[ch := Gone], refused := l.refused + 1)
    case _ => l
  }

  function ReleaseRecord(p: Pool, l: Log, at: ReleaseAt): Log {
    match at
    case CheckDead(ch) =>
      if ch in p.open then l else l.(owner := l.owner[ch := Gone], closedOnReturn := l.closedOnReturn + 1)
    case SendIdle(ch) =>
      if !p.detached && !p.queueClosed && |p.queue| < p.config.maxIdle then l.(owner := l.owner[ch := InQueue]) else l
    case CloseReturned(ch) => l.(owner := l.owner[ch := Gone], closedOnReturn := l.closedOnReturn + 1)
    case CloseDiscarded(ch) => l.(owner := l.owner[ch := Gone], discards := l.discards + 1)
    case _ => l
  }

  function CloseRecord(p: Pool, l: Log, t: Tid, at: CloseAt): Log {
    match at
    case SetClosed => if p.closed then l else l.(closer := Some(t))
    case DrainQueue =>
      if p.queue == [] then l.(closer := None)
      else l.(owner := l.owner[p.queue[0] := HeldBy(t)], drained := l.drained + 1)
    case CloseDrained(ch) => l.(owner := l.owner[ch := Gone])
    case _ => l
  }

  function PermitRecord(p: Pool, l: Log, at: PermitAt): Log {
    match at
    case TakeToken(_) => if p.permits == 0 then l.(saturated := true) else l
    case LoadActive(_) => if p.active <= 0 then l.(saturated := true) else l
    case SwapActive(_, _) => l
  }

  /** A pool with its history, and the pool after a schedule; None when the schedule asks for an impossible step. */
  datatype Sys = Sys(s: State, l: Log)

  predicate Can(y: Sys, e: Event) {
    Enabled(y.s, e)
  }

  function Do(y: Sys, e: Event): Sys
    requires Can(y, e)
  {
    Sys(Apply(y.s, e), Record(y.s, y.l, e))
  }

  function After(y: Sys, trace: seq<Event>): Option<Sys>
    decreases |trace|
  {
    if trace == [] then Some(y)
    else if !Can(y, trace[0]) then None
    else After(Do(y, trace[0]), trace[1..])
  }

  function NewSys(conn: nat, channelPoolSize: int, channelPoolMaxIdle: int): Sys {
    Sys(State(New(conn, channelPoolSize, channelPoolMaxIdle), map[]), EMPTY_LOG)
  }

  /** One more step of a schedule, and the state it leads to. */
  lemma Walk(y: Sys, trace: seq<Event>, s: State, e: Event) returns (longer: seq<Event>, n: State)
    requires After(y, trace).Some? && After(y, trace).value.s == s && Enabled(s, e)
    ensures longer == trace + [e] && n == Apply(s, e)
    ensures After(y, longer).Some? && After(y, longer).value.s == n
    decreases |trace|
  {
    n := Apply(s, e);
    longer := trace + [e];
    if trace == [] {
      assert After(Do(y, e), []) == Some(Do(y, e));
    } else {
      var rest, _ := Walk(Do(y, trace[0]), trace[1..], s, e);
      assert longer[1..] == rest;
    }
  }
}
