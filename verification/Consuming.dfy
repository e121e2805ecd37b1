/**
 The consumer helpers (consumer.go): what they acknowledge, and how often they call the handler. The
 loops are methods; the worker pool is a step machine over any interleaving of its workers.
 */
module Consuming {
  import opened Base

  type Delivery = nat

  /** What a helper tells the broker of one delivery: an ack, or a nack with requeue. */
  datatype Settlement = Ack(delivery: Delivery) | Nack(delivery: Delivery)

  /** How the handling of one delivery came out for the helper. */
  datatype Verdict = Succeeded | Failed | TimedOut

  /** The retrying handler's result: success at some attempt up to the last. */
  ghost predicate SucceedsWithin(results: nat -> bool, maxRetries: int) {
    exists k: nat :: k <= maxRetries && results(k)
  }

  class Consumer {
    const autoAck: bool
    const maxRetries: int
    /** What the broker has been told by the helpers. */
    var settled: seq<Settlement>
    /** How many handler calls each retried delivery took. */
    var calls: seq<nat>

    constructor (autoAck: bool, maxRetries: int)
      ensures this.autoAck == autoAck && this.maxRetries == maxRetries && settled == [] && calls == []
    {
      this.autoAck, this.maxRetries, settled, calls := autoAck, maxRetries, [], [];
    }

    /**
     ConsumeWithHandler on the deliveries that arrive before the delivery channel closes. `done(i)` says that
     the select takes a done context after `i` deliveries; otherwise it takes the next one, or sees the close.
     */
    method ConsumeWithHandler(deliveries: seq<Delivery>, handler: nat -> bool, done: nat -> bool)
      returns (received: nat, cancelled: bool)
      modifies this`settled
      ensures received <= |deliveries| && (cancelled <==> done(received))
      ensures (forall i :: 0 <= i < received ==> !done(i)) && (!cancelled ==> received == |deliveries|)
      ensures old(settled) <= settled && |settled| == |old(settled)| + if autoAck then 0 else received
      ensures !autoAck ==> forall i :: 0 <= i < received ==>
                var s := settled[|old(settled)| + i]; s.delivery == deliveries[i] && (s.Ack? <==> handler(i))
    {
      received, cancelled := 0, false;
      while true
        invariant received <= |deliveries| && forall i :: 0 <= i < received ==> !done(i)
        invariant old(settled) <= settled && |settled| == |old(settled)| + if autoAck then 0 else received
        invariant !autoAck ==> forall i :: 0 <= i < received ==>
                    var s := settled[|old(settled)| + i]; s.delivery == deliveries[i] && (s.Ack? <==> handler(i))
        decreases |deliveries| - received
      {
        if done(received) {
          return received, true;
        }
        if received == |deliveries| {
          return received, false;
        }
        var delivery := deliveries[received];
        var ok := handler(received);
        received := received + 1;
        if !ok {
          if !autoAck {
            settled := settled + [Nack(delivery)];
          }
          continue;
        }
        if !autoAck {
          settled := settled + [Ack(delivery)];
        }
      }
    }

    /** ConsumeWithTimeout: a delivery whose handler has not answered in time is nacked, whatever it says later. */
    method ConsumeWithTimeout(deliveries: seq<Delivery>, outcome: nat -> Verdict)
      modifies this`settled
      ensures old(settled) <= settled && |settled| == |old(settled)| + if autoAck then 0 else |deliveries|
      ensures !autoAck ==> forall i :: 0 <= i < |deliveries| ==>
                var s := settled[|old(settled)| + i];
                s.delivery == deliveries[i] && (s.Ack? <==> outcome(i).Succeeded?)
    {
      for n := 0 to |deliveries|
        invariant old(settled) <= settled && |settled| == |old(settled)| + if autoAck then 0 else n
        invariant !autoAck ==> forall i :: 0 <= i < n ==>
                    var s := settled[|old(settled)| + i];
                    s.delivery == deliveries[i] && (s.Ack? <==> outcome(i).Succeeded?)
      {
        match outcome(n)
        case Failed =>
          if !autoAck {
            settled := settled + [Nack(deliveries[n])];
          }
        case Succeeded =>
          if !autoAck {
            settled := settled + [Ack(deliveries[n])];
          }
        case TimedOut =>
          if !autoAck {
            settled := settled + [Nack(deliveries[n])];
          }
      }
    }

    /** The handler ConsumeWithRetry wraps around the caller's: one delivery, up to maxRetries + 1 calls. */
    method Retry(results: nat -> bool) returns (ok: bool, attempts: nat)
      ensures ok <==> SucceedsWithin(results, maxRetries)
      ensures ok ==> attempts > 0 && results(attempts - 1)
      ensures !ok ==> attempts == if maxRetries < 0 then 0 else maxRetries + 1
      ensures forall k :: 0 <= k < attempts - (if ok then 1 else 0) ==> !results(k)
    {
      attempts := 0;
      while attempts <= maxRetries
        invariant 0 <= attempts && (attempts <= maxRetries + 1 || (maxRetries < 0 && attempts == 0))
        invariant forall k :: 0 <= k < attempts ==> !results(k)
        decreases maxRetries + 1 - attempts
      {
        attempts := attempts + 1;
        if results(attempts - 1) {
          return true, attempts;
        }
      }
      return false, attempts;
    }

    /**
     ConsumeWithRetry: a delivery is acked iff one of its attempts succeeded, and the handler is called
     on it up to its first success or the last attempt allowed.
     */
    method ConsumeWithRetry(deliveries: seq<Delivery>, results: nat -> (nat -> bool), done: nat -> bool)
      returns (received: nat, cancelled: bool)
      modifies this`settled, this`calls
      ensures received <= |deliveries| && (cancelled <==> done(received))
      ensures (forall i :: 0 <= i < received ==> !done(i)) && (!cancelled ==> received == |deliveries|)
      ensures |settled| == |old(settled)| + if autoAck then 0 else received
      ensures old(settled) <= settled && old(calls) <= calls && |calls| == |old(calls)| + received
      ensures !autoAck ==> forall i :: 0 <= i < received ==>
                var s := settled[|old(settled)| + i];
                s.delivery == deliveries[i] && (s.Ack? <==> SucceedsWithin(results(i), maxRetries))
      ensures forall i :: 0 <= i < received ==> RightCalls(results(i), calls[|old(calls)| + i])
    {
      received, cancelled := 0, false;
      while true
        invariant received <= |deliveries| && forall i :: 0 <= i < received ==> !done(i)
        invariant |settled| == |old(settled)| + if autoAck then 0 else received
        invariant old(settled) <= settled && old(calls) <= calls && |calls| == |old(calls)| + received
        invariant !autoAck ==> forall i :: 0 <= i < received ==>
                    var s := settled[|old(settled)| + i];
                    s.delivery == deliveries[i] && (s.Ack? <==> SucceedsWithin(results(i), maxRetries))
        invariant forall i :: 0 <= i < received ==> RightCalls(results(i), calls[|old(calls)| + i])
        decreases |deliveries| - received
      {
        if done(received) {
          return received, true;
        }
        if received == |deliveries| {
          return received, false;
        }
        var ok, attempts := Retry(results(received));
        calls := calls + [attempts];
        if !autoAck {
          settled := settled + [if ok then Ack(deliveries[received]) else Nack(deliveries[received])];
        }
        received := received + 1;
      }
    }

    /** The number of calls on one delivery: the first success and all before it, or every attempt allowed. */
    ghost predicate RightCalls(results: nat -> bool, n: nat) {
      if SucceedsWithin(results, maxRetries)
      then n > 0 && n - 1 <= maxRetries && results(n - 1) && forall k :: 0 <= k < n - 1 ==> !results(k)
      else n == if maxRetries < 0 then 0 else maxRetries + 1
    }
  }

  // ---- ConsumeWithWorkers ----

  datatype Work = Free | Handling(delivery: Delivery) | Settling(delivery: Delivery, ok: bool) | Stopped

  /** A settlement with the delivery's handler result, or an in-hand mark: where a received delivery is. */
  datatype Place = InHand(worker: nat) | SettledAs(index: nat)

  /**
   Deliveries are numbered by arrival; `next` of them have been received. `verdicts` and `place` are
   history: the handler results, and where each received delivery is.
   */
  datatype Pool = Pool(
    autoAck: bool, arrived: nat, closed: bool, next: nat, workers: seq<Work>, settled: seq<Settlement>,
    verdicts: map<Delivery, bool>, place: map<Delivery, Place>)

  datatype Step = Arrive | CloseDeliveries | Take(w: nat) | Answer(w: nat, ok: bool) | Settle(w: nat) | Stop(w: nat)

  function StartWorkers(numWorkers: int, autoAck: bool): (p: Pool)
    ensures |p.workers| == if numWorkers <= 0 then 1 else numWorkers
  {
    Pool(autoAck, 0, false, 0, seq(if numWorkers <= 0 then 1 else numWorkers, _ => Free), [], map[], map[])
  }

  predicate Can(p: Pool, e: Step) {
    match e
    case Arrive => !p.closed
    case CloseDeliveries => true
    case Take(w) => w < |p.workers| && p.workers[w].Free? && p.next < p.arrived
    case Answer(w, _) => w < |p.workers| && p.workers[w].Handling?
    case Settle(w) => w < |p.workers| && p.workers[w].Settling?
    case Stop(w) => w < |p.workers| && p.workers[w].Free? && p.closed && p.next == p.arrived
  }

  function Do(p: Pool, e: Step): Pool
    requires Can(p, e)
  {
    match e
    case Arrive => p.(arrived := p.arrived + 1)
    case CloseDeliveries => p.(closed := true)
    case Take(w) =>
      p.(next := p.next + 1, workers := p.workers[w := Handling(p.next)], place := p.place[p.next := InHand(w)])
    case Answer(w, ok) =>
      var d := p.workers[w].delivery;
      p.(workers := p.workers[w := Settling(d, ok)], verdicts := p.verdicts[d := ok])
    case Settle(w) =>
      var d := p.workers[w].delivery;
      if p.autoAck then p.(workers := p.workers[w := Free])
      else p.(workers := p.workers[w := Free],
              settled := p.settled + [if p.workers[w].ok then Ack(d) else Nack(d)],
              place := p.place[d := SettledAs(|p.settled|)])
    case Stop(w) => p.(workers := p.workers[w := Stopped])
  }

  function After(p: Pool, trace: seq<Step>): Option<Pool>
    decreases |trace|
  {
    if trace == [] then Some(p)
    else if !Can(p, trace[0]) then None
    else After(Do(p, trace[0]), trace[1..])
  }

  predicate Holds(p: Pool, w: nat, d: Delivery)
    requires w < |p.workers|
  {
    (p.workers[w].Handling? || p.workers[w].Settling?) && p.workers[w].delivery == d
  }

  /** The place recorded for delivery `d` is where it is. */
  predicate Sits(p: Pool, d: Delivery)
    requires d in p.place
  {
    match p.place[d]
    case InHand(w) => w < |p.workers| && Holds(p, w, d)
    case SettledAs(i) => i < |p.settled| && p.settled[i].delivery == d
  }

  /** The received deliveries are the first ones, and each is where `place` says. */
  ghost predicate Places(p: Pool) {
    && p.next <= p.arrived
    && (forall d: nat :: d in p.place <==> d < p.next)
    && (forall d :: d in p.place ==> Sits(p, d))
  }

  /** A delivery in a worker's hands is nowhere else. */
  ghost predicate Hands(p: Pool) {
    forall w: nat, d: nat :: w < |p.workers| && Holds(p, w, d) ==> d in p.place && p.place[d] == InHand(w)
  }

  /** A settlement is its delivery's only place, and says what the handler said. */
  ghost predicate Settled(p: Pool) {
    && (forall w :: 0 <= w < |p.workers| && p.workers[w].Settling? ==>
          p.workers[w].delivery in p.verdicts && p.verdicts[p.workers[w].delivery] == p.workers[w].ok)
    && (forall i :: 0 <= i < |p.settled| ==>
          var s := p.settled[i];
          && s.delivery in p.place && p.place[s.delivery] == SettledAs(i)
          && s.delivery in p.verdicts && (s.Ack? <==> p.verdicts[s.delivery]))
  }

  ghost predicate Inv(p: Pool) {
    && !p.autoAck && Places(p) && Hands(p) && Settled(p)
    && (forall w :: 0 <= w < |p.workers| && p.workers[w].Stopped? ==> p.closed && p.next == p.arrived)
  }

  lemma PlacesStep(p: Pool, e: Step)
    requires Inv(p) && Can(p, e)
    ensures Places(Do(p, e))
  {
    var n := Do(p, e);
    if e.Settle? {
      assert Holds(p, e.w, p.workers[e.w].delivery);
    }
    forall d: nat ensures d in n.place <==> d < n.next {
      assert d in p.place <==> d < p.next;
    }
    forall d | d in n.place ensures Sits(n, d) {
      assert d in p.place ==> Sits(p, d);
    }
  }

  lemma HandsStep(p: Pool, e: Step)
    requires Inv(p) && Can(p, e)
    ensures Hands(Do(p, e))
  {
    var n := Do(p, e);
    forall w: nat, d: nat | w < |n.workers| && Holds(n, w, d) ensures d in n.place && n.place[d] == InHand(w) {
      assert Holds(p, w, d) || (e == Take(w) && d == p.next);
      if e.Settle? {
        assert Holds(p, e.w, p.workers[e.w].delivery);
      }
    }
  }

  lemma SettledStep(p: Pool, e: Step)
    requires Inv(p) && Can(p, e)
    ensures Settled(Do(p, e))
  {
    if e.Answer? {
      AnswerSettled(p, e.w, e.ok);
    } else if e.Settle? {
      assert Holds(p, e.w, p.workers[e.w].delivery);
    }
  }

  lemma AnswerSettled(p: Pool, w: nat, ok: bool)
    requires Inv(p) && Can(p, Answer(w, ok))
    ensures Settled(Do(p, Answer(w, ok)))
  {
    assert Holds(p, w, p.workers[w].delivery);
    forall v: nat | v < |p.workers| && v != w && p.workers[v].Settling?
      ensures p.workers[v].delivery != p.workers[w].delivery
    {
      assert Holds(p, v, p.workers[v].delivery);
    }
  }

  lemma InvStep(p: Pool, e: Step)
    requires Inv(p) && Can(p, e)
    ensures Inv(Do(p, e))
  {
    PlacesStep(p, e);
    HandsStep(p, e);
    SettledStep(p, e);
  }

  lemma {:induction false} InvAfter(p: Pool, trace: seq<Step>)
    requires Inv(p) && After(p, trace).Some?
    ensures Inv(After(p, trace).value) && |After(p, trace).value.workers| == |p.workers|
    decreases |trace|
  {
    if trace != [] {
      InvStep(p, trace[0]);
      InvAfter(Do(p, trace[0]), trace[1..]);
    }
  }

  /**
   In manual-ack mode, in every interleaving of the workers: each received delivery is in the hands of
   exactly one worker or settled exactly once, never both; it is acked iff its handler result was nil.
   When all workers have stopped, every delivery that arrived has been settled exactly once.
   */
  lemma WorkersSettleOnce(numWorkers: int, trace: seq<Step>, d: Delivery)
    requires After(StartWorkers(numWorkers, false), trace).Some?
    requires d < After(StartWorkers(numWorkers, false), trace).value.next
    ensures var p := After(StartWorkers(numWorkers, false), trace).value;
            && |p.workers| == (if numWorkers <= 0 then 1 else numWorkers)
            && ((exists w :: 0 <= w < |p.workers| && Holds(p, w, d)) <==> !IsSettled(p, d))
            && (forall v, w :: 0 <= v < w < |p.workers| ==> !(Holds(p, v, d) && Holds(p, w, d)))
            && (forall i, j :: 0 <= i < j < |p.settled| ==> p.settled[i].delivery != p.settled[j].delivery)
            && (forall i :: 0 <= i < |p.settled| && p.settled[i].delivery == d ==>
                  d in p.verdicts && (p.settled[i].Ack? <==> p.verdicts[d]))
  {
    InvAfter(StartWorkers(numWorkers, false), trace);
    var p := After(StartWorkers(numWorkers, false), trace).value;
    assert Sits(p, d);
  }

  predicate IsSettled(p: Pool, d: Delivery) {
    exists i :: 0 <= i < |p.settled| && p.settled[i].delivery == d
  }

  lemma WorkersSettleAll(numWorkers: int, trace: seq<Step>)
    requires After(StartWorkers(numWorkers, false), trace).Some?
    requires var p := After(StartWorkers(numWorkers, false), trace).value;
             forall w :: 0 <= w < |p.workers| ==> p.workers[w].Stopped?
    ensures var p := After(StartWorkers(numWorkers, false), trace).value;
            forall d: nat :: d < p.arrived ==> IsSettled(p, d)
  {
    InvAfter(StartWorkers(numWorkers, false), trace);
    var p := After(StartWorkers(numWorkers, false), trace).value;
    assert p.workers[0].Stopped?;
    forall d: nat | d < p.arrived ensures IsSettled(p, d) {
      assert Sits(p, d);
    }
  }

  /** In auto-ack mode the workers settle nothing, in any interleaving. */
  lemma WorkersAutoAck(numWorkers: int, trace: seq<Step>)
    requires After(StartWorkers(numWorkers, true), trace).Some?
    ensures After(StartWorkers(numWorkers, true), trace).value.settled == []
  {
    NothingSettled(StartWorkers(numWorkers, true), trace);
  }

  lemma {:induction false} NothingSettled(p: Pool, trace: seq<Step>)
    requires p.autoAck && p.settled == [] && After(p, trace).Some?
    ensures After(p, trace).value.settled == []
    decreases |trace|
  {
    if trace != [] {
      NothingSettled(Do(p, trace[0]), trace[1..]);
    }
  }

  /** A step a worker takes by itself. */
  predicate ByWorker(e: Step) {
    !e.Arrive? && !e.CloseDeliveries?
  }

  /** What is left to do: four steps for each delivery not received, fewer for one in hand, one for a free worker. */
  function Load(w: Work): nat {
    match w
    case Stopped => 0
    case Free => 1
    case Settling(_, _) => 2
    case Handling(_) => 3
  }

  function Loads(workers: seq<Work>): nat {
    if workers == [] then 0 else Loads(workers[..|workers| - 1]) + Load(workers[|workers| - 1])
  }

  function Left(p: Pool): int {
    4 * (p.arrived - p.next) + Loads(p.workers)
  }

  lemma {:induction false} LoadsUpdate(workers: seq<Work>, w: nat, x: Work)
    requires w < |workers|
    ensures Loads(workers[w := x]) == Loads(workers) - Load(workers[w]) + Load(x)
    ensures Load(workers[w]) <= Loads(workers)
    decreases |workers|
  {
    var last := |workers| - 1;
    if w == last {
      assert workers[w := x][..last] == workers[..last];
    } else {
      LoadsUpdate(workers[..last], w, x);
      assert workers[w := x][..last] == workers[..last][w := x];
    }
  }

  /**
   The workers never get stuck and never go on for ever: each of their steps leaves less to do, and once the
   delivery channel is closed some step is possible until all have stopped.
   */
  lemma WorkersFinish(numWorkers: int, trace: seq<Step>)
    requires After(StartWorkers(numWorkers, false), trace).Some?
    ensures var p := After(StartWorkers(numWorkers, false), trace).value;
            && Left(p) >= 0
            && (forall e :: ByWorker(e) && Can(p, e) ==> Left(Do(p, e)) < Left(p))
            && (p.closed && (exists w :: 0 <= w < |p.workers| && !p.workers[w].Stopped?) ==>
                  exists e :: ByWorker(e) && Can(p, e))
  {
    InvAfter(StartWorkers(numWorkers, false), trace);
    var p := After(StartWorkers(numWorkers, false), trace).value;
    forall e | ByWorker(e) && Can(p, e) ensures Left(Do(p, e)) < Left(p) {
      LoadsUpdate(p.workers, e.w, Do(p, e).workers[e.w]);
    }
    if w :| p.closed && 0 <= w < |p.workers| && !p.workers[w].Stopped? {
      var e := if p.workers[w].Handling? then Answer(w, true)
               else if p.workers[w].Settling? then Settle(w)
               else if p.next < p.arrived then Take(w)
               else Stop(w);
      assert ByWorker(e) && Can(p, e);
    }
  }
}
