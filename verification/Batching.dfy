/**
 BatchProducer (producer.go): Add appends under the lock, Flush takes the whole batch under the lock
 and then publishes it message by message, stopping at the first failure. Flushes by several
 goroutines may overlap each other and later additions.
 */
module Batching {
  import opened Base

  type Message = int

  /** One Flush: the batch it took, how many messages it has published, and whether the next one failed. */
  datatype Flush = Flush(batch: seq<Message>, done: nat, failed: bool)

  /** A message on the wire, by the flush that published it and its place in that flush's batch. */
  datatype Sent = Sent(flush: nat, index: nat)

  /** `added` is the history of additions; `flushes` every Flush so far, in the order they took their batches. */
  datatype State = State(added: seq<Message>, pending: seq<Message>, flushes: seq<Flush>, wire: seq<Sent>)

  datatype Step = Add(msg: Message) | Take | Publish(flush: nat, ok: bool)

  const START := State([], [], [], [])

  predicate Running(f: Flush) {
    !f.failed && f.done < |f.batch|
  }

  predicate Can(s: State, e: Step) {
    e.Publish? ==> e.flush < |s.flushes| && Running(s.flushes[e.flush])
  }

  function Do(s: State, e: Step): State
    requires Can(s, e)
  {
    match e
    case Add(msg) => s.(added := s.added + [msg], pending := s.pending + [msg])
    case Take => s.(pending := [], flushes := s.flushes + [Flush(s.pending, 0, false)])
    case Publish(k, ok) =>
      var f := s.flushes[k];
      if ok then s.(flushes := s.flushes[k := f.(done := f.done + 1)], wire := s.wire + [Sent(k, f.done)])
      else s.(flushes := s.flushes[k := f.(failed := true)])
  }

  function After(s: State, trace: seq<Step>): Option<State>
    decreases |trace|
  {
    if trace == [] then Some(s)
    else if !Can(s, trace[0]) then None
    else After(Do(s, trace[0]), trace[1..])
  }

  /** The batches one after the other. */
  function Batches(flushes: seq<Flush>): seq<Message> {
    if flushes == [] then [] else Batches(flushes[..|flushes| - 1]) + flushes[|flushes| - 1].batch
  }

  /** The places of flush `k` on the wire, in order. */
  function OfFlush(wire: seq<Sent>, k: nat): seq<nat> {
    if wire == [] then []
    else OfFlush(wire[..|wire| - 1], k) + if wire[|wire| - 1].flush == k then [wire[|wire| - 1].index] else []
  }

  function UpTo(n: nat): (r: seq<nat>)
    ensures |r| == n && forall i :: 0 <= i < n ==> r[i] == i
  {
    seq(n, (i: nat) => i)
  }

  ghost predicate Inv(s: State) {
    && Batches(s.flushes) + s.pending == s.added
    && (forall k :: 0 <= k < |s.flushes| ==> PublishedInOrder(s, k))
    && (forall i :: 0 <= i < |s.wire| ==> s.wire[i].flush < |s.flushes|)
  }

  /** Flush `k` has published exactly the first `done` messages of its batch, each once and in order. */
  ghost predicate PublishedInOrder(s: State, k: nat)
    requires k < |s.flushes|
  {
    var f := s.flushes[k];
    f.done <= |f.batch| && (f.failed ==> f.done < |f.batch|) && OfFlush(s.wire, k) == UpTo(f.done)
  }

  lemma {:induction false} BatchesOnly(a: seq<Flush>, b: seq<Flush>)
    requires |a| == |b| && forall i :: 0 <= i < |a| ==> a[i].batch == b[i].batch
    ensures Batches(a) == Batches(b)
    decreases |a|
  {
    if a != [] {
      BatchesOnly(a[..|a| - 1], b[..|b| - 1]);
    }
  }

  lemma OfFlushAppend(wire: seq<Sent>, e: Sent, k: nat)
    ensures OfFlush(wire + [e], k) == OfFlush(wire, k) + if e.flush == k then [e.index] else []
  {
    assert (wire + [e])[..|wire|] == wire;
  }

  lemma {:induction false} OfFlushNew(wire: seq<Sent>, k: nat)
    requires forall i :: 0 <= i < |wire| ==> wire[i].flush != k
    ensures OfFlush(wire, k) == []
    decreases |wire|
  {
    if wire != [] {
      OfFlushNew(wire[..|wire| - 1], k);
    }
  }

  lemma InvAdd(s: State, msg: Message)
    requires Inv(s)
    ensures Inv(Do(s, Add(msg)))
  {
    assert Batches(s.flushes) + (s.pending + [msg]) == s.added + [msg];
    forall k | 0 <= k < |s.flushes| ensures PublishedInOrder(Do(s, Add(msg)), k) {
      assert PublishedInOrder(s, k);
    }
  }

  lemma InvTake(s: State)
    requires Inv(s)
    ensures Inv(Do(s, Take))
  {
    var n := Do(s, Take);
    assert n.flushes[..|s.flushes|] == s.flushes;
    assert Batches(n.flushes) == Batches(s.flushes) + s.pending;
    OfFlushNew(s.wire, |s.flushes|);
    forall k | 0 <= k < |n.flushes| ensures PublishedInOrder(n, k) {
      assert k < |s.flushes| ==> PublishedInOrder(s, k);
    }
  }

  /** A publish moves its own flush on by one message, and no other. */
  lemma PublishKeepsOrder(s: State, j: nat, ok: bool, k: nat)
    requires Inv(s) && Can(s, Publish(j, ok)) && k < |s.flushes|
    ensures PublishedInOrder(Do(s, Publish(j, ok)), k)
  {
    assert PublishedInOrder(s, k);
    if ok {
      var done := s.flushes[j].done;
      OfFlushAppend(s.wire, Sent(j, done), k);
      assert UpTo(done) + [done] == UpTo(done + 1);
    }
  }

  lemma InvPublish(s: State, j: nat, ok: bool)
    requires Inv(s) && Can(s, Publish(j, ok))
    ensures Inv(Do(s, Publish(j, ok)))
  {
    var n := Do(s, Publish(j, ok));
    BatchesOnly(s.flushes, n.flushes);
    forall k | 0 <= k < |n.flushes| ensures PublishedInOrder(n, k) {
      PublishKeepsOrder(s, j, ok, k);
    }
  }

  lemma InvStep(s: State, e: Step)
    requires Inv(s) && Can(s, e)
    ensures Inv(Do(s, e))
  {
    match e
    case Add(msg) => InvAdd(s, msg);
    case Take => InvTake(s);
    case Publish(j, ok) => InvPublish(s, j, ok);
  }

  lemma {:induction false} InvAfter(s: State, trace: seq<Step>)
    requires Inv(s) && After(s, trace).Some?
    ensures Inv(After(s, trace).value)
    decreases |trace|
  {
    if trace != [] {
      InvStep(s, trace[0]);
      InvAfter(Do(s, trace[0]), trace[1..]);
    }
  }

  /**
   Conservation over every run: the batches taken, in the order they were taken, followed by what is
   pending, are exactly the messages added, in the order they were added; each flush has published a
   prefix of its batch, each message once and in order. So each added message is in exactly one of:
   pending, published, the one that failed its flush, dropped behind it, or still to come.
   */
  lemma BatchConservation(trace: seq<Step>, k: nat)
    requires After(START, trace).Some? && k < |After(START, trace).value.flushes|
    ensures var s := After(START, trace).value; var f := s.flushes[k];
            && Batches(s.flushes) + s.pending == s.added
            && f.done <= |f.batch| && (f.failed ==> f.done < |f.batch|)
            && OfFlush(s.wire, k) == UpTo(f.done)
            && (forall i :: 0 <= i < |s.wire| ==> s.wire[i].flush < |s.flushes|)
  {
    InvAfter(START, trace);
    assert PublishedInOrder(After(START, trace).value, k);
  }

  /** Whatever the others do, a flush that has not failed can publish all that is left of its batch. */
  lemma {:induction false} FlushCompletes(s: State, k: nat) returns (trace: seq<Step>)
    requires k < |s.flushes| && !s.flushes[k].failed && s.flushes[k].done <= |s.flushes[k].batch|
    ensures After(s, trace).Some?
    ensures var n := After(s, trace).value; var f := s.flushes[k];
            n.flushes == s.flushes[k := f.(done := |f.batch|)] && n.pending == s.pending && n.added == s.added
    decreases |s.flushes[k].batch| - s.flushes[k].done
  {
    if !Running(s.flushes[k]) {
      trace := [];
    } else {
      var n := Do(s, Publish(k, true));
      var rest := FlushCompletes(n, k);
      trace := [Publish(k, true)] + rest;
      assert trace[1..] == rest;
    }
  }

  // ---- Flushing when asked to ----

  /** The callers' duty: nobody adds while the batch has reached `size`, which is what ShouldFlush tells. */
  predicate Obedient(s: State, trace: seq<Step>, size: nat)
    requires After(s, trace).Some?
    decreases |trace|
  {
    trace != [] ==>
      && (trace[0].Add? ==> |s.pending| < size)
      && Obedient(Do(s, trace[0]), trace[1..], size)
  }

  predicate Within(s: State, size: nat) {
    |s.pending| <= size && forall k :: 0 <= k < |s.flushes| ==> |s.flushes[k].batch| <= size
  }

  lemma {:induction false} ObedientWithin(s: State, trace: seq<Step>, size: nat)
    requires Within(s, size) && After(s, trace).Some? && Obedient(s, trace, size)
    ensures Within(After(s, trace).value, size)
    decreases |trace|
  {
    if trace != [] {
      ObedientWithin(Do(s, trace[0]), trace[1..], size);
    }
  }

  /** Callers who flush when ShouldFlush says so never have a batch, pending or taken, larger than its size. */
  lemma BatchesBounded(trace: seq<Step>, size: nat)
    requires After(START, trace).Some? && Obedient(START, trace, size)
    ensures Within(After(START, trace).value, size)
  {
    ObedientWithin(START, trace, size);
  }

  /** No message is lost silently or doubled; until a publish fails, messages go out in the order they were added. */
  ghost predicate Accounts(added: seq<Message>, published: seq<Message>, batch: seq<Message>, lost: seq<Message>) {
    && multiset(added) == multiset(published) + multiset(batch) + multiset(lost)
    && (lost == [] ==> published + batch == added)
  }

  lemma FlushAccounts(added: seq<Message>, published: seq<Message>, taken: seq<Message>, lost: seq<Message>, n: nat)
    requires n <= |taken| && Accounts(added, published, taken, lost)
    ensures Accounts(added, published + taken[..n], [], lost + taken[n..])
    ensures (published + taken[..n])[|published|..] == taken[..n]
  {
    assert taken == taken[..n] + taken[n..];
  }

  /** The first `n` publishes succeed. */
  predicate Accepted(answers: nat -> bool, n: int) {
    forall k :: 0 <= k < n ==> answers(k)
  }

  /** The producer as the object it is, used by one goroutine at a time. `added` and `lost` are history. */
  class BatchProducer {
    const maxSize: nat
    var batch: seq<Message>
    /** What Publish reported as published, in order. */
    var published: seq<Message>
    ghost var added: seq<Message>
    /** The messages of failed flushes, from the one that failed on. */
    ghost var lost: seq<Message>

    ghost predicate Valid()
      reads this
    {
      Accounts(added, published, batch, lost)
    }

    constructor (maxSize: nat)
      requires maxSize > 0
      ensures Valid() && this.maxSize == maxSize && batch == published == added == lost == []
    {
      this.maxSize := maxSize;
      batch, published, added, lost := [], [], [], [];
    }

    method Add(msg: Message)
      requires Valid()
      modifies this`batch, this`added
      ensures Valid() && batch == old(batch) + [msg] && added == old(added) + [msg]
    {
      batch := batch + [msg];
      added := added + [msg];
      assert lost == [] ==> published + batch == (published + old(batch)) + [msg];
    }

    /** The guard of the callers' duty in BatchesBounded. */
    method ShouldFlush() returns (r: bool)
      ensures !r <==> |batch| < maxSize
    {
      r := |batch| >= maxSize;
    }

    /** A publish may fail; what a failed one means for the message is the broker's business. */
    method Publish(msg: Message, answer: bool) returns (ok: bool)
      modifies this`published
      ensures ok == answer && published == if ok then old(published) + [msg] else old(published)
    {
      ok := answer;
      if ok {
        published := published + [msg];
      }
    }

    /**
     Flush empties the batch and publishes a prefix of it, up to the first failure; the rest is dropped. The
     k-th publish of the call succeeds iff `answers(k)`.
     */
    method Flush(answers: nat -> bool) returns (ok: bool)
      requires Valid()
      modifies this`batch, this`published, this`lost
      ensures Valid() && batch == [] && old(published) <= published
      ensures published[|old(published)|..] <= old(batch)
      ensures lost == old(lost) + old(batch)[|published| - |old(published)|..]
      ensures ok <==> |published| == |old(published)| + |old(batch)|
      ensures ok <==> Accepted(answers, |old(batch)|)
      ensures Accepted(answers, |published| - |old(published)|)
      ensures !ok ==> !answers(|published| - |old(published)|)
    {
      var taken := batch;
      batch := [];
      var n := PublishAll(taken, answers);
      lost := lost + taken[n..];
      ok := n == |taken|;
      FlushAccounts(added, old(published), taken, old(lost), n);
    }

    /** The publish loop of Flush; `n` messages go out, those before the first failure. */
    method PublishAll(taken: seq<Message>, answers: nat -> bool) returns (n: nat)
      modifies this`published
      ensures n <= |taken| && published == old(published) + taken[..n]
      ensures Accepted(answers, n) && (n < |taken| ==> !answers(n))
    {
      n := 0;
      while n < |taken|
        invariant n <= |taken| && published == old(published) + taken[..n]
        invariant Accepted(answers, n)
      {
        var ok := Publish(taken[n], answers(n));
        if !ok {
          return;
        }
        n := n + 1;
      }
    }
  }

  /** NewProducer: a nil channel is refused; a producer with confirms needs the channel to accept the mode. */
  method NewProducer(hasChannel: bool, withConfirm: bool, accepts: bool) returns (ok: bool)
    ensures ok <==> hasChannel && (withConfirm ==> accepts)
  {
    if !hasChannel {
      return false;
    }
    if withConfirm && !accepts {
      return false;
    }
    return true;
  }

  /**
   NewBatchProducer: null stands for the error. A size that is not positive is refused; otherwise it fails
   exactly when the producer's creation does. `accepts` is the channel's answer to the confirm mode.
   */
  method NewBatchProducer(hasChannel: bool, withConfirm: bool, accepts: bool, maxSize: int)
    returns (r: BatchProducer?)
    ensures r != null <==> maxSize > 0 && hasChannel && (withConfirm ==> accepts)
    ensures r != null ==> fresh(r) && r.Valid() && r.maxSize == maxSize && r.batch == r.added == []
  {
    if maxSize <= 0 {
      return null;
    }
    var ok := NewProducer(hasChannel, withConfirm, accepts);
    if !ok {
      return null;
    }
    r := new BatchProducer(maxSize);
  }
}
