/**
 The lifecycle of one `Channel` wrapper (channel.go) under any interleaving of operations,
 raw accesses and Close calls by any number of goroutines.

 Each lock-protected section of the source is one function on the wrapper's fields. A goroutine
 inside an operation is an entry of `ops`; a goroutine inside Close, past the locked section and
 waiting for the in-flight operations, is an entry of `closers`. The log is history: no step
 reads it.
 */
module WrapperProtocol {
  import opened Base

  /** The fields of the source's struct; `release` and `discard` say whether the callbacks are set. */
  datatype Wrapper = Wrapper(
    amqpCh: Option<Ch>, release: bool, discard: bool, stateful: bool, closing: bool, inflight: int)

  /** What Close copies out of the wrapper before it unlocks. */
  datatype Ticket = Ticket(ch: Ch, release: bool, discard: bool, stateful: bool)

  /** The three ways Close can end: callback `release`, callback `discard`, or closing the raw channel. */
  datatype Outcome = Released | Discarded | RawClosed

  /** The wrapper's operations, grouped by the flag they pass to acquireChannel. */
  datatype Operation =
    | Topology | Publish | Get | Acknowledge | Cancel | TxCommit | TxRollback | SequenceNumber
    | Consume | Qos | Flow | Tx | Confirm | Notify

  predicate StatefulFlag(op: Operation) {
    op.Consume? || op.Qos? || op.Flow? || op.Tx? || op.Confirm? || op.Notify?
  }

  function NewWrapper(ch: Ch, release: bool, discard: bool): Wrapper {
    Wrapper(Some(ch), release, discard, false, false, 0)
  }

  /** The locked section of acquireChannel; None is the "channel is closed" error. */
  function Admit(w: Wrapper, stateful: bool): Option<Wrapper> {
    if w.amqpCh.None? || w.closing then None
    else Some(w.(stateful := w.stateful || stateful, inflight := w.inflight + 1))
  }

  /** RawChannel: raw access makes an open wrapper stateful. */
  function Expose(w: Wrapper): Wrapper {
    if w.amqpCh.Some? then w.(stateful := true) else w
  }

  /** The locked section of Close; None when the wrapper was closed before. */
  function BeginClose(w: Wrapper): Option<(Wrapper, Ticket)> {
    if w.amqpCh.None? then None
    else Some((
      w.(amqpCh := None, release := false, discard := false, stateful := false, closing := true),
      Ticket(w.amqpCh.value, w.release, w.discard, w.stateful)))
  }

  /** The choice Close makes once no operation is in flight. */
  function Settle(k: Ticket): Outcome {
    if k.release then (if k.stateful && k.discard then Discarded else Released) else RawClosed
  }

  /** History: the endings that ran, and whether a stateful operation or raw access was ever let in. */
  datatype Log = Log(ran: seq<Outcome>, tainted: bool)

  /** `ch`, `release` and `discard` record what the wrapper was created with. */
  datatype Sys = Sys(
    ch: Ch, release: bool, discard: bool,
    w: Wrapper, ops: map<Tid, Ch>, closers: map<Tid, Ticket>, log: Log)

  datatype Event = Enter(t: Tid, op: Operation) | Leave(t: Tid) | Raw | Close(t: Tid) | Finish(t: Tid)

  function Create(ch: Ch, release: bool, discard: bool): Sys {
    Sys(ch, release, discard, NewWrapper(ch, release, discard), map[], map[], Log([], false))
  }

  /** `Finish` waits for the in-flight count to be zero, as WaitGroup.Wait does. */
  predicate Enabled(s: Sys, e: Event) {
    match e
    case Enter(t, _) => t !in s.ops
    case Leave(t) => t in s.ops
    case Raw => true
    case Close(t) => t !in s.closers
    case Finish(t) => t in s.closers && s.w.inflight == 0
  }

  function Apply(s: Sys, e: Event): Sys
    requires Enabled(s, e)
  {
    match e
    case Enter(t, op) =>
      (match Admit(s.w, StatefulFlag(op))
       case None => s
       case Some(w) => s.(w := w, ops := s.ops[t := s.w.amqpCh.GetOr(s.ch)],
                          log := s.log.(tainted := s.log.tainted || StatefulFlag(op))))
    case Leave(t) => s.(w := s.w.(inflight := s.w.inflight - 1), ops := s.ops - {t})
    case Raw => s.(w := Expose(s.w), log := s.log.(tainted := s.log.tainted || s.w.amqpCh.Some?))
    case Close(t) =>
      (match BeginClose(s.w)
       case None => s
       case Some((w, ticket)) => s.(w := w, closers := s.closers[t := ticket]))
    case Finish(t) =>
      s.(closers := s.closers - {t}, log := s.log.(ran := s.log.ran + [Settle(s.closers[t])]))
  }

  /** The ending the contract promises: raw close without callbacks, discard for a tainted wrapper, else release. */
  function Promised(s: Sys): Outcome {
    if !s.release then RawClosed
    else if s.discard && s.log.tainted then Discarded
    else Released
  }

  ghost predicate IsOpen(s: Sys) {
    && s.w == Wrapper(Some(s.ch), s.release, s.discard, s.log.tainted, false, |s.ops|)
    && s.closers == map[] && s.log.ran == []
  }

  ghost predicate IsShut(s: Sys) {
    && s.w == Wrapper(None, false, false, false, true, |s.ops|)
    && (s.log.ran == [] ==> |s.closers| == 1)
    && (s.log.ran != [] ==> s.closers == map[] && s.ops == map[] && s.log.ran == [Promised(s)])
    && forall t :: t in s.closers ==> s.closers[t] == Ticket(s.ch, s.release, s.discard, s.log.tainted)
  }

  ghost predicate Inv(s: Sys) {
    && (forall t :: t in s.ops ==> s.ops[t] == s.ch)
    && (IsOpen(s) || IsShut(s))
  }

  lemma CloseFromOpen(s: Sys, t: Tid)
    requires IsOpen(s)
    ensures IsShut(Apply(s, Close(t))) && Apply(s, Close(t)).ops == s.ops
  {
    assert Apply(s, Close(t)).closers.Keys == {t};
  }

  lemma EnterFromOpen(s: Sys, t: Tid, op: Operation)
    requires IsOpen(s) && Enabled(s, Enter(t, op))
    ensures IsOpen(Apply(s, Enter(t, op))) && Apply(s, Enter(t, op)).ops == s.ops[t := s.ch]
  {
    assert s.ops[t := s.ch].Keys == s.ops.Keys + {t};
  }

  lemma LeaveFromOpen(s: Sys, t: Tid)
    requires IsOpen(s) && Enabled(s, Leave(t))
    ensures IsOpen(Apply(s, Leave(t))) && Apply(s, Leave(t)).ops == s.ops - {t}
  {
    assert (s.ops - {t}).Keys == s.ops.Keys - {t};
  }

  lemma StepFromOpen(s: Sys, e: Event)
    requires Inv(s) && IsOpen(s) && Enabled(s, e)
    ensures Inv(Apply(s, e))
  {
    match e
    case Enter(t, op) => EnterFromOpen(s, t, op);
    case Leave(t) => LeaveFromOpen(s, t);
    case Raw => assert IsOpen(Apply(s, e));
    case Close(t) => CloseFromOpen(s, t);
    case Finish(_) =>
  }

  lemma FinishFromShut(s: Sys, t: Tid)
    requires Inv(s) && IsShut(s) && Enabled(s, Finish(t))
    ensures IsShut(Apply(s, Finish(t)))
  {
    var n := Apply(s, Finish(t));
    assert n.closers.Keys == s.closers.Keys - {t};
    assert |n.closers| == 0 && |s.ops| == 0;
  }

  lemma StepFromShut(s: Sys, e: Event)
    requires Inv(s) && IsShut(s) && Enabled(s, e)
    ensures Inv(Apply(s, e)) && IsShut(Apply(s, e))
    ensures s.log.ran != [] ==> Apply(s, e) == s
    ensures Apply(s, e).log.tainted == s.log.tainted && Apply(s, e).ops.Keys <= s.ops.Keys
  {
    match e
    case Leave(t) => assert Apply(s, e).ops.Keys == s.ops.Keys - {t};
    case Finish(t) => FinishFromShut(s, t);
    case _ =>
  }

  /** The state after a schedule; None when the schedule asks for a step that cannot happen. */
  function After(s: Sys, trace: seq<Event>): Option<Sys>
    decreases |trace|
  {
    if trace == [] then Some(s)
    else if !Enabled(s, trace[0]) then None
    else After(Apply(s, trace[0]), trace[1..])
  }

  lemma {:induction false} Run(s: Sys, trace: seq<Event>)
    requires Inv(s) && After(s, trace).Some?
    ensures Inv(After(s, trace).value)
    ensures s.log.ran != [] ==> After(s, trace).value == s
    ensures s.w.amqpCh.None? ==>
              var n := After(s, trace).value;
              n.w.amqpCh.None? && n.log.tainted == s.log.tainted && n.ops.Keys <= s.ops.Keys
    decreases |trace|
  {
    if trace != [] {
      if IsOpen(s) {
        StepFromOpen(s, trace[0]);
      } else {
        StepFromShut(s, trace[0]);
      }
      Run(Apply(s, trace[0]), trace[1..]);
    }
  }

  /**
   In every run of a new wrapper: at most one ending runs; it runs with no operation in flight;
   it is the promised one; and the wait group never goes negative.
   */
  lemma EndsAtMostOnce(ch: Ch, release: bool, discard: bool, trace: seq<Event>)
    requires After(Create(ch, release, discard), trace).Some?
    ensures var s := After(Create(ch, release, discard), trace).value;
            && s.w.inflight == |s.ops|
            && |s.log.ran| <= 1
            && (s.log.ran != [] ==> s.ops == map[])
            && (s.log.ran != [] ==> (s.log.ran[0].RawClosed? <==> !release))
            && (s.log.ran != [] ==> (s.log.ran[0].Discarded? <==> release && discard && s.log.tainted))
  {
    Run(Create(ch, release, discard), trace);
    Constant(Create(ch, release, discard), trace);
  }

  lemma {:induction false} Constant(s: Sys, trace: seq<Event>)
    requires After(s, trace).Some?
    ensures var n := After(s, trace).value; n.ch == s.ch && n.release == s.release && n.discard == s.discard
    decreases |trace|
  {
    if trace != [] {
      Constant(Apply(s, trace[0]), trace[1..]);
    }
  }

  /** Once closed and left by every goroutine, a wrapper has ended exactly once. */
  lemma EndsExactlyOnce(ch: Ch, release: bool, discard: bool, trace: seq<Event>)
    requires After(Create(ch, release, discard), trace).Some?
    requires var s := After(Create(ch, release, discard), trace).value;
             s.w.amqpCh.None? && s.closers == map[]
    ensures |After(Create(ch, release, discard), trace).value.log.ran| == 1
  {
    Run(Create(ch, release, discard), trace);
  }

  /** Entering a Close that finds the channel taken out: it returns at once and changes nothing. */
  lemma LateCloseReturns(s: Sys, t: Tid)
    requires s.w.amqpCh.None? && Enabled(s, Close(t))
    ensures Apply(s, Close(t)) == s && t !in Apply(s, Close(t)).closers
  {
  }

  /**
   So a second Close can return before the first has finished: here goroutine 1 still waits for goroutine
   0's operation, nothing has ended, and goroutine 2's Close is over.
   */
  lemma SecondCloseReturnsFirst(ch: Ch, release: bool, discard: bool)
    ensures var s, trace := Create(ch, release, discard), [Enter(0, Publish), Close(1), Close(2)];
            && After(s, trace).Some?
            && var n := After(s, trace).value;
               n.w.amqpCh.None? && n.closers.Keys == {1} && n.log.ran == [] && n.ops == map[0 := ch]
  {
    var trace := [Enter(0, Publish), Close(1), Close(2)];
    assert trace[1..] == [Close(1), Close(2)];
    assert trace[1..][1..] == [Close(2)];
  }

  /**
   From the moment Close has taken the channel out, no further operation is admitted and no raw
   access taints the wrapper; once an ending has run, nothing about the wrapper changes any more.
   */
  lemma NothingAfterClose(ch: Ch, release: bool, discard: bool, before: seq<Event>, later: seq<Event>)
    requires After(Create(ch, release, discard), before).Some?
    requires var s := After(Create(ch, release, discard), before).value;
             s.w.amqpCh.None? && After(s, later).Some?
    ensures var s := After(Create(ch, release, discard), before).value;
            var n := After(s, later).value;
            && n.w.amqpCh.None? && n.ops.Keys <= s.ops.Keys && n.log.tainted == s.log.tainted
            && (s.log.ran != [] ==> n == s)
  {
    Run(Create(ch, release, discard), before);
    Run(After(Create(ch, release, discard), before).value, later);
  }

  /** While an operation runs, its wrapper has not ended, so the channel it uses is still the wrapper's own. */
  lemma OperationHoldsChannel(ch: Ch, release: bool, discard: bool, trace: seq<Event>, t: Tid)
    requires After(Create(ch, release, discard), trace).Some?
    requires t in After(Create(ch, release, discard), trace).value.ops
    ensures var s := After(Create(ch, release, discard), trace).value;
            s.log.ran == [] && s.ops[t] == ch && (s.w.amqpCh == Some(ch) || |s.closers| == 1)
  {
    Run(Create(ch, release, discard), trace);
    Constant(Create(ch, release, discard), trace);
  }

  /**
   In every run an operation is admitted exactly while the wrapper is open, and is handed the wrapper's own
   channel; and the first Close to come takes the channel out, and can end it as soon as nothing is in flight.
   */
  lemma AdmittedIffOpen(ch: Ch, release: bool, discard: bool, trace: seq<Event>, t: Tid, op: Operation)
    requires After(Create(ch, release, discard), trace).Some?
    ensures var s := After(Create(ch, release, discard), trace).value;
            && (t !in s.ops ==> (t in Apply(s, Enter(t, op)).ops <==> s.w.amqpCh.Some?))
            && (t !in s.ops && s.w.amqpCh.Some? ==> Apply(s, Enter(t, op)).ops[t] == ch)
            && (s.w.amqpCh.Some? ==> s.closers == map[] && Apply(s, Close(t)).closers.Keys == {t})
            && (forall k :: k in s.closers ==> (Enabled(s, Finish(k)) <==> s.ops == map[]))
  {
    Run(Create(ch, release, discard), trace);
    Constant(Create(ch, release, discard), trace);
    var s := After(Create(ch, release, discard), trace).value;
    assert |s.ops| == 0 <==> s.ops == map[];
  }

  // ---- Which use of a wrapper makes it unfit for reuse ----

  /** The uses CONFIGURATION.md:221 lists: confirms, QoS, transactions, consuming, notify listeners, raw access. */
  predicate Documented(e: Event) {
    e.Raw? || (e.Enter? && e.op in {Confirm, Qos, Tx, Consume, Notify})
  }

  /** Flow control, which that list leaves out. */
  predicate IsFlow(e: Event) {
    e.Enter? && e.op.Flow?
  }

  /** Some step of the kind happens in the run while the wrapper is open. */
  predicate Used(s: Sys, trace: seq<Event>, kind: Event -> bool)
    requires After(s, trace).Some?
    decreases |trace|
  {
    trace != [] && ((kind(trace[0]) && s.w.amqpCh.Some?) || Used(Apply(s, trace[0]), trace[1..], kind))
  }

  lemma {:induction false} TaintedIffUsed(s: Sys, trace: seq<Event>)
    requires Inv(s) && After(s, trace).Some?
    ensures After(s, trace).value.log.tainted
            <==> s.log.tainted || Used(s, trace, Documented) || Used(s, trace, IsFlow)
    decreases |trace|
  {
    if trace != [] {
      Run(s, [trace[0]]);
      TaintedIffUsed(Apply(s, trace[0]), trace[1..]);
    }
  }

  /**
   A pooled wrapper that has ended was discarded exactly if a documented use or a Flow reached it while
   it was open. So it ended as the documentation says exactly if a documented use reached it or no Flow did.
   */
  lemma DiscardedIffUsed(ch: Ch, trace: seq<Event>)
    requires After(Create(ch, true, true), trace).Some?
    requires After(Create(ch, true, true), trace).value.log.ran != []
    ensures var s := Create(ch, true, true);
            var ran := After(s, trace).value.log.ran;
            && ran == [if Used(s, trace, Documented) || Used(s, trace, IsFlow) then Discarded else Released]
            && (ran == [if Used(s, trace, Documented) then Discarded else Released]
                <==> Used(s, trace, Documented) || !Used(s, trace, IsFlow))
  {
    EndsAtMostOnce(ch, true, true, trace);
    TaintedIffUsed(Create(ch, true, true), trace);
  }

  /** Flow alone makes the difference: this run has no documented use, and its channel is discarded. */
  lemma FlowAloneDiscards(ch: Ch)
    ensures var s, trace := Create(ch, true, true), [Enter(0, Flow), Leave(0), Close(0), Finish(0)];
            After(s, trace).Some? && !Used(s, trace, Documented) && After(s, trace).value.log.ran == [Discarded]
  {
    var trace := [Enter(0, Flow), Leave(0), Close(0), Finish(0)];
    assert trace[1..] == [Leave(0), Close(0), Finish(0)];
    assert trace[1..][1..] == [Close(0), Finish(0)];
  }
}
