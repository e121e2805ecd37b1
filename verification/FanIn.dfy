/**
 The fan-in of connection events: ConnectionPool.NotifyClose and NotifyBlocked (pool.go) forward the
 events of every connection into one Go channel, and Client.NotifyClose (client.go) forwards that
 channel once more. Every forwarder is a goroutine; any interleaving is possible.
 */
module FanIn {
  import opened Base

  /** An event and the index of the connection it came from. */
  datatype Event<T> = Event(source: nat, value: T)

  /**
   One forwarder per connection: the events it has not received yet, whether its connection has closed
   the notification channel, the event it has received and not yet sent, and whether it has returned.
   */
  datatype Forwarder<T> = Forwarder(pending: seq<T>, closed: bool, hand: Option<T>, ended: bool)

  /**
   `out` is the merged channel with its capacity and close bit; the second hop has an event in hand, a
   channel of capacity one with its close bit, and whether it has returned. `received` is what the
   reader has got. `history` is what each connection has emitted, for the statements only.
   */
  datatype State<T> = State(
    forwarders: seq<Forwarder<T>>, capacity: nat,
    out: seq<Event<T>>, outClosed: bool,
    hand: Option<Event<T>>, ended: bool,
    wrapped: seq<Event<T>>, wrappedClosed: bool,
    received: seq<Event<T>>, history: seq<seq<T>>)

  datatype Step<T> =
    | Emit(i: nat, value: T)
    | CloseSource(i: nat)
    | Receive(i: nat)
    | Send(i: nat)
    | EndForwarder(i: nat)
    | CloseOut
    | Receive2
    | Send2
    | End2
    | Read

  /** One forwarder for each slot; a slot without a connection has none, as if it had ended. */
  function Start<T>(slots: seq<bool>): State<T> {
    State(seq(|slots|, (i: nat) requires i < |slots| => Forwarder([], !slots[i], None, !slots[i])),
          |slots|, [], false, None, false, [], false, [], seq(|slots|, _ => []))
  }

  predicate Can<T>(s: State<T>, e: Step<T>) {
    match e
    case Emit(i, _) => i < |s.forwarders| && i < |s.history| && !s.forwarders[i].closed
    case CloseSource(i) => i < |s.forwarders|
    case Receive(i) =>
      i < |s.forwarders| && !s.forwarders[i].ended && s.forwarders[i].hand.None? && s.forwarders[i].pending != []
    case Send(i) => i < |s.forwarders| && s.forwarders[i].hand.Some? && |s.out| < s.capacity
    case EndForwarder(i) =>
      && i < |s.forwarders| && !s.forwarders[i].ended && s.forwarders[i].hand.None?
      && s.forwarders[i].closed && s.forwarders[i].pending == []
    case CloseOut => !s.outClosed && forall i :: 0 <= i < |s.forwarders| ==> s.forwarders[i].ended
    case Receive2 => !s.ended && s.hand.None? && s.out != []
    case Send2 => s.hand.Some? && |s.wrapped| < 1
    case End2 => !s.ended && s.hand.None? && s.outClosed && s.out == []
    case Read => s.wrapped != []
  }

  function Do<T>(s: State<T>, e: Step<T>): State<T>
    requires Can(s, e)
  {
    match e
    case Emit(i, value) =>
      s.(forwarders := s.forwarders[i := s.forwarders[i].(pending := s.forwarders[i].pending + [value])],
         history := s.history[i := s.history[i] + [value]])
    case CloseSource(i) => s.(forwarders := s.forwarders[i := s.forwarders[i].(closed := true)])
    case Receive(i) =>
      var f := s.forwarders[i];
      s.(forwarders := s.forwarders[i := f.(pending := f.pending[1..], hand := Some(f.pending[0]))])
    case Send(i) =>
      var f := s.forwarders[i];
      s.(forwarders := s.forwarders[i := f.(hand := None)], out := s.out + [Event(i, f.hand.value)])
    case EndForwarder(i) => s.(forwarders := s.forwarders[i := s.forwarders[i].(ended := true)])
    case CloseOut => s.(outClosed := true)
    case Receive2 => s.(hand := Some(s.out[0]), out := s.out[1..])
    case Send2 => s.(wrapped := s.wrapped + [s.hand.value], hand := None)
    case End2 => s.(ended := true, wrappedClosed := true)
    case Read => s.(received := s.received + [s.wrapped[0]], wrapped := s.wrapped[1..])
  }

  function After<T>(s: State<T>, trace: seq<Step<T>>): Option<State<T>>
    decreases |trace|
  {
    if trace == [] then Some(s)
    else if !Can(s, trace[0]) then None
    else After(Do(s, trace[0]), trace[1..])
  }

  /** The values of connection `i` in a merged stream, in order. */
  function Of<T>(stream: seq<Event<T>>, i: nat): seq<T> {
    if stream == [] then []
    else Of(stream[..|stream| - 1], i)
         + if stream[|stream| - 1].source == i then [stream[|stream| - 1].value] else []
  }

  function Item<T>(o: Option<T>): seq<T> {
    if o.Some? then [o.value] else []
  }

  /** Everything past the forwarders, oldest first: read, in the second channel, in the second hop's hand, in `out`. */
  function Stream<T>(s: State<T>): seq<Event<T>> {
    s.received + s.wrapped + Item(s.hand) + s.out
  }

  ghost predicate Whole<T>(s: State<T>, i: nat)
    requires i < |s.forwarders| && i < |s.history|
  {
    Of(Stream(s), i) + Item(s.forwarders[i].hand) + s.forwarders[i].pending == s.history[i]
  }

  /** Every event in the pipeline came from one of the connections. */
  ghost predicate Sources<T>(s: State<T>) {
    forall j :: 0 <= j < |Stream(s)| ==> Stream(s)[j].source < |s.forwarders|
  }

  /** Nothing ends before what feeds it has ended and been passed on. */
  ghost predicate Ends<T>(s: State<T>) {
    && (forall i :: 0 <= i < |s.forwarders| && s.forwarders[i].ended ==>
          s.forwarders[i].closed && s.forwarders[i].hand.None? && s.forwarders[i].pending == [])
    && (s.outClosed ==> forall i :: 0 <= i < |s.forwarders| ==> s.forwarders[i].ended)
    && (s.ended ==> s.outClosed && s.out == [] && s.hand.None?)
    && (s.wrappedClosed ==> s.ended)
    && |s.wrapped| <= 1 && |s.out| <= s.capacity
  }

  ghost predicate Inv<T>(s: State<T>) {
    && |s.history| == |s.forwarders|
    && (forall i :: 0 <= i < |s.forwarders| ==> Whole(s, i))
    && Sources(s) && Ends(s)
  }

  lemma OfAppend<T>(stream: seq<Event<T>>, e: Event<T>, i: nat)
    ensures Of(stream + [e], i) == Of(stream, i) + if e.source == i then [e.value] else []
  {
    assert (stream + [e])[..|stream|] == stream;
  }

  /** Three ways to shift an element of a concatenation from one part to the next. */
  lemma ShiftFirst<T>(a: seq<T>, b: seq<T>)
    requires b != []
    ensures a + [b[0]] + b[1..] == a + [] + b
  {
    assert [b[0]] + b[1..] == b;
  }

  lemma ShiftIn<T>(a: seq<T>, b: seq<T>, x: T)
    ensures a + (b + [x]) + [] == a + b + [x]
  {
  }

  lemma ShiftOut<T>(a: seq<T>, b: seq<T>)
    requires b != []
    ensures (a + [b[0]]) + b[1..] == a + b
  {
    assert [b[0]] + b[1..] == b;
  }

  /** Every step but a forwarder's send leaves the stream past the forwarders as it is. */
  lemma StreamKept<T>(s: State<T>, e: Step<T>)
    requires Can(s, e) && !e.Send?
    ensures Stream(Do(s, e)) == Stream(s)
  {
    match e
    case Receive2 => ShiftFirst(s.received + s.wrapped, s.out);
    case Send2 => ShiftIn(s.received, s.wrapped, s.hand.value);
    case Read => ShiftOut(s.received, s.wrapped);
    case _ =>
  }

  lemma StreamSent<T>(s: State<T>, i: nat)
    requires Can(s, Send(i))
    ensures Stream(Do(s, Send(i))) == Stream(s) + [Event(i, s.forwarders[i].hand.value)]
  {
  }

  /** What is with the forwarder of connection `i`: the event in its hand, then those it has not received. */
  function Waiting<T>(f: Forwarder<T>): seq<T> {
    Item(f.hand) + f.pending
  }

  lemma WholeByParts<T>(s: State<T>, i: nat)
    requires i < |s.forwarders| && i < |s.history|
    ensures Whole(s, i) <==> Of(Stream(s), i) + Waiting(s.forwarders[i]) == s.history[i]
  {
    assert Of(Stream(s), i) + Item(s.forwarders[i].hand) + s.forwarders[i].pending
        == Of(Stream(s), i) + Waiting(s.forwarders[i]);
  }

  lemma WholeEmit<T>(s: State<T>, k: nat, value: T, i: nat)
    requires Inv(s) && Can(s, Emit(k, value)) && i < |s.forwarders|
    ensures Whole(Do(s, Emit(k, value)), i)
  {
    var n := Do(s, Emit(k, value));
    assert Whole(s, i);
    assert Stream(n) == Stream(s);
    if k == i {
      var before, f := Of(Stream(s), i) + Item(s.forwarders[i].hand), s.forwarders[i];
      assert before + (f.pending + [value]) == (before + f.pending) + [value];
    }
  }

  lemma WholeReceive<T>(s: State<T>, k: nat, i: nat)
    requires Inv(s) && Can(s, Receive(k)) && i < |s.forwarders|
    ensures Whole(Do(s, Receive(k)), i)
  {
    var n := Do(s, Receive(k));
    assert Whole(s, i);
    assert Stream(n) == Stream(s);
    assert Waiting(n.forwarders[i]) == Waiting(s.forwarders[i]);
    WholeByParts(s, i);
    WholeByParts(n, i);
  }

  lemma WholeSend<T>(s: State<T>, k: nat, i: nat)
    requires Inv(s) && Can(s, Send(k)) && i < |s.forwarders|
    ensures Whole(Do(s, Send(k)), i)
  {
    assert Whole(s, i);
    StreamSent(s, k);
    OfAppend(Stream(s), Event(k, s.forwarders[k].hand.value), i);
  }

  lemma WholeStep<T>(s: State<T>, e: Step<T>, i: nat)
    requires Inv(s) && Can(s, e) && i < |s.forwarders|
    ensures Whole(Do(s, e), i)
  {
    match e
    case Emit(k, value) => WholeEmit(s, k, value, i);
    case Receive(k) => WholeReceive(s, k, i);
    case Send(k) => WholeSend(s, k, i);
    case _ =>
      assert Whole(s, i);
      StreamKept(s, e);
  }

  lemma SourcesStep<T>(s: State<T>, e: Step<T>)
    requires Inv(s) && Can(s, e)
    ensures Sources(Do(s, e))
  {
    if e.Send? {
      StreamSent(s, e.i);
    } else {
      StreamKept(s, e);
    }
  }

  lemma InvStep<T>(s: State<T>, e: Step<T>)
    requires Inv(s) && Can(s, e)
    ensures Inv(Do(s, e))
  {
    forall i | 0 <= i < |s.forwarders| ensures Whole(Do(s, e), i) {
      WholeStep(s, e, i);
    }
    SourcesStep(s, e);
    EndsStep(s, e);
  }

  lemma EndsStep<T>(s: State<T>, e: Step<T>)
    requires Ends(s) && Can(s, e)
    ensures Ends(Do(s, e))
  {
  }

  lemma {:induction false} InvAfter<T>(s: State<T>, trace: seq<Step<T>>)
    requires Inv(s) && After(s, trace).Some?
    ensures Inv(After(s, trace).value)
    decreases |trace|
  {
    if trace != [] {
      InvStep(s, trace[0]);
      InvAfter(Do(s, trace[0]), trace[1..]);
    }
  }

  lemma InvStart<T>(slots: seq<bool>)
    ensures Inv(Start<T>(slots))
  {
  }

  /**
   At every moment what the reader has got of one connection is a prefix, in order and with
   multiplicity, of what that connection emitted. The merged channel closes only after every forwarder
   has returned, so no forwarder ever sends on it closed; the second only after the first is closed and
   empty. Once the reader has seen the end, it has got exactly what each connection emitted.
   */
  lemma MergeKeepsEvents<T>(slots: seq<bool>, trace: seq<Step<T>>, i: nat)
    requires After(Start<T>(slots), trace).Some? && i < |slots|
    ensures var s := After(Start<T>(slots), trace).value;
            && |s.history| == |s.forwarders| == |slots|
            && Of(s.received, i) <= s.history[i]
            && (forall j :: 0 <= j < |s.received| ==> s.received[j].source < |slots|)
            && (s.outClosed ==> forall k :: 0 <= k < |slots| ==> s.forwarders[k].ended && !Can(s, Send(k)))
            && (s.wrappedClosed ==> s.outClosed && s.out == [])
            && (s.wrappedClosed && s.wrapped == [] ==> Of(s.received, i) == s.history[i])
  {
    InvStart<T>(slots);
    InvAfter(Start<T>(slots), trace);
    SizeConstant(Start<T>(slots), trace);
    var s := After(Start<T>(slots), trace).value;
    assert Whole(s, i);
    OfPrefix(s.received, s.wrapped + Item(s.hand) + s.out, i);
    assert Stream(s) == s.received + (s.wrapped + Item(s.hand) + s.out);
    assert forall j :: 0 <= j < |s.received| ==> s.received[j] == Stream(s)[j];
  }

  lemma {:induction false} OfPrefix<T>(first: seq<Event<T>>, rest: seq<Event<T>>, i: nat)
    ensures Of(first, i) <= Of(first + rest, i)
    ensures rest == [] ==> Of(first, i) == Of(first + rest, i)
    decreases |rest|
  {
    if rest == [] {
      assert first + rest == first;
    } else {
      var front, last := rest[..|rest| - 1], rest[|rest| - 1];
      OfPrefix(first, front, i);
      assert first + rest == (first + front) + [last];
      OfAppend(first + front, last, i);
    }
  }

  lemma {:induction false} SizeConstant<T>(s: State<T>, trace: seq<Step<T>>)
    requires After(s, trace).Some?
    ensures |After(s, trace).value.forwarders| == |s.forwarders|
    decreases |trace|
  {
    if trace != [] {
      SizeConstant(Do(s, trace[0]), trace[1..]);
    }
  }

  // ---- A connected slot is forwarded ----

  /** The source of a connected slot is not closed yet; a slot without a connection is silent from the start. */
  ghost predicate Forwarded<T>(s: State<T>, i: nat, connected: bool)
    requires i < |s.forwarders| && i < |s.history|
  {
    (connected ==> !s.forwarders[i].closed) && (!connected ==> s.forwarders[i].closed && s.history[i] == [])
  }

  lemma {:induction false} ForwardedRun<T>(s: State<T>, trace: seq<Step<T>>, i: nat, connected: bool)
    requires After(s, trace).Some? && i < |s.forwarders| == |s.history| && Forwarded(s, i, connected)
    requires connected ==> CloseSource(i) !in trace
    ensures var n := After(s, trace).value;
            |n.forwarders| == |n.history| == |s.forwarders| && Forwarded(n, i, connected)
    decreases |trace|
  {
    if trace != [] {
      assert trace[0] in trace;
      ForwardedRun(Do(s, trace[0]), trace[1..], i, connected);
    }
  }

  /**
   In every run: while a connected slot's source has not been closed, its events can come and will be
   forwarded, and the merged channel is open; a slot without a connection never has an event.
   */
  lemma ConnectedIsForwarded<T>(slots: seq<bool>, trace: seq<Step<T>>, i: nat, value: T)
    requires After(Start<T>(slots), trace).Some? && i < |slots|
    ensures var s := After(Start<T>(slots), trace).value;
            && |s.history| == |s.forwarders| == |slots|
            && (slots[i] && CloseSource(i) !in trace ==>
                  !s.forwarders[i].ended && Can(s, Emit(i, value)) && !s.outClosed && !s.wrappedClosed)
            && (!slots[i] ==> s.history[i] == [])
  {
    InvStart<T>(slots);
    InvAfter(Start<T>(slots), trace);
    SizeConstant(Start<T>(slots), trace);
    if !slots[i] || CloseSource(i) !in trace {
      ForwardedRun(Start<T>(slots), trace, i, slots[i]);
    }
  }

  /** A pipeline with nothing in it, all connected sources open, and `read` delivered. */
  ghost predicate Idle<T>(s: State<T>, slots: seq<bool>, read: seq<Event<T>>) {
    && |s.forwarders| == |s.history| == |slots| == s.capacity
    && s.out == [] && !s.outClosed && s.hand.None? && !s.ended && s.wrapped == [] && s.received == read
    && forall i :: 0 <= i < |slots| && slots[i] ==> s.forwarders[i] == Forwarder([], false, None, false)
  }

  /** One event of a connected slot, from the connection to the reader. */
  lemma DeliverOne<T>(s: State<T>, slots: seq<bool>, read: seq<Event<T>>, e: Event<T>)
    returns (trace: seq<Step<T>>)
    requires Idle(s, slots, read) && e.source < |slots| && slots[e.source]
    ensures After(s, trace).Some? && Idle(After(s, trace).value, slots, read + [e])
  {
    var i := e.source;
    var emitted := Do(s, Emit(i, e.value));
    var taken := Do(emitted, Receive(i));
    var sent := Do(taken, Send(i));
    var hopped := Do(sent, Receive2);
    var passed := Do(hopped, Send2);
    var done := Do(passed, Read);
    trace := [Emit(i, e.value), Receive(i), Send(i), Receive2, Send2, Read];
    assert sent.out == [e];
    Six(s, trace);
    assert done.received == read + [e];
  }

  /** A run of six steps. */
  lemma Six<T>(s: State<T>, trace: seq<Step<T>>)
    requires |trace| == 6
    requires Can(s, trace[0]) && var a := Do(s, trace[0]);
             Can(a, trace[1]) && var b := Do(a, trace[1]);
             Can(b, trace[2]) && var c := Do(b, trace[2]);
             Can(c, trace[3]) && var d := Do(c, trace[3]);
             Can(d, trace[4]) && var e := Do(d, trace[4]); Can(e, trace[5])
    ensures var a := Do(s, trace[0]); var b := Do(a, trace[1]); var c := Do(b, trace[2]);
            var d := Do(c, trace[3]); var e := Do(d, trace[4]);
            After(s, trace) == Some(Do(e, trace[5]))
  {
    var a := Do(s, trace[0]);
    var b := Do(a, trace[1]);
    var c := Do(b, trace[2]);
    var d := Do(c, trace[3]);
    var e := Do(d, trace[4]);
    assert After(Do(e, trace[5]), trace[6..]) == Some(Do(e, trace[5]));
    assert trace[5..][1..] == trace[6..] && trace[4..][1..] == trace[5..] && trace[3..][1..] == trace[4..];
    assert After(e, trace[5..]) == Some(Do(e, trace[5]));
    assert After(d, trace[4..]) == Some(Do(e, trace[5]));
    assert After(c, trace[3..]) == Some(Do(e, trace[5]));
    assert trace[2..][1..] == trace[3..] && trace[1..][1..] == trace[2..];
    assert After(b, trace[2..]) == Some(Do(e, trace[5]));
  }

  lemma {:induction false} Joined<T>(s: State<T>, first: seq<Step<T>>, second: seq<Step<T>>)
    requires After(s, first).Some?
    ensures After(s, first + second) == After(After(s, first).value, second)
    decreases |first|
  {
    if first == [] {
      assert first + second == second;
    } else {
      assert (first + second)[1..] == first[1..] + second;
      Joined(Do(s, first[0]), first[1..], second);
    }
  }

  /** For any list of events of connected slots some run delivers exactly these to the reader, in this order. */
  lemma {:induction false} AllDelivered<T>(slots: seq<bool>, events: seq<Event<T>>) returns (trace: seq<Step<T>>)
    requires forall j :: 0 <= j < |events| ==> events[j].source < |slots| && slots[events[j].source]
    ensures After(Start<T>(slots), trace).Some?
    ensures Idle(After(Start<T>(slots), trace).value, slots, events)
    decreases |events|
  {
    if events == [] {
      trace := [];
    } else {
      var front, last := events[..|events| - 1], events[|events| - 1];
      trace := AllDelivered(slots, front);
      var more := DeliverOne(After(Start<T>(slots), trace).value, slots, front, last);
      Joined(Start<T>(slots), trace, more);
      assert front + [last] == events;
      trace := trace + more;
    }
  }
}
