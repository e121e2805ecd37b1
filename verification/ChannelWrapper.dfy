/**
 `Channel` (channel.go) as the object it is. Its methods are the locked sections of the source; they
 meet the functions whose lifecycle WrapperProtocol proves for every interleaving.
 */
module ChannelWrapper {
  import opened Base
  import W = WrapperProtocol

  class Channel {
    var amqpCh: Option<Ch>
    var release: bool
    var discard: bool
    var stateful: bool
    var closing: bool
    var inflight: int

    function View(): W.Wrapper
      reads this
    {
      W.Wrapper(amqpCh, release, discard, stateful, closing, inflight)
    }

    constructor (ch: Ch, release: bool, discard: bool)
      ensures View() == W.NewWrapper(ch, release, discard)
    {
      amqpCh, this.release, this.discard := Some(ch), release, discard;
      stateful, closing, inflight := false, false, 0;
    }

    method RawChannel() returns (ch: Option<Ch>)
      modifies this`stateful
      ensures ch == amqpCh && View() == W.Expose(old(View()))
    {
      if amqpCh.Some? {
        stateful := true;
      }
      ch := amqpCh;
    }

    method AcquireChannel(isStateful: bool) returns (ch: Option<Ch>)
      modifies this`stateful, this`inflight
      ensures ch.Some? <==> W.Admit(old(View()), isStateful).Some?
      ensures ch.Some? ==> ch == amqpCh && View() == W.Admit(old(View()), isStateful).value
      ensures ch.None? ==> View() == old(View())
    {
      if amqpCh.None? || closing {
        return None;
      }
      if isStateful {
        stateful := true;
      }
      inflight := inflight + 1;
      return amqpCh;
    }

    method Done()
      modifies this`inflight
      ensures View() == old(View()).(inflight := old(inflight) - 1)
    {
      inflight := inflight - 1;
    }

    /** A whole wrapper operation: admitted, run on the channel it was handed, and done. */
    method Operate(op: W.Operation) returns (ch: Option<Ch>)
      modifies this`stateful, this`inflight
      ensures ch == if old(closing) then None else old(amqpCh)
      ensures View() == if ch.Some? then old(View()).(stateful := old(stateful) || W.StatefulFlag(op)) else old(View())
    {
      ch := AcquireChannel(W.StatefulFlag(op));
      if ch.Some? {
        Done();
      }
    }

    /** The locked section of Close. */
    method BeginClose() returns (ticket: Option<W.Ticket>)
      modifies this
      ensures ticket.Some? <==> W.BeginClose(old(View())).Some?
      ensures ticket.Some? ==> W.BeginClose(old(View())).value == (View(), ticket.value)
      ensures ticket.None? ==> View() == old(View())
    {
      if amqpCh.None? {
        return None;
      }
      ticket := Some(W.Ticket(amqpCh.value, release, discard, stateful));
      closing := true;
      amqpCh := None;
      release := false;
      discard := false;
      stateful := false;
    }

    /**
     Close by the only goroutine that uses the wrapper: None for a wrapper closed before, else the
     one ending the wrapper's use calls for; a second call does nothing.
     */
    method Close() returns (ending: Option<W.Outcome>)
      requires inflight == 0
      modifies this
      ensures amqpCh.None?
      ensures old(amqpCh).None? ==> ending.None? && View() == old(View())
      ensures old(amqpCh).Some? ==>
                && closing && !release && !discard && inflight == 0
                && ending == Some(if !old(release) then W.RawClosed
                                  else if old(stateful) && old(discard) then W.Discarded
                                  else W.Released)
    {
      var ticket := BeginClose();
      if ticket.None? {
        return None;
      }
      if ticket.value.release {
        if ticket.value.stateful && ticket.value.discard {
          return Some(W.Discarded);
        }
        return Some(W.Released);
      }
      return Some(W.RawClosed);
    }
  }
}
