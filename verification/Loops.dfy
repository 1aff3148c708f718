/** The select loops of the iopub and heartbeat tasks, over what their selects yield. */
module Loops {
  import opened Kernel

  /** One result of the biased select: the shutdown channel was ready, or only the message source was. */
  datatype Event<+T> = Left(received: Received) | Right(message: T)

  predicate Stops<T>(e: Event<T>) {
    e.Left? && e.received != Got(true)
  }

  /** The messages among the events. */
  function Messages<T>(events: seq<Event<T>>): seq<T> {
    if events == [] then []
    else
      var last := events[|events| - 1];
      Messages(events[..|events| - 1]) + if last.Right? then [last.message] else []
  }

  lemma MessagesPlus<T>(events: seq<Event<T>>, e: Event<T>)
    ensures Messages(events + [e]) == Messages(events) + if e.Right? then [e.message] else []
  {
    assert (events + [e])[..|events|] == events;
  }

  /** A socket as the log of what was sent on it. */
  class Socket<T> {
    var sent: seq<T>

    constructor ()
      ensures sent == []
    {
      sent := [];
    }

    method Send(message: T)
      modifies this
      ensures sent == old(sent) + [message]
    {
      sent := sent + [message];
    }
  }

  /**
   * `iopub::handle` and `heartbeat::handle`: every message up to the first broadcast that is not a restart,
   * an error included, is sent on, in order and once; the loop takes no event after that one.
   */
  method Handle<T>(socket: Socket<T>, events: seq<Event<T>>) returns (taken: nat)
    modifies socket
    ensures taken <= |events| && socket.sent == old(socket.sent) + Messages(events[..taken])
    ensures forall i :: 0 <= i < taken - 1 ==> !Stops(events[i])
    ensures taken < |events| ==> taken > 0 && Stops(events[taken - 1])
  {
    taken := 0;
    var stopped := false;
    while taken < |events| && !stopped
      invariant taken <= |events| && socket.sent == old(socket.sent) + Messages(events[..taken])
      invariant forall i :: 0 <= i < taken - 1 ==> !Stops(events[i])
      invariant if stopped then taken > 0 && Stops(events[taken - 1]) else taken > 0 ==> !Stops(events[taken - 1])
      decreases |events| - taken
    {
      var next := events[taken];
      assert events[..taken + 1] == events[..taken] + [next];
      MessagesPlus(events[..taken], next);
      match next {
        case Left(Got(true)) =>
        case Left(_) => stopped := true;
        case Right(message) => socket.Send(message);
      }
      taken := taken + 1;
    }
  }
}
