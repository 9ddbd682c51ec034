/**
 * The bounded multi-producer, single-consumer queue that connects the sender
 * handles to the outbound pump (a tokio `mpsc::channel` of fixed capacity).
 * A full queue is a send that is not enabled yet; the model states it as a
 * precondition instead of modelling the suspension.
 */
module Channel {
  import opened Wrappers

  /** What the consumer observes when it polls: a message, the end of the queue, or nothing yet. */
  datatype Poll<M> = Ready(item: Option<M>) | Pending

  class Queue<M> {
    const capacity: nat
    /** Messages accepted and not yet received, oldest first. */
    var buffer: seq<M>
    /** Number of live sender handles. */
    var senders: nat
    /** The receiving side is gone: nothing is accepted any more. */
    var closed: bool

    ghost predicate Valid()
      reads this
    {
      0 < capacity && |buffer| <= capacity && (closed ==> buffer == [])
    }

    /** A send completes without waiting: the queue has room, or it is closed and will refuse at once. */
    predicate CanSend()
      reads this
    {
      closed || |buffer| < capacity
    }

    constructor (capacity: nat)
      requires 0 < capacity
      ensures Valid() && this.capacity == capacity
      ensures buffer == [] && senders == 1 && !closed
    {
      this.capacity := capacity;
      buffer := [];
      senders := 1;
      closed := false;
    }

    /** Enqueue at the back; a closed queue refuses the message and hands back the failure. */
    method Send(m: M) returns (ok: bool)
      requires Valid() && CanSend()
      modifies this`buffer
      ensures Valid()
      ensures ok <==> !closed
      ensures buffer == if ok then old(buffer) + [m] else old(buffer)
    {
      ok := !closed;
      if ok {
        buffer := buffer + [m];
      }
    }

    /** The consumer's `recv`: the oldest message; the end once it is empty and every sender is gone. */
    method Poll() returns (p: Poll<M>)
      requires Valid()
      modifies this`buffer
      ensures Valid()
      ensures old(buffer) != [] ==> p == Ready(Some(old(buffer)[0])) && buffer == old(buffer)[1..]
      ensures old(buffer) == [] ==> buffer == [] && p == (if senders == 0 then Ready(None) else Pending)
    {
      if buffer != [] {
        p := Ready(Some(buffer[0]));
        buffer := buffer[1..];
      } else if senders == 0 {
        p := Ready(None);
      } else {
        p := Pending;
      }
    }

    /** The receiver is dropped: the queue closes and the messages still in it are discarded. */
    method Close()
      requires Valid()
      modifies this`buffer, this`closed
      ensures Valid() && closed && buffer == []
    {
      closed := true;
      buffer := [];
    }

    /** A sender handle is cloned. */
    method AddSender()
      modifies this`senders
      ensures senders == old(senders) + 1
    {
      senders := senders + 1;
    }

    /** A sender handle is dropped. */
    method RemoveSender()
      requires 0 < senders
      modifies this`senders
      ensures senders == old(senders) - 1
    {
      senders := senders - 1;
    }
  }
}
