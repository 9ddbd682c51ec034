/**
 * The outbound half of the channel: the writable stream, the pump task that
 * drains the queue onto it (`ipc_sender`), and the cloneable sender handle.
 * Encoding is a parameter `encode: M -> Option<string>`, `None` standing for
 * a serialization error.
 */
module Outbound {
  import opened Wrappers
  import opened Framing
  import opened Channel

  /** One I/O call the pump made on its stream, with whether it succeeded. */
  datatype Call = Write(data: string, ok: bool) | Flush(ok: bool)

  /**
   * A writable stream. Which calls fail is fixed up front by `faults`: the
   * call with index k (counting writes and flushes together) fails iff k is
   * in `faults`. `wire` holds the text accepted by successful writes.
   */
  class Stream {
    const faults: set<nat>
    var wire: string
    var calls: seq<Call>

    constructor (faults: set<nat>)
      ensures this.faults == faults && wire == [] && calls == []
    {
      this.faults := faults;
      wire := [];
      calls := [];
    }

    /** `write_all`: on success the whole buffer is appended; on failure nothing is. */
    method WriteAll(data: string) returns (ok: bool)
      modifies this`wire, this`calls
      ensures ok <==> |old(calls)| !in faults
      ensures wire == if ok then old(wire) + data else old(wire)
      ensures calls == old(calls) + [Write(data, ok)]
    {
      ok := |calls| !in faults;
      if ok {
        wire := wire + data;
      }
      calls := calls + [Write(data, ok)];
    }

    method Flush() returns (ok: bool)
      modifies this`calls
      ensures ok <==> |old(calls)| !in faults
      ensures calls == old(calls) + [Call.Flush(ok)]
    {
      ok := |calls| !in faults;
      calls := calls + [Call.Flush(ok)];
    }
  }

  /** The assumption about the JSON encoder: whatever it produces fits on one line. */
  ghost predicate SafeEncoder<M(!new)>(encode: M -> Option<string>) {
    forall m :: encode(m).Some? ==> LineSafe(encode(m).value)
  }

  /** The messages of `ms` that the encoder accepts, in order. */
  function Encodable<M>(encode: M -> Option<string>, ms: seq<M>): (es: seq<M>)
    // only messages that encode are kept, and never more than were queued
    ensures |es| <= |ms|
    ensures forall i :: 0 <= i < |es| ==> encode(es[i]).Some?
  {
    if ms == [] then []
    else if encode(ms[0]).Some? then [ms[0]] + Encodable(encode, ms[1..])
    else Encodable(encode, ms[1..])
  }

  /** Every encodable message is kept, as often as it is queued, and nothing else is. */
  lemma {:induction false} EncodableKeepsEncoded<M>(encode: M -> Option<string>, ms: seq<M>, x: M)
    ensures multiset(Encodable(encode, ms))[x] == if encode(x).Some? then multiset(ms)[x] else 0
  {
    if ms != [] {
      EncodableKeepsEncoded(encode, ms[1..], x);
      assert ms == [ms[0]] + ms[1..];
    }
  }

  /** The encodings of the messages of `ms` that the encoder accepts, in order. */
  function EncodedLines<M>(encode: M -> Option<string>, ms: seq<M>): (lines: seq<string>)
    // at most one line per message
    ensures |lines| <= |ms|
  {
    if ms == [] then []
    else match encode(ms[0])
      case None => EncodedLines(encode, ms[1..])
      case Some(json) => [json] + EncodedLines(encode, ms[1..])
  }

  /** The k-th encoded line is the encoding of the k-th encodable message. */
  lemma {:induction false} EncodedLinesAt<M>(encode: M -> Option<string>, ms: seq<M>)
    ensures |EncodedLines(encode, ms)| == |Encodable(encode, ms)|
    ensures forall k :: 0 <= k < |Encodable(encode, ms)| ==>
              encode(Encodable(encode, ms)[k]) == Some(EncodedLines(encode, ms)[k])
  {
    if ms != [] {
      EncodedLinesAt(encode, ms[1..]);
    }
  }

  /**
   * What one uninterrupted run of the pump does with the queued messages `ms`
   * when its stream has made `n` calls so far: the text it puts on the wire,
   * the calls it makes, how many messages it takes from the queue, and
   * whether it stopped on a failed write or flush.
   */
  datatype Drain = Drain(wire: string, calls: seq<Call>, taken: nat, failed: bool)

  /** Handling one queued message with the stream at call `n`: encode, write the line, flush. */
  function Step<M>(encode: M -> Option<string>, m: M, faults: set<nat>, n: nat): (s: Drain)
    ensures s.taken == 1 && |s.calls| <= 2
    // only an encodable message touches the stream, and the turn fails when its write or its flush does
    ensures s.failed <==> encode(m).Some? && (n in faults || n + 1 in faults)
    ensures !s.failed ==> s.wire == if encode(m).Some? then encode(m).value + "\n" else []
    // the calls: none for a message that does not encode, otherwise a write of the line and,
    // when the write succeeds, a flush
    ensures encode(m).None? <==> s.calls == []
    ensures encode(m).Some? ==>
      && s.calls[0] == Write(encode(m).value + "\n", n !in faults)
      && (|s.calls| == 2 <==> n !in faults)
      && (|s.calls| == 2 ==> s.calls[1] == Flush(n + 1 !in faults))
  {
    match encode(m)
    case None => Drain([], [], 1, false)
    case Some(json) =>
      var line := json + "\n";
      if n in faults then Drain([], [Write(line, false)], 1, true)
      else if n + 1 in faults then Drain(line, [Write(line, true), Flush(false)], 1, true)
      else Drain(line, [Write(line, true), Flush(true)], 1, false)
  }

  /** A run that has already written `wire`, made `calls` and taken `taken` messages, followed by the run `rest`. */
  function Join(wire: string, calls: seq<Call>, taken: nat, rest: Drain): Drain {
    Drain(wire + rest.wire, calls + rest.calls, taken + rest.taken, rest.failed)
  }

  function DrainSpec<M>(encode: M -> Option<string>, ms: seq<M>, faults: set<nat>, n: nat): (d: Drain)
    ensures d.taken <= |ms|
    ensures !d.failed ==> d.taken == |ms|
    ensures d.failed ==> 0 < d.taken && d.calls != []
    decreases |ms|
  {
    if ms == [] then Drain([], [], 0, false)
    else
      var s := Step(encode, ms[0], faults, n);
      if s.failed then s
      else Join(s.wire, s.calls, 1, DrainSpec(encode, ms[1..], faults, n + |s.calls|))
  }

  /**
   * How many of the messages a run took reached the wire: all of them, except
   * the last one when the run stopped because writing it failed.
   */
  function Delivered(d: Drain): (k: nat)
    ensures k <= d.taken
    ensures !d.failed ==> k == d.taken
    ensures d.failed && 0 < d.taken ==> d.taken - 1 <= k
  {
    if d.failed && d.calls != [] && d.calls[|d.calls| - 1].Write? && 0 < d.taken then d.taken - 1 else d.taken
  }

  /** The line of the first message, if it has one, followed by the framing of the next `k - 1` encodable messages. */
  lemma PrependWritten<M>(encode: M -> Option<string>, ms: seq<M>, k: nat, wire: string)
    requires 0 < k <= |ms|
    requires wire == (if encode(ms[0]).Some? then encode(ms[0]).value + "\n" else [])
                     + Frame(EncodedLines(encode, ms[1..][..k - 1]))
    ensures wire == Frame(EncodedLines(encode, ms[..k]))
  {
    var pre, rest := ms[..k], ms[1..][..k - 1];
    assert pre[0] == ms[0] && pre[1..] == rest;
  }

  /** The framing property of `DrainFramesDelivered` for one run. */
  ghost predicate FramesDelivered<M>(encode: M -> Option<string>, ms: seq<M>, d: Drain)
    requires Delivered(d) <= |ms|
  {
    d.wire == Frame(EncodedLines(encode, ms[..Delivered(d)]))
  }

  /** The inductive step over a message whose turn succeeded, given the property for the run on the rest. */
  lemma FramesDeliveredCons<M>(encode: M -> Option<string>, ms: seq<M>, faults: set<nat>, n: nat, k: nat)
    requires ms != [] && (encode(ms[0]).Some? ==> k == 2 && n !in faults && n + 1 !in faults)
    requires encode(ms[0]).None? ==> k == 0
    requires FramesDelivered(encode, ms[1..], DrainSpec(encode, ms[1..], faults, n + k))
    ensures FramesDelivered(encode, ms, DrainSpec(encode, ms, faults, n))
  {
    var d, e := DrainSpec(encode, ms, faults, n), DrainSpec(encode, ms[1..], faults, n + k);
    assert Delivered(d) == 1 + Delivered(e);
    PrependWritten(encode, ms, 1 + Delivered(e), d.wire);
  }

  /** The base cases: no message left, or the turn on the first message failed. */
  lemma FramesDeliveredStop<M>(encode: M -> Option<string>, ms: seq<M>, faults: set<nat>, n: nat)
    requires ms != [] ==> encode(ms[0]).Some? && (n in faults || n + 1 in faults)
    ensures FramesDelivered(encode, ms, DrainSpec(encode, ms, faults, n))
  {
    var d := DrainSpec(encode, ms, faults, n);
    if ms == [] || n in faults {
      assert ms[..Delivered(d)] == [];
    } else {
      PrependWritten(encode, ms, 1, d.wire);
    }
  }

  /**
   * Whatever fails, the wire is exactly the framing of the encodings of the
   * delivered messages, in queue order. Nothing queued behind the message a
   * run stopped on is ever written, since `Delivered(d) <= d.taken`.
   */
  lemma {:induction false} DrainFramesDelivered<M>(encode: M -> Option<string>, ms: seq<M>, faults: set<nat>, n: nat)
    ensures var d := DrainSpec(encode, ms, faults, n);
      d.wire == Frame(EncodedLines(encode, ms[..Delivered(d)]))
    decreases |ms|
  {
    if ms != [] && encode(ms[0]).None? {
      DrainFramesDelivered(encode, ms[1..], faults, n);
      FramesDeliveredCons(encode, ms, faults, n, 0);
    } else if ms != [] && n !in faults && n + 1 !in faults {
      DrainFramesDelivered(encode, ms[1..], faults, n + 2);
      FramesDeliveredCons(encode, ms, faults, n, 2);
    } else {
      FramesDeliveredStop(encode, ms, faults, n);
    }
  }


  /** A run that does not fail writes, in queue order, each encodable message's encoding and a '\n'. */
  lemma DrainWireComplete<M>(encode: M -> Option<string>, ms: seq<M>, faults: set<nat>, n: nat)
    ensures var d := DrainSpec(encode, ms, faults, n);
      !d.failed ==> d.wire == Frame(EncodedLines(encode, ms))
  {
    DrainFramesDelivered(encode, ms, faults, n);
    assert ms[..|ms|] == ms;
  }

  /**
   * The calls of a pump run: pairs of a successful write and a successful
   * flush, ending, exactly when the run failed, in either a failed write or a
   * successful write followed by a failed flush.
   */
  predicate CallDiscipline(cs: seq<Call>, failed: bool)
    decreases |cs|
  {
    if cs == [] then !failed
    else if |cs| == 1 then failed && cs[0].Write? && !cs[0].ok
    else
      && cs[0].Write? && cs[0].ok && cs[1].Flush?
      && (if cs[1].ok then CallDiscipline(cs[2..], failed) else failed && |cs| == 2)
  }

  /**
   * Every successful write is followed at once by a flush, every flush comes
   * right after a successful write, every call but the last succeeds, and the
   * run stopped on a failure exactly when its last call failed.
   */
  lemma {:induction false} DrainCalls<M>(encode: M -> Option<string>, ms: seq<M>, faults: set<nat>, n: nat)
    ensures var d := DrainSpec(encode, ms, faults, n); CallDiscipline(d.calls, d.failed)
    decreases |ms|
  {
    if ms != [] {
      var d := DrainSpec(encode, ms, faults, n);
      match encode(ms[0])
      case None =>
        var e := DrainSpec(encode, ms[1..], faults, n);
        DrainCalls(encode, ms[1..], faults, n);
        assert d.calls == e.calls && d.failed == e.failed;
      case Some(json) =>
        if n !in faults && n + 1 !in faults {
          var e := DrainSpec(encode, ms[1..], faults, n + 2);
          DrainCalls(encode, ms[1..], faults, n + 2);
          assert d.calls[2..] == e.calls;
        }
    }
  }

  /** The discipline, call by call: a successful write is followed by a flush, a flush follows a successful write. */
  lemma {:induction false} DisciplineCallByCall(cs: seq<Call>, failed: bool, i: nat)
    requires CallDiscipline(cs, failed) && i < |cs|
    ensures cs[i].Write? && cs[i].ok ==> i + 1 < |cs| && cs[i + 1].Flush?
    ensures cs[i].Flush? ==> 0 < i && cs[i - 1].Write? && cs[i - 1].ok
    ensures i < |cs| - 1 ==> cs[i].ok
    ensures failed <==> !cs[|cs| - 1].ok
    decreases |cs|
  {
    if 2 <= |cs| && cs[1].ok {
      var rest := cs[2..];
      if rest != [] {
        DisciplineCallByCall(rest, failed, if 2 <= i then i - 2 else 0);
        assert cs[|cs| - 1] == rest[|rest| - 1];
      }
    }
  }

  /**
   * A message the encoder rejects leaves no trace: the run behaves exactly as
   * if only the encodable messages had been queued.
   */
  lemma {:induction false} DrainSkipsUnencodable<M>(encode: M -> Option<string>, ms: seq<M>, faults: set<nat>, n: nat)
    ensures var d := DrainSpec(encode, ms, faults, n);
            var e := DrainSpec(encode, Encodable(encode, ms), faults, n);
            d.wire == e.wire && d.calls == e.calls && d.failed == e.failed
    decreases |ms|
  {
    if ms != [] {
      var es := Encodable(encode, ms);
      match encode(ms[0])
      case None =>
        DrainSkipsUnencodable(encode, ms[1..], faults, n);
      case Some(json) =>
        assert es[0] == ms[0] && es[1..] == Encodable(encode, ms[1..]);
        if n !in faults && n + 1 !in faults {
          DrainSkipsUnencodable(encode, ms[1..], faults, n + 2);
        }
    }
  }

  /** On a stream that does not fail, the run takes every queued message and writes all the encodable ones. */
  lemma {:induction false} DrainNoFaults<M>(encode: M -> Option<string>, ms: seq<M>, faults: set<nat>, n: nat)
    requires forall k :: n <= k < n + 2 * |ms| ==> k !in faults
    ensures var d := DrainSpec(encode, ms, faults, n);
      && !d.failed && d.taken == |ms|
      && |d.calls| == 2 * |EncodedLines(encode, ms)|
      && d.wire == Frame(EncodedLines(encode, ms))
    decreases |ms|
  {
    if ms != [] {
      match encode(ms[0])
      case None =>
        DrainNoFaults(encode, ms[1..], faults, n);
      case Some(json) =>
        DrainNoFaults(encode, ms[1..], faults, n + 2);
    }
  }

  /** Framing end to end: a reader splitting the wire gets the encoded lines of the delivered messages. */
  lemma DrainSplits<M(!new)>(encode: M -> Option<string>, ms: seq<M>, faults: set<nat>, n: nat)
    requires SafeEncoder(encode)
    ensures var d := DrainSpec(encode, ms, faults, n);
      !d.failed ==> SplitLines(d.wire) == EncodedLines(encode, ms)
  {
    DrainWireComplete(encode, ms, faults, n);
    EncodedLinesAt(encode, ms);
    SplitFrame(EncodedLines(encode, ms));
  }

  datatype PumpStatus =
    | Suspended  // the queue is empty and senders remain: the task waits for the next message
    | Finished   // every sender is gone and the queue is drained
    | Failed     // a write or flush failed

  /** The spawned `ipc_sender` task: the only writer of its stream and the only reader of its queue. */
  class PumpTask<M> {
    const encode: M -> Option<string>
    const write: Stream
    const receiver: Queue<M>

    constructor (encode: M -> Option<string>, write: Stream, receiver: Queue<M>)
      ensures this.encode == encode && this.write == write && this.receiver == receiver
    {
      this.encode := encode;
      this.write := write;
      this.receiver := receiver;
    }

    /**
     * Runs the task until it has to wait or returns. The task exists as long
     * as its queue is open; when it returns, for whatever reason, its end of
     * the queue is dropped, which closes the queue for every sender.
     */
    method Run() returns (status: PumpStatus)
      requires receiver.Valid() && !receiver.closed
      modifies write`wire, write`calls, receiver`buffer, receiver`closed
      ensures receiver.Valid()
      ensures var d := DrainSpec(encode, old(receiver.buffer), write.faults, |old(write.calls)|);
        && write.wire == old(write.wire) + d.wire
        && write.calls == old(write.calls) + d.calls
        && status == (if d.failed then Failed else if receiver.senders == 0 then Finished else Suspended)
      ensures receiver.buffer == []
      ensures receiver.closed <==> status != Suspended
    {
      ghost var ms, wire0, calls0 := receiver.buffer, write.wire, write.calls;
      ghost var whole := DrainSpec(encode, ms, write.faults, |calls0|);
      // what this run has written and called so far, and how many messages it took
      ghost var done: string, made: seq<Call>, i := [], [], 0;
      while true
        invariant receiver.Valid() && !receiver.closed
        invariant i <= |ms| && receiver.buffer == ms[i..]
        invariant write.wire == wire0 + done && write.calls == calls0 + made
        invariant Splits(whole, done, made, DrainSpec(encode, ms[i..], write.faults, |write.calls|))
        decreases |ms| - i
      {
        var p := receiver.Poll();
        if p.Pending? || p.item.None? {
          SplitsEnd(whole, done, made, DrainSpec(encode, ms[i..], write.faults, |write.calls|));
          if p.Pending? {
            return Suspended;
          }
          receiver.Close();
          return Finished;
        }
        ghost var n := |write.calls|;
        ghost var s := Step(encode, ms[i], write.faults, n);
        assert p.item.value == ms[i];
        Turn(encode, ms, i, write.faults, whole, wire0, calls0, done, made);
        var alive := Forward(p.item.value);
        if !alive {
          receiver.Close();
          return Failed;
        }
        done, made, i := done + s.wire, made + s.calls, i + 1;
      }
    }

    /** One turn of the loop: `Step` carried out on the stream. */
    method Forward(m: M) returns (alive: bool)
      modifies write`wire, write`calls
      ensures var s := Step(encode, m, write.faults, |old(write.calls)|);
        && write.wire == old(write.wire) + s.wire
        && write.calls == old(write.calls) + s.calls
        && alive == !s.failed
    {
      match encode(m)
      case None =>
        alive := true;
      case Some(json) =>
        var line := json + "\n";
        alive := write.WriteAll(line);
        if alive {
          alive := write.Flush();
        }
    }
  }

  /** `whole` is the run so far, `done` and `made`, followed by the run `rest`. */
  ghost predicate Splits(whole: Drain, done: string, made: seq<Call>, rest: Drain) {
    whole.wire == done + rest.wire && whole.calls == made + rest.calls && whole.failed == rest.failed
  }

  lemma SplitsEnd(whole: Drain, done: string, made: seq<Call>, rest: Drain)
    requires Splits(whole, done, made, rest) && rest == Drain([], [], 0, false)
    ensures whole.wire == done && whole.calls == made && !whole.failed
  {
  }

  /**
   * One turn of the pump over message `i`: the run either stops with this
   * step, or goes on from message `i + 1` with the step's output added to
   * what is done.
   */
  lemma Turn<M>(encode: M -> Option<string>, ms: seq<M>, i: nat, faults: set<nat>, whole: Drain,
                wire0: string, calls0: seq<Call>, done: string, made: seq<Call>)
    requires i < |ms|
    requires Splits(whole, done, made, DrainSpec(encode, ms[i..], faults, |calls0 + made|))
    ensures var s := Step(encode, ms[i], faults, |calls0 + made|);
      && wire0 + done + s.wire == wire0 + (done + s.wire)
      && calls0 + made + s.calls == calls0 + (made + s.calls)
      && (s.failed ==> whole.wire == done + s.wire && whole.calls == made + s.calls && whole.failed)
      && (!s.failed ==>
            Splits(whole, done + s.wire, made + s.calls, DrainSpec(encode, ms[i + 1..], faults, |calls0 + (made + s.calls)|)))
  {
    var n := |calls0 + made|;
    var s := Step(encode, ms[i], faults, n);
    AppendAssoc(wire0, done, s.wire);
    AppendAssoc(calls0, made, s.calls);
    var rest := DrainSpec(encode, ms[i..], faults, n);
    if s.failed {
      assert rest == s;
    } else {
      var rest' := DrainSpec(encode, ms[i + 1..], faults, n + |s.calls|);
      assert rest == Join(s.wire, s.calls, 1, rest');
      assert n + |s.calls| == |calls0 + (made + s.calls)|;
      AppendAssoc(done, s.wire, rest'.wire);
      AppendAssoc(made, s.calls, rest'.calls);
    }
  }

  lemma AppendAssoc<T>(a: seq<T>, b: seq<T>, c: seq<T>)
    ensures a + (b + c) == (a + b) + c
  {
  }

  /**
   * A sender handle. Sending never reports a failure to the caller: a message
   * offered to a closed queue is dropped with only a warning in the log.
   */
  class IpcSender<M> {
    const queue: Queue<M>

    constructor (queue: Queue<M>)
      ensures this.queue == queue
    {
      this.queue := queue;
    }

    /** `send`: the message goes to the back of the queue, or is dropped once the queue is closed. */
    method Send(message: M)
      requires queue.Valid() && queue.CanSend()
      modifies queue`buffer
      ensures queue.Valid()
      ensures queue.buffer == if queue.closed then old(queue.buffer) else old(queue.buffer) + [message]
    {
      var accepted := queue.Send(message);
    }

    /** `blocking_send`: the same outcome for a caller outside the async runtime. */
    method BlockingSend(message: M)
      requires queue.Valid() && queue.CanSend()
      modifies queue`buffer
      ensures queue.Valid()
      ensures queue.buffer == if queue.closed then old(queue.buffer) else old(queue.buffer) + [message]
    {
      var accepted := queue.Send(message);
    }

    /** `clone`: another handle on the same queue. */
    method Clone() returns (other: IpcSender<M>)
      modifies queue`senders
      ensures fresh(other) && other.queue == queue
      ensures queue.senders == old(queue.senders) + 1
    {
      queue.AddSender();
      other := new IpcSender(queue);
    }

    /** Dropping a handle; when the last one goes, the pump finishes once the queue is drained. */
    method Drop()
      requires 0 < queue.senders
      modifies queue`senders
      ensures queue.senders == old(queue.senders) - 1
    {
      queue.RemoveSender();
    }
  }
}
