/**
 * The two entry points that bind the channel to a process's streams, and the
 * end-to-end property of the whole channel: what the receiver on the far end
 * of the wire gets back is what was sent.
 */
module Ipc {
  import opened Wrappers
  import opened Framing
  import opened Channel
  import opened Outbound
  import opened Inbound
  import opened LogRelay

  /** Both constructors create the outbound queue with room for ten messages. */
  const QueueCapacity: nat := 10

  /** The part both constructors share: a queue of `QueueCapacity`, its pump on `write`, a sender and a receiver on `read`. */
  method Connect<M, C>(encode: M -> Option<string>, decode: string -> Option<C>, write: Stream, read: LineSource)
    returns (sender: IpcSender<M>, receiver: IpcReceiver<C>, pump: PumpTask<M>)
    ensures fresh(sender) && fresh(receiver) && fresh(pump) && fresh(sender.queue)
    ensures sender.queue == pump.receiver && pump.write == write && pump.encode == encode
    ensures sender.queue.Valid() && sender.queue.capacity == QueueCapacity
    ensures sender.queue.buffer == [] && sender.queue.senders == 1 && !sender.queue.closed
    ensures receiver.read == read && receiver.decode == decode && !receiver.errored
  {
    var queue := new Queue<M>(QueueCapacity);
    pump := new PumpTask(encode, write, queue);
    sender := new IpcSender(queue);
    receiver := new IpcReceiver(read, decode);
  }

  /**
   * `create_child_ipc`: messages go to the child's stdin and come from its
   * stdout; when its stderr is given, its lines are relayed to the log.
   */
  method CreateChildIpc<M, C>(encode: M -> Option<string>, decode: string -> Option<C>,
                              stdin: Stream, stdout: LineSource, stderr: Option<LineSource>, log: LogSink)
    returns (sender: IpcSender<M>, receiver: IpcReceiver<C>, pump: PumpTask<M>)
    requires stderr.Some? ==> stderr.value != stdout
    modifies log, if stderr.Some? then {stderr.value} else {}
    ensures fresh(sender) && fresh(receiver) && fresh(pump) && fresh(sender.queue)
    ensures sender.queue == pump.receiver && pump.write == stdin && pump.encode == encode
    ensures sender.queue.Valid() && sender.queue.capacity == QueueCapacity
    ensures sender.queue.buffer == [] && sender.queue.senders == 1 && !sender.queue.closed
    ensures receiver.read == stdout && receiver.decode == decode && !receiver.errored
    ensures unchanged(stdout)
    ensures log.entries == old(log.entries) + (if stderr.Some? then Forwarded(old(stderr.value.pending)) else [])
  {
    if stderr.Some? {
      RelayStderr(stderr.value, log);
    }
    sender, receiver, pump := Connect(encode, decode, stdin, stdout);
  }

  /**
   * `create_process_ipc`: the mirror image inside the child, messages going
   * to its own stdout and coming from its own stdin; no relay is started.
   */
  method CreateProcessIpc<C, M>(encode: M -> Option<string>, decode: string -> Option<C>, stdin: LineSource, stdout: Stream)
    returns (sender: IpcSender<M>, receiver: IpcReceiver<C>, pump: PumpTask<M>)
    ensures fresh(sender) && fresh(receiver) && fresh(pump) && fresh(sender.queue)
    ensures sender.queue == pump.receiver && pump.write == stdout && pump.encode == encode
    ensures sender.queue.Valid() && sender.queue.capacity == QueueCapacity
    ensures sender.queue.buffer == [] && sender.queue.senders == 1 && !sender.queue.closed
    ensures receiver.read == stdin && receiver.decode == decode && !receiver.errored
  {
    sender, receiver, pump := Connect(encode, decode, stdout, stdin);
  }

  /**
   * End to end: a receiver reading the wire a pump run produced answers, one
   * call per line, exactly the delivered messages that could be encoded, in
   * queue order. It holds whether or not the run stopped on a failure; a
   * failure only shortens what is delivered.
   */
  lemma ChannelDeliversInOrder<M(!new)>(encode: M -> Option<string>, decode: string -> Option<M>,
                                        ms: seq<M>, faults: set<nat>, n: nat)
    requires SafeEncoder(encode)
    requires forall m :: encode(m).Some? ==> decode(encode(m).value) == Some(m)
    ensures var d := DrainSpec(encode, ms, faults, n);
      var sent := Encodable(encode, ms[..Delivered(d)]);
      var input := ReadsOf(d.wire);
      && |input| == |sent|
      && RecvRun(decode, false, input, |input|) == seq(|sent|, i requires 0 <= i < |sent| => Some(sent[i]))
  {
    var d := DrainSpec(encode, ms, faults, n);
    var delivered := ms[..Delivered(d)];
    var lines := EncodedLines(encode, delivered);
    DrainFramesDelivered(encode, ms, faults, n);
    EncodedLinesDecode(encode, decode, delivered);
    SplitFrame(lines);
    LinesDecodeInOrder(decode, lines);
    assert ReadsOf(d.wire) == LinesOf(lines);
  }

  /** The encoded lines are safe to frame, and decoding them gives back the encodable messages. */
  lemma EncodedLinesDecode<M(!new)>(encode: M -> Option<string>, decode: string -> Option<M>, ms: seq<M>)
    requires SafeEncoder(encode)
    requires forall m :: encode(m).Some? ==> decode(encode(m).value) == Some(m)
    ensures var lines, sent := EncodedLines(encode, ms), Encodable(encode, ms);
      && (forall i :: 0 <= i < |lines| ==> LineSafe(lines[i]))
      && seq(|lines|, i requires 0 <= i < |lines| => decode(lines[i]))
         == seq(|sent|, i requires 0 <= i < |sent| => Some(sent[i]))
  {
    var lines, sent := EncodedLines(encode, ms), Encodable(encode, ms);
    EncodedLinesAt(encode, ms);
    forall i | 0 <= i < |sent|
      ensures LineSafe(lines[i]) && decode(lines[i]) == Some(sent[i])
    {
      assert encode(sent[i]) == Some(lines[i]);
    }
  }
}
