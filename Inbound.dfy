/**
 * The inbound half of the channel: a line reader over the peer's output and
 * the receiver handle (`IpcReceiver::recv`) with its sticky `errored` flag.
 * Decoding is a parameter `decode: string -> Option<M>`, `None` standing for
 * a deserialization error.
 */
module Inbound {
  import opened Wrappers
  import opened Framing

  /** The outcome of one `next_line` call: a line, a clean end of stream, or an I/O error. */
  datatype ReadResult = Line(text: string) | Eof | ReadError

  /** What the next read returns; once the scripted results run out, the stream stays at its end. */
  function Head(pending: seq<ReadResult>): ReadResult {
    if pending == [] then Eof else pending[0]
  }

  function Tail(pending: seq<ReadResult>): seq<ReadResult> {
    if pending == [] then [] else pending[1..]
  }

  /** A readable stream split into lines; `pending` lists the results of its future reads. */
  class LineSource {
    var pending: seq<ReadResult>

    constructor (pending: seq<ReadResult>)
      ensures this.pending == pending
    {
      this.pending := pending;
    }

    method NextLine() returns (r: ReadResult)
      modifies this
      ensures r == Head(old(pending)) && pending == Tail(old(pending))
    {
      r := Head(pending);
      pending := Tail(pending);
    }
  }

  function LinesOf(lines: seq<string>): (rs: seq<ReadResult>)
    ensures |rs| == |lines| && forall i :: 0 <= i < |lines| ==> rs[i] == Line(lines[i])
  {
    seq(|lines|, i requires 0 <= i < |lines| => Line(lines[i]))
  }

  /** The reads still to come after `k` reads. */
  function Skip(pending: seq<ReadResult>, k: nat): seq<ReadResult>
    decreases k
  {
    if k == 0 || pending == [] then pending else Skip(pending[1..], k - 1)
  }

  /** Reading a stream of lines returns each line in turn, and then the end of the stream for good. */
  lemma {:induction false} LinesReadInTurn(lines: seq<string>, k: nat)
    ensures Head(Skip(LinesOf(lines), k)) == if k < |lines| then Line(lines[k]) else Eof
    decreases k
  {
    if k > 0 && lines != [] {
      assert LinesOf(lines)[1..] == LinesOf(lines[1..]);
      LinesReadInTurn(lines[1..], k - 1);
    }
  }

  /** The reads of a line reader over a stream that carries `wire` and then ends cleanly. */
  function ReadsOf(wire: string): seq<ReadResult> {
    LinesOf(SplitLines(wire))
  }

  /** What one `recv` call returns, the `errored` flag after it, and the reads still to come. */
  datatype Received<M> = Received(message: Option<M>, errored: bool, pending: seq<ReadResult>)

  function RecvStep<M>(decode: string -> Option<M>, errored: bool, pending: seq<ReadResult>): (r: Received<M>)
    // a failed receiver answers at once and reads nothing
    ensures errored ==> r == Received(None, true, pending)
    // a live receiver reads exactly one line
    ensures !errored ==> r.pending == Tail(pending)
    // only a read error sets the flag, and nothing clears it
    ensures r.errored <==> errored || Head(pending) == ReadError
    // a live receiver that reads a line answers its decoding, and every other call answers `None`
    ensures !errored && Head(pending).Line? ==> r.message == decode(Head(pending).text)
    ensures errored || !Head(pending).Line? ==> r.message == None
  {
    if errored then Received(None, true, pending)
    else match Head(pending)
      case Eof => Received(None, false, Tail(pending))
      case ReadError => Received(None, true, Tail(pending))
      case Line(text) => Received(decode(text), false, Tail(pending))
  }

  /** The answers of `k` successive `recv` calls. */
  function RecvRun<M>(decode: string -> Option<M>, errored: bool, pending: seq<ReadResult>, k: nat): (answers: seq<Option<M>>)
    // one answer per call
    ensures |answers| == k
    decreases k
  {
    if k == 0 then []
    else
      var r := RecvStep(decode, errored, pending);
      [r.message] + RecvRun(decode, r.errored, r.pending, k - 1)
  }

  class IpcReceiver<M> {
    var errored: bool
    const read: LineSource
    const decode: string -> Option<M>

    constructor (read: LineSource, decode: string -> Option<M>)
      ensures !errored && this.read == read && this.decode == decode
    {
      errored := false;
      this.read := read;
      this.decode := decode;
    }

    /** `recv`: the next message, or `None` for the end of the stream, a read error or an undecodable line. */
    method Recv() returns (r: Option<M>)
      modifies this`errored, read
      ensures Received(r, errored, read.pending) == RecvStep(decode, old(errored), old(read.pending))
      ensures old(errored) ==> unchanged(read)
    {
      if errored {
        return None;
      }
      var line := read.NextLine();
      match line
      case Eof =>
        r := None;
      case ReadError =>
        errored := true;
        r := None;
      case Line(text) =>
        r := decode(text);
    }
  }

  /** Once failed, every later `recv` answers `None`. */
  lemma {:induction false} ErroredStaysSilent<M>(decode: string -> Option<M>, pending: seq<ReadResult>, k: nat)
    ensures RecvRun(decode, true, pending, k) == seq(k, i => None)
  {
    if k > 0 {
      ErroredStaysSilent(decode, pending, k - 1);
    }
  }

  /** A read error ends the receiver for good: that call and every later one answer `None`. */
  lemma ReadErrorIsFinal<M>(decode: string -> Option<M>, pending: seq<ReadResult>, k: nat)
    requires Head(pending) == ReadError
    ensures RecvRun(decode, false, pending, k) == seq(k, i => None)
  {
    if k > 0 {
      ErroredStaysSilent(decode, Tail(pending), k - 1);
    }
  }

  /** A clean end of stream does not set the flag: the next call reads again. */
  lemma EofIsNotFinal<M>(decode: string -> Option<M>, pending: seq<ReadResult>, k: nat)
    ensures RecvRun(decode, false, [Eof] + pending, k + 1) == [None] + RecvRun(decode, false, pending, k)
  {
    assert Tail([Eof] + pending) == pending;
  }

  /** An undecodable line costs one `None` answer and nothing else. */
  lemma DecodeFailureSkipsLine<M>(decode: string -> Option<M>, text: string, pending: seq<ReadResult>, k: nat)
    requires decode(text).None?
    ensures RecvRun(decode, false, [Line(text)] + pending, k + 1) == [None] + RecvRun(decode, false, pending, k)
  {
    assert Tail([Line(text)] + pending) == pending;
  }

  /** Over a stream of lines, the k-th `recv` answers the decoding of the k-th line, whatever the others hold. */
  lemma {:induction false} LinesDecodeInOrder<M>(decode: string -> Option<M>, lines: seq<string>)
    ensures RecvRun(decode, false, LinesOf(lines), |lines|) == seq(|lines|, i requires 0 <= i < |lines| => decode(lines[i]))
  {
    if lines != [] {
      assert Tail(LinesOf(lines)) == LinesOf(lines[1..]);
      LinesDecodeInOrder(decode, lines[1..]);
    }
  }
}
