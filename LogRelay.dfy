/**
 * The stderr log relay started by the parent-side constructor: every line
 * the child writes to its error stream is forwarded to the log at info
 * level, until the stream ends or a read fails.
 */
module LogRelay {
  import opened Inbound

  /** The log the relay forwards to; `entries` are the forwarded lines, oldest first. */
  class LogSink {
    var entries: seq<string>

    constructor ()
      ensures entries == []
    {
      entries := [];
    }

    method Info(line: string)
      modifies this
      ensures entries == old(entries) + [line]
    {
      entries := entries + [line];
    }
  }

  /** The lines read before the first end of stream or read error. */
  function Forwarded(pending: seq<ReadResult>): (out: seq<string>)
    ensures |out| <= |pending|
    ensures forall j :: 0 <= j < |out| ==> pending[j] == Line(out[j])
    ensures |out| < |pending| ==> !pending[|out|].Line?
  {
    if pending == [] || !pending[0].Line? then [] else [pending[0].text] + Forwarded(pending[1..])
  }

  /**
   * The relay loop: forwards each line once, in order, and stops at the first
   * read that is not a line, having consumed that read too.
   */
  method RelayStderr(stderr: LineSource, log: LogSink)
    modifies stderr, log
    ensures log.entries == old(log.entries) + Forwarded(old(stderr.pending))
    ensures stderr.pending == Tail(old(stderr.pending)[|Forwarded(old(stderr.pending))|..])
  {
    ghost var p := stderr.pending;
    ghost var out := Forwarded(p);
    ghost var i := 0;
    while true
      invariant i <= |out| && stderr.pending == p[i..]
      invariant log.entries == old(log.entries) + out[..i]
      decreases |p| - i
    {
      var r := stderr.NextLine();
      if !r.Line? {
        assert out[..i] == out;
        return;
      }
      assert out[..i + 1] == out[..i] + [r.text];
      log.Info(r.text);
      i := i + 1;
    }
  }
}
