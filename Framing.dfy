/**
 * Newline framing of the control channel: the pump writes each encoded
 * message followed by a single '\n', and the reader splits the stream into
 * lines the way a tokio `Lines` reader does (`next_line`).
 */
module Framing {
  import opened Wrappers

  /** A line the framing can carry unchanged: no '\n' inside and no trailing '\r' (which `next_line` strips). */
  predicate LineSafe(s: string) {
    (forall i :: 0 <= i < |s| ==> s[i] != '\n') && (|s| == 0 || s[|s| - 1] != '\r')
  }

  /** The bytes on the wire for a sequence of lines: each line followed by '\n'. */
  function Frame(lines: seq<string>): (wire: string)
    // nothing is written for no lines, and the wire always ends on a terminator
    ensures wire == [] <==> lines == []
    ensures wire != [] ==> wire[|wire| - 1] == '\n'
  {
    if lines == [] then [] else lines[0] + "\n" + Frame(lines[1..])
  }

  /** Index of the first '\n' in `s`, or `|s|` when there is none. */
  function LineEnd(s: string): (k: nat)
    ensures k <= |s|
    ensures forall i :: 0 <= i < k ==> s[i] != '\n'
    ensures k < |s| ==> s[k] == '\n'
  {
    if s == [] || s[0] == '\n' then 0 else 1 + LineEnd(s[1..])
  }

  /** `next_line` removes one '\r' that precedes the removed '\n'. */
  function StripCr(line: string): (r: string)
    // at most one character goes, and only a trailing '\r'
    ensures |r| <= |line| && |line| - 1 <= |r| && r == line[..|r|]
    ensures |r| < |line| <==> |line| > 0 && line[|line| - 1] == '\r'
  {
    if |line| > 0 && line[|line| - 1] == '\r' then line[..|line| - 1] else line
  }

  /**
   * One call of `next_line` on the unread input `s`: `None` at end of input,
   * otherwise the line without its terminator and the input that remains.
   * A last fragment without '\n' is still returned as a line.
   */
  function NextLine(s: string): (r: Option<(string, string)>)
    ensures r.None? <==> s == []
    ensures r.Some? ==> |r.value.1| < |s|
  {
    if s == [] then None
    else
      var k := LineEnd(s);
      if k < |s| then Some((StripCr(s[..k]), s[k + 1..])) else Some((s, []))
  }

  /** Every line a reader obtains from `s` by calling `next_line` until it reports the end. */
  function SplitLines(s: string): (lines: seq<string>)
    // the end is reported at once on an empty stream, and no line carries its terminator
    ensures lines == [] <==> s == []
    ensures forall i :: 0 <= i < |lines| ==> '\n' !in lines[i]
    decreases |s|
  {
    match NextLine(s)
    case None => []
    case Some((line, rest)) => [line] + SplitLines(rest)
  }

  lemma LineEndOfFramed(line: string, rest: string)
    requires LineSafe(line)
    ensures LineEnd(line + "\n" + rest) == |line|
  {
    var s := line + "\n" + rest;
    assert s[|line|] == '\n';
    assert forall i :: 0 <= i < |line| ==> s[i] == line[i];
  }

  /** Framing round trip: splitting framed safe lines gives back exactly those lines, in order. */
  lemma {:induction false} SplitFrame(lines: seq<string>)
    requires forall i :: 0 <= i < |lines| ==> LineSafe(lines[i])
    ensures SplitLines(Frame(lines)) == lines
  {
    if lines != [] {
      var line, rest := lines[0], Frame(lines[1..]);
      var s := line + "\n" + rest;
      assert Frame(lines) == s;
      LineEndOfFramed(line, rest);
      assert s[..|line|] == line;
      assert s[|line| + 1..] == rest;
      assert StripCr(line) == line;
      assert NextLine(s) == Some((line, rest));
      SplitFrame(lines[1..]);
    }
  }
}
