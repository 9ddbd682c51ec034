/**
 * Two pure pieces of the web server: the header redaction used when HTTP
 * requests are traced (`ActixDebugSpan::sanitize_headers`) and the mapping
 * from the configured `log::LevelFilter` to tracing's `LevelFilter` in
 * `init_log`.
 */
module WebServer {
  import opened Wrappers

  newtype byte = x: int | 0 <= x < 256

  /** One header as a `HeaderMap` iterator yields it: a name and a raw value. */
  datatype Header = Header(name: string, value: seq<byte>)

  /** Header names whose values never reach the trace, in ASCII lower case. */
  const Sensitive: seq<string> := ["authorization", "cookie", "set-cookie"]
  const Redacted: string := "<redacted>"
  const Binary: string := "<binary>"

  function AsciiLower(c: char): char {
    if 'A' <= c <= 'Z' then (c as int + 32) as char else c
  }

  /** `str::to_ascii_lowercase`. */
  function ToAsciiLowercase(s: string): (r: string)
    // the same text up to ASCII case, with no upper-case ASCII letter left
    ensures EqIgnoreAsciiCase(r, s)
    ensures forall i :: 0 <= i < |r| ==> !('A' <= r[i] <= 'Z')
  {
    seq(|s|, i requires 0 <= i < |s| => AsciiLower(s[i]))
  }

  /** `str::eq_ignore_ascii_case`. */
  predicate EqIgnoreAsciiCase(a: string, b: string) {
    |a| == |b| && forall i :: 0 <= i < |a| ==> AsciiLower(a[i]) == AsciiLower(b[i])
  }

  /** A name is sensitive exactly when it equals one of the three names, ignoring ASCII case. */
  predicate IsSensitive(name: string)
    ensures IsSensitive(name) <==>
      EqIgnoreAsciiCase(name, "authorization") || EqIgnoreAsciiCase(name, "cookie") || EqIgnoreAsciiCase(name, "set-cookie")
  {
    LowercaseMatch(name, "authorization");
    LowercaseMatch(name, "cookie");
    LowercaseMatch(name, "set-cookie");
    ToAsciiLowercase(name) in Sensitive
  }

  /** The bytes `HeaderValue::to_str` accepts: visible ASCII and horizontal tab. */
  predicate Visible(b: byte) {
    b == 9 || (32 <= b && b < 127)
  }

  /** `HeaderValue::to_str`: the value as text when every byte is visible ASCII, otherwise an error. */
  function ValueToStr(v: seq<byte>): (r: Option<string>)
    ensures r.Some? <==> forall i :: 0 <= i < |v| ==> Visible(v[i])
    ensures r.Some? ==> |r.value| == |v| && forall i :: 0 <= i < |v| ==> r.value[i] as int == v[i] as int
  {
    if forall i :: 0 <= i < |v| ==> Visible(v[i])
    then Some(seq(|v|, i requires 0 <= i < |v| => v[i] as int as char))
    else None
  }

  /** One traced entry: the header's name and the text shown for its value. */
  datatype Entry = Entry(name: string, value: string)

  /** The traced entry of one header. */
  function SanitizeHeader(h: Header): (e: Entry)
    ensures e.name == h.name
    ensures IsSensitive(h.name) ==> e.value == Redacted
    ensures !IsSensitive(h.name) && ValueToStr(h.value).None? ==> e.value == Binary
    ensures !IsSensitive(h.name) && ValueToStr(h.value).Some? ==> e.value == ValueToStr(h.value).value
  {
    Entry(h.name, if IsSensitive(h.name) then Redacted else ValueToStr(h.value).GetOr(Binary))
  }

  /**
   * One entry per header, in iteration order, under the header's own name;
   * a sensitive header's value is replaced by "<redacted>", a value that is
   * not visible ASCII by "<binary>", and any other value is kept.
   */
  function SanitizeHeaders(headers: seq<Header>): (r: seq<Entry>)
    ensures |r| == |headers|
    ensures forall i :: 0 <= i < |headers| ==> r[i].name == headers[i].name
    ensures forall i :: 0 <= i < |headers| && IsSensitive(headers[i].name) ==> r[i].value == Redacted
    ensures forall i :: 0 <= i < |headers| && !IsSensitive(headers[i].name) && ValueToStr(headers[i].value).None? ==>
              r[i].value == Binary
    ensures forall i :: 0 <= i < |headers| && !IsSensitive(headers[i].name) && ValueToStr(headers[i].value).Some? ==>
              r[i].value == ValueToStr(headers[i].value).value
  {
    seq(|headers|, i requires 0 <= i < |headers| => SanitizeHeader(headers[i]))
  }

  lemma LowercaseMatch(name: string, s: string)
    requires ToAsciiLowercase(s) == s
    ensures ToAsciiLowercase(name) == s <==> EqIgnoreAsciiCase(name, s)
  {
    if EqIgnoreAsciiCase(name, s) {
      assert forall i :: 0 <= i < |s| ==> AsciiLower(s[i]) == ToAsciiLowercase(s)[i];
    }
  }

  /** Two names that differ only in ASCII case are both redacted or both not. */
  lemma SensitivityIgnoresCase(a: string, b: string)
    requires EqIgnoreAsciiCase(a, b)
    ensures IsSensitive(a) <==> IsSensitive(b)
  {
    assert ToAsciiLowercase(a) == ToAsciiLowercase(b);
  }

  /**
   * Redaction hides sensitive values completely: two header lists that agree
   * on every name and on every non-sensitive value trace the same.
   */
  lemma RedactionHidesSensitiveValues(hs: seq<Header>, hs': seq<Header>)
    requires |hs| == |hs'|
    requires forall i :: 0 <= i < |hs| ==> hs[i].name == hs'[i].name
    requires forall i :: 0 <= i < |hs| && !IsSensitive(hs[i].name) ==> hs[i].value == hs'[i].value
    ensures SanitizeHeaders(hs) == SanitizeHeaders(hs')
  {
    var r, r' := SanitizeHeaders(hs), SanitizeHeaders(hs');
    assert forall i :: 0 <= i < |r| ==> r[i] == r'[i];
  }

  /**
   * The text of a sensitive header shows up in the output only where a
   * non-sensitive header carries the same text, or when it is one of the two
   * placeholders.
   */
  lemma NoSensitiveValueLeaks(hs: seq<Header>, k: nat, j: nat)
    requires k < |hs| && j < |hs| && IsSensitive(hs[k].name) && ValueToStr(hs[k].value).Some?
    requires SanitizeHeaders(hs)[j].value == ValueToStr(hs[k].value).value
    ensures || ValueToStr(hs[k].value).value == Redacted
            || ValueToStr(hs[k].value).value == Binary
            || (!IsSensitive(hs[j].name) && ValueToStr(hs[j].value) == ValueToStr(hs[k].value))
  {
    var out := SanitizeHeaders(hs)[j].value;
    if IsSensitive(hs[j].name) {
      assert out == Redacted;
    } else if ValueToStr(hs[j].value).None? {
      assert out == Binary;
    } else {
      assert out == ValueToStr(hs[j].value).value;
    }
  }

  /** `log::LevelFilter`, as the configuration holds it. */
  datatype LogLevelFilter = Off | Error | Warn | Info | Debug | Trace

  /** tracing's `LevelFilter` constants. */
  datatype TracingLevelFilter = OFF | ERROR | WARN | INFO | DEBUG | TRACE

  /** Rank of a `log` filter, from off (0) to most verbose (5), in the order that crate declares them. */
  function Verbosity(l: LogLevelFilter): nat {
    match l
    case Off => 0
    case Error => 1
    case Warn => 2
    case Info => 3
    case Debug => 4
    case Trace => 5
  }

  /** Rank of a tracing filter, from off (0) to most verbose (5). */
  function TracingVerbosity(t: TracingLevelFilter): nat {
    match t
    case OFF => 0
    case ERROR => 1
    case WARN => 2
    case INFO => 3
    case DEBUG => 4
    case TRACE => 5
  }

  /** The match in `init_log`: each level keeps its verbosity. */
  function ToTracing(l: LogLevelFilter): (t: TracingLevelFilter)
    ensures TracingVerbosity(t) == Verbosity(l)
  {
    match l
    case Off => OFF
    case Error => ERROR
    case Info => INFO
    case Warn => WARN
    case Debug => DEBUG
    case Trace => TRACE
  }

  /** Which `log` level a tracing filter stands for. */
  function FromTracing(t: TracingLevelFilter): (l: LogLevelFilter)
    ensures Verbosity(l) == TracingVerbosity(t)
  {
    match t
    case OFF => Off
    case ERROR => Error
    case WARN => Warn
    case INFO => Info
    case DEBUG => Debug
    case TRACE => Trace
  }

  /** The mapping is one to one: no two levels share a tracing filter. */
  lemma ToTracingInjective(a: LogLevelFilter, b: LogLevelFilter)
    ensures ToTracing(a) == ToTracing(b) ==> a == b
  {
  }

  /** The mapping is onto and `FromTracing` undoes it: every tracing filter is the image of exactly one level. */
  lemma ToTracingRoundTrip(l: LogLevelFilter, t: TracingLevelFilter)
    ensures FromTracing(ToTracing(l)) == l
    ensures ToTracing(FromTracing(t)) == t
  {
  }

  /** The mapping preserves the order of verbosity. */
  lemma ToTracingMonotone(a: LogLevelFilter, b: LogLevelFilter)
    ensures Verbosity(a) <= Verbosity(b) <==> TracingVerbosity(ToTracing(a)) <= TracingVerbosity(ToTracing(b))
  {
  }
}
