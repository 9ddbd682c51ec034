# moonlight-web IPC channel and request-trace helpers, in Dafny

This project models the line-framed message channel that moonlight-web's web server
uses to talk to each streamer process (`moonlight-web/common/src/ipc.rs`). It also
models two pure pieces of the web server (`moonlight-web/web-server/src/main.rs`):
the header redaction applied to traced HTTP requests, and the mapping from the
configured `log` level filter to tracing's level filter.

The channel has two halves:

- **Outbound.** Any number of cloneable sender handles put messages into one bounded
  FIFO queue with room for ten messages. A single pump task takes them out in order.
  For each message it:
  - encodes it to JSON, skipping a message that does not encode;
  - writes the encoding followed by `'\n'`;
  - flushes the stream.
  The first failed write or flush ends the pump. Its end of the queue is then dropped,
  and later sends are dropped: the caller gets no error, only a warning in the log.
- **Inbound.** A receiver reads the peer's stream line by line and decodes each line.
  A read error sets a sticky `errored` flag, and every later `recv` then answers `None`
  without reading. A clean end of stream and an undecodable line each give one `None`
  and leave the flag alone.

The parent-side constructor can also relay the child's stderr, line by line, to the log.

The modules follow the structure of the channel:

| module | file | contents |
|---|---|---|
| `Wrappers` | Wrappers.dfy | `Option` |
| `Framing` | Framing.dfy | newline framing, and the line splitting of tokio's `Lines::next_line` (pure) |
| `Channel` | Channel.dfy | the bounded multi-producer queue (`class Queue`) |
| `Outbound` | Outbound.dfy | the writable stream, the pump task and its specification `DrainSpec`, and the sender handle |
| `Inbound` | Inbound.dfy | the line source, the receiver state machine `RecvStep`, and `class IpcReceiver` |
| `LogRelay` | LogRelay.dfy | the stderr relay loop |
| `Ipc` | Ipc.dfy | `create_child_ipc`, `create_process_ipc`, and the end-to-end delivery lemma |
| `WebServer` | WebServer.dfy | `sanitize_headers`, and the level-filter match of `init_log` |

How the environment is represented:

- JSON encoding and decoding are function parameters:
  - `encode: M -> Option<string>`, where `None` is a serialization error;
  - `decode: string -> Option<M>`, where `None` is a deserialization error.
- A writable stream decides up front which calls fail. The stream counts its
  `write_all` and `flush` calls together, and the call with index k fails exactly when
  k is in its `faults` set.
- A readable stream is the list of results its future `next_line` calls return: a
  line, a clean end of stream, or a read error.

In `IpcReceiver::recv` (ipc.rs:227) a clean end only returns `None` and leaves
`errored` false, so the next call reads again. `RecvStep` and
`EofIsNotFinal` model and state this behaviour of the code.

## Model

All `ipc.rs` paths are `moonlight-web/common/src/ipc.rs` and all `main.rs` paths are `moonlight-web/web-server/src/main.rs`.

| member | source | states |
|---|---|---|
| Framing.LineEnd | moonlight-web/common/src/ipc.rs:225 | the position where `next_line` cuts: no `'\n'` before it, and a `'\n'` at it unless the input has none |
| Framing.Frame | moonlight-web/common/src/ipc.rs:164-166 | the wire of a list of lines: empty exactly when there are no lines, and otherwise ending on the `'\n'` appended to the last one |
| Framing.NextLine | moonlight-web/common/src/ipc.rs:225-227 | one `next_line` call reports the end exactly when no input is left, and otherwise consumes input |
| Framing.StripCr | moonlight-web/common/src/ipc.rs:225 | `next_line` removes at most one character after cutting at `'\n'`, and only a trailing `'\r'` |
| Framing.SplitLines | moonlight-web/common/src/ipc.rs:143 | a line reader over a stream reports the end at once exactly when the stream is empty, and no line it returns holds a `'\n'` |
| Framing.SplitFrame | moonlight-web/common/src/ipc.rs:164-166 | framing round trip: a reader splitting the framed wire gets back exactly the written lines, in order, provided no line holds `'\n'` or ends in `'\r'` |
| Channel.Queue.constructor | moonlight-web/common/src/ipc.rs:84 | a new queue is empty and open, has the given capacity and one sender |
| Channel.Queue.Send | moonlight-web/common/src/ipc.rs:198 | FIFO: an open queue appends the message at the back and reports success; a closed queue refuses it and stays unchanged |
| Channel.Queue.Poll | moonlight-web/common/src/ipc.rs:153 | the consumer gets the oldest message; on an empty queue it gets the end once no sender is left, and otherwise has to wait |
| Channel.Queue.Close | moonlight-web/common/src/ipc.rs:166-174 | dropping the consumer closes the queue and discards the messages still in it |
| Channel.Queue.AddSender | moonlight-web/common/src/ipc.rs:184-191 | cloning a handle adds one live sender |
| Channel.Queue.RemoveSender | moonlight-web/common/src/ipc.rs:179-182 | dropping a handle removes one live sender |
| Outbound.Stream.WriteAll | moonlight-web/common/src/ipc.rs:166 | `write_all` either appends the whole buffer and succeeds, or appends nothing and fails; the call is recorded |
| Outbound.Stream.Flush | moonlight-web/common/src/ipc.rs:171 | a flush succeeds or fails according to the stream's faults; the call is recorded |
| Outbound.Encodable | moonlight-web/common/src/ipc.rs:154-160 | the messages the pump writes are a selection of the queued ones, no more of them, each one encodable |
| Outbound.EncodableKeepsEncoded | moonlight-web/common/src/ipc.rs:154-160 | skipping unencodable messages keeps every encodable message as often as it was queued, and drops every other |
| Outbound.EncodedLines | moonlight-web/common/src/ipc.rs:154-164 | at most one line per queued message |
| Outbound.EncodedLinesAt | moonlight-web/common/src/ipc.rs:154-160 | the k-th line written is the encoding of the k-th message that could be encoded |
| Outbound.Step | moonlight-web/common/src/ipc.rs:154-174 | one loop turn takes exactly one message; a message that does not encode makes no call, and an encodable one makes a write of its encoding and a `'\n'` and, when that write succeeds, a flush; the turn fails exactly when its write or its flush fails, and a turn that does not fail writes that line (nothing for a message that does not encode) |
| Outbound.DrainSpec | moonlight-web/common/src/ipc.rs:153-175 | a run takes every queued message unless it stops on a failure; it stops only after taking a message and making a call |
| Outbound.Delivered | moonlight-web/common/src/ipc.rs:166-174 | the messages of a run that reached the wire: every one taken when the run did not fail, and otherwise every one taken except at most the one whose write failed |
| Outbound.DrainFramesDelivered | moonlight-web/common/src/ipc.rs:153-175 | whatever fails, the wire is exactly the framing of the encodings of the delivered messages, in queue order; after a failure that covers the messages before the failing one, plus that one's line when its write succeeded and its flush failed; nothing queued behind it is ever written |
| Outbound.DrainWireComplete | moonlight-web/common/src/ipc.rs:153-175 | a run that does not fail writes each encodable message's encoding followed by `'\n'`, in queue order |
| Outbound.DrainCalls | moonlight-web/common/src/ipc.rs:166-174 | the calls of a run are successful write-and-flush pairs, ending, exactly when the run failed, in a failed write or in a successful write followed by a failed flush |
| Outbound.DisciplineCallByCall | moonlight-web/common/src/ipc.rs:166-174 | call by call: every successful write is followed at once by a flush, every flush follows a successful write, every call but the last succeeds, and the run failed exactly when its last call failed |
| Outbound.DrainSkipsUnencodable | moonlight-web/common/src/ipc.rs:154-160 | an encode failure leaves no trace: the run writes and calls exactly as if only the encodable messages had been queued |
| Outbound.DrainNoFaults | moonlight-web/common/src/ipc.rs:153-175 | on a stream that does not fail, the run takes every message, makes two calls per encodable message, and writes the framing of all their encodings |
| Outbound.DrainSplits | moonlight-web/common/src/ipc.rs:164-166 | when nothing fails, a reader splitting the wire gets exactly the encodings, in queue order |
| Outbound.PumpTask.constructor | moonlight-web/common/src/ipc.rs:86-92 | the pump task is bound to its stream, its queue and its encoder |
| Outbound.PumpTask.Run | moonlight-web/common/src/ipc.rs:146-176 | the `ipc_sender` loop: the stream gains exactly what `DrainSpec` prescribes for the queued messages; the task waits when the queue is empty and senders remain, finishes when none remain, and fails on a failed call; the queue is closed exactly when the task has returned |
| Outbound.PumpTask.Forward | moonlight-web/common/src/ipc.rs:154-174 | one loop turn on the real stream does what `Step` prescribes, and the loop continues exactly when the turn did not fail |
| Outbound.IpcSender.constructor | moonlight-web/common/src/ipc.rs:94-98 | a handle on the given queue |
| Outbound.IpcSender.Send | moonlight-web/common/src/ipc.rs:197-201 | the message is appended to the open queue, or dropped when the queue is closed; nothing is reported back |
| Outbound.IpcSender.BlockingSend | moonlight-web/common/src/ipc.rs:202-206 | the same outcome as `send` |
| Outbound.IpcSender.Clone | moonlight-web/common/src/ipc.rs:184-191 | a new handle on the same queue, with one more live sender |
| Outbound.IpcSender.Drop | moonlight-web/common/src/ipc.rs:179-182 | dropping a handle leaves one live sender fewer |
| Inbound.LineSource.constructor | moonlight-web/common/src/ipc.rs:140-144 | a line reader over a stream whose future reads are given |
| Inbound.LineSource.NextLine | moonlight-web/common/src/ipc.rs:225 | each call returns the next read result and consumes it; an exhausted stream keeps answering end of stream |
| Inbound.LinesReadInTurn | moonlight-web/common/src/ipc.rs:225 | successive `next_line` calls on a stream of lines return each line in turn, and then the end of the stream for good |
| Inbound.RecvStep | moonlight-web/common/src/ipc.rs:220-247 | an errored receiver answers `None` and reads nothing; a live one consumes exactly one read; the flag is set exactly by a read error and never cleared; a live receiver that reads a line answers its decoding, and every other call answers `None` |
| Inbound.RecvRun | moonlight-web/common/src/ipc.rs:220-247 | `k` successive `recv` calls give one answer each |
| Inbound.IpcReceiver.constructor | moonlight-web/common/src/ipc.rs:99-104 | a new receiver starts not errored, on the given reader |
| Inbound.IpcReceiver.Recv | moonlight-web/common/src/ipc.rs:220-247 | `recv` returns and updates its flag and reader exactly as `RecvStep` prescribes, and leaves the reader untouched once errored |
| Inbound.ErroredStaysSilent | moonlight-web/common/src/ipc.rs:221-223 | once errored, every later `recv` answers `None` |
| Inbound.ReadErrorIsFinal | moonlight-web/common/src/ipc.rs:228-233 | a read error ends the receiver: that call and all later ones answer `None`, whatever the stream would still deliver |
| Inbound.EofIsNotFinal | moonlight-web/common/src/ipc.rs:227 | a clean end of stream costs one `None` and leaves the receiver reading |
| Inbound.DecodeFailureSkipsLine | moonlight-web/common/src/ipc.rs:239-245 | an undecodable line costs one `None`, consumes exactly that line and leaves the flag unchanged |
| Inbound.LinesDecodeInOrder | moonlight-web/common/src/ipc.rs:225-246 | over a stream of lines, the k-th `recv` answers the decoding of the k-th line |
| LogRelay.LogSink.Info | moonlight-web/common/src/ipc.rs:79 | each forwarded line is appended to the log |
| LogRelay.Forwarded | moonlight-web/common/src/ipc.rs:78-80 | the forwarded lines are exactly the reads before the first one that is not a line, in order |
| LogRelay.RelayStderr | moonlight-web/common/src/ipc.rs:74-81 | the relay loop logs each of those lines once, in order, and stops after consuming the first end of stream or read error |
| Ipc.Connect | moonlight-web/common/src/ipc.rs:84-105 | a fresh open queue of capacity 10 with one sender, shared by the sender handle and the pump; a fresh receiver that is not errored |
| Ipc.CreateChildIpc | moonlight-web/common/src/ipc.rs:60-106 | the parent side writes to the child's stdin and reads its stdout; with a stderr given, its lines are relayed to the log |
| Ipc.CreateProcessIpc | moonlight-web/common/src/ipc.rs:108-139 | the child side writes to its own stdout and reads its own stdin, with a queue of capacity 10 |
| Ipc.ChannelDeliversInOrder | moonlight-web/common/src/ipc.rs:146-247 | end to end: when the encoder emits single lines and decoding inverts encoding, a receiver reading the wire of any pump run answers, one call per line, exactly the delivered encodable messages in queue order, even when the run stopped on a failure |
| WebServer.ValueToStr | moonlight-web/web-server/src/main.rs:194 | `to_str` succeeds exactly when every byte is visible ASCII or a tab, and then returns those characters unchanged |
| WebServer.ToAsciiLowercase | moonlight-web/web-server/src/main.rs:191 | `to_ascii_lowercase` keeps the text up to ASCII case and leaves no upper-case ASCII letter |
| WebServer.SanitizeHeader | moonlight-web/web-server/src/main.rs:188-198 | the entry of one header keeps its name, and shows `"<redacted>"` for a sensitive name, `"<binary>"` for a value that is not visible ASCII, and the value otherwise |
| WebServer.SanitizeHeaders | moonlight-web/web-server/src/main.rs:183-200 | one entry per header, in iteration order, under the header's own name; a sensitive header gets `"<redacted>"`, an unconvertible value gets `"<binary>"`, and any other value is copied |
| WebServer.LowercaseMatch | moonlight-web/web-server/src/main.rs:191 | comparing the lowercased name with a lowercase constant is comparison ignoring ASCII case |
| WebServer.IsSensitive | moonlight-web/web-server/src/main.rs:184-191 | a name is sensitive exactly when it equals `authorization`, `cookie` or `set-cookie`, ignoring ASCII case |
| WebServer.SensitivityIgnoresCase | moonlight-web/web-server/src/main.rs:191 | two names that differ only in ASCII case are both redacted or both not |
| WebServer.RedactionHidesSensitiveValues | moonlight-web/web-server/src/main.rs:186-199 | header lists that differ only in the values of sensitive headers trace identically |
| WebServer.NoSensitiveValueLeaks | moonlight-web/web-server/src/main.rs:191-195 | a sensitive header's text appears as an output value only when it is `"<redacted>"` or `"<binary>"`, or when a non-sensitive header carries the same text |
| WebServer.ToTracing | moonlight-web/web-server/src/main.rs:102-109 | each `log` level maps to the tracing filter of the same verbosity |
| WebServer.FromTracing | moonlight-web/web-server/src/main.rs:102-109 | the reverse mapping also keeps the verbosity |
| WebServer.ToTracingInjective | moonlight-web/web-server/src/main.rs:102-109 | no two levels map to the same tracing filter |
| WebServer.ToTracingRoundTrip | moonlight-web/web-server/src/main.rs:102-109 | the mapping is a bijection: `FromTracing` undoes it, and every tracing filter is hit |
| WebServer.ToTracingMonotone | moonlight-web/web-server/src/main.rs:102-109 | the mapping preserves and reflects the order of verbosity |

## Left out

- Asynchronous scheduling. Task spawning, suspension and waking are not modelled.
  - A send on a full queue waits in the code. The model makes room in the queue (or a closed queue) a precondition of `Send`, `BlockingSend` and `Queue.Send`.
  - The pump's waiting on an empty queue is the `Suspended` result of `PumpTask.Run`. A later call continues the loop.
- The stderr relay runs as its own task in the code. `CreateChildIpc` runs it to completion before returning, so the model does not capture how the relay interleaves with the channel.
- Partial writes: a failed `write_all` may already have written part of its buffer. `Outbound.Stream.WriteAll` assumes a failed call writes nothing.
- serde_json and the message types (`ServerIpcMessage`, `StreamerIpcMessage` and their payloads). Encoding and decoding are abstract parameters. The end-to-end lemma assumes encodings hold no `'\n'`, do not end in `'\r'`, and decode back to the original message.
- Invalid UTF-8 on a read stream: `next_line` reports it as a read error. The model has no bytes on the read side, so it is one more cause of `ReadError`.
- Logging side effects of `warn!` and `trace!`, and span bookkeeping. Only the relay's forwarded lines are modelled, as `LogSink.entries`.
- `HeaderMap` details: a header with several values appears once per value in iteration order; the model takes the list as the iterator yields it. Header-name validity and lowercasing by the HTTP library are not modelled; the model lowercases every name itself, as `sanitize_headers` does.
- The rest of `main.rs` is library plumbing and I/O:
  - reading and writing the config file;
  - the HTTP server and its TLS setup;
  - the env-filter and subscriber wiring of `init_log`;
  - the Windows console call.
- `moonlight-client-simple/src/gstreamer.rs` is not part of this model: it builds a GStreamer pipeline and calls into that library.
