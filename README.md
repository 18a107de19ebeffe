# Minecraft server list ping, modelled in Dafny

A model of a TypeScript client for the Minecraft "Server List Ping". The
client opens a TCP connection and writes a handshake. It reassembles the
server's reply from the data chunks and parses it into a status record
(players, version, description, favicon).

There are two wire formats, called strategies:

- **The current strategy** (`CurrentPingStrategy`): varint-framed packets.
  - The handshake carries protocol, host, big-endian port and next state 1.
  - An empty status request follows it.
  - The reply is JSON, found at an offset computed from the response length.
- **The legacy strategy** (`LegacyPingStrategy`): the three bytes FE 01 FA.
  - The reply is UTF-16LE text after a 4-byte header.
  - The extended reply is "\u00A71"-marked and NUL-separated.
  - The simple reply is "MOTD§online§max".

`PingContext` holds a strategy and a timeout. On each `ping` it turns the
socket's events ('connect', 'data', 'timeout', 'error', 'close') into the
outcome of the observable it returns. The earlier single-file revision builds
the same packets inline with a filled port and maps the events more plainly;
`src/index.ts` is modelled as well.

Modules, one per source concept:

| file | module | models |
|---|---|---|
| wrappers.dfy | `Wrappers` | `Option`, `Result` |
| js.dfy | `Js` | bytes, UTF-16 code units, JS numbers (an integer or NaN), `Buffer.concat` |
| errors.dfy | `Errors` | the errors a ping can end with |
| varint.dfy | `Varint` | the `varint` package: `encode`, `encodingLength`, and a reader |
| jstext.dfy | `JsText` | `Buffer.from(string)` (UTF-8), `toString('utf16le')`, `split`, `parseInt(s, 10)` |
| ping_response.dfy | `PingResponse` | the response records and the JSON decoder |
| current_ping_strategy.dfy | `CurrentPing` | `CurrentPingStrategy` |
| legacy_ping_strategy.dfy | `LegacyPing` | `LegacyPingStrategy` |
| ping_strategy.dfy | `PingStrategy` | the abstract `PingStrategy`, dispatching to the two |
| socket.dfy | `Socket` | socket events, calls on the socket, observable outcomes |
| ping_context.dfy | `PingSession` | `PingContext`, as a class over those events |
| index.dfy | `SingleFilePing` | `ping` of `src/index.ts` |

The socket is a sequence of events, so the listeners become one function,
`Run`, folded over that sequence. Each `Ping` method runs the same listeners
as a loop over local state, the way the source keeps it in closures. The
method is proved equal to `Run`, and the lemmas state what `Run` does for
each way a ping can end.

Notes on what the code does:

- No strategy falls back to another. A ping uses the context's strategy
  only. That strategy is installed lazily as the current strategy for the
  first host pinged and kept for every later ping.
- The current strategy's `parse` skips `2 * encodingLength(response.length) + 1`
  bytes, an offset computed from the response length alone. The header it is
  meant to skip is the frame-length varint, the packet id 0 (always one byte)
  and the JSON-length varint.
  - `CurrentPing.OffsetExactIff` proves the offset is that header exactly when
    three varints have the same width: the varint of the whole response
    length, the frame-length prefix and the JSON-length prefix.
  - `CurrentPing.OffsetPayload` gives the bytes lost in every other case.
  - `CurrentPing.OffsetMatchesFraming` proves the JSON is found exactly for
    lengths up to 124, from 128 to 16378 and from 16384 to 2097144.
  - `CurrentPing.OffsetMisframes` proves the JSON loses its first one or two
    bytes for lengths 125 to 127 and 16379 to 16383. A reply carrying a
    favicon can reach the second range.
- The legacy strategy tests only for a leading "\u00A71". A simple reply with an
  empty MOTD and a player count starting with 1 is read as the extended format
  (`LegacyPing.EmptyMotdReadAsExtended`).
- `src/index.ts` fills the two port bytes with the port's low byte. A server
  reads port 257 × (port mod 256). The default port 25565 is read as 56797.
- `src/index.ts` completes without a value when the socket closes before any
  data, where `PingContext` errors with "Socket has not received data".

## Model

| member | source | states |
|---|---|---|
| Varint.Encode | src/ping/current-ping-strategy.ts:41-42 | a varint is at least one byte; every byte but the last has the continuation bit; the last has not and, for a nonzero value, is not zero |
| Varint.EncodingLength | src/ping/current-ping-strategy.ts:34 | encodingLength is the least k of at least 1 with n below 128 to the k; `EncodingLengthIsSize` proves it the length of the encoding |
| Varint.DecodeEncode | src/ping/current-ping-strategy.ts:41-42 | reading a varint back from the encoding of n, whatever follows it, gives n and the encoding's length |
| Varint.EncodingLengthIsSize | src/ping/current-ping-strategy.ts:34 | encodingLength is the length of the encoding |
| Varint.EncodingLengthBetween | src/ping/current-ping-strategy.ts:34 | n from 128^(k-1) to below 128^k has an encoding of exactly k bytes |
| JsText.Utf8 | src/ping/current-ping-strategy.ts:23 | `Buffer.from(host)` takes at least one and at most three bytes per code unit; `Utf8LengthIsUnitCount` and `AsciiUtf8` state when it is byte for byte |
| JsText.Utf8LengthIsUnitCount | src/ping/current-ping-strategy.ts:22-23 | the UTF-8 bytes of the host number as many as its code units exactly when the host is ASCII, so the length prefix counts the host bytes only then |
| JsText.AsciiUtf8 | src/ping/current-ping-strategy.ts:23 | an ASCII host is sent as its own code units |
| JsText.DecodeUtf16Le | src/ping/legacy-ping-strategy.ts:10 | `toString('utf16le')` gives one unit per two bytes, an odd trailing byte dropped; `Utf16LeUnit` and `Utf16LeRoundTrip` state which units |
| JsText.Utf16LeUnit | src/ping/legacy-ping-strategy.ts:10 | unit i is the little-endian value of bytes 2i and 2i + 1 |
| JsText.Utf16LeRoundTrip | src/ping/legacy-ping-strategy.ts:10 | UTF-16LE decoding inverts encoding and drops one trailing odd byte |
| JsText.Split | src/ping/legacy-ping-strategy.ts:13 | `split` always gives at least one piece; `JoinSplit`, `SplitPiecesFree` and `SplitJoin` relate it to `join` |
| JsText.SplitPiecesFree | src/ping/legacy-ping-strategy.ts:28 | no piece of a split contains the separator |
| JsText.JoinSplit | src/ping/legacy-ping-strategy.ts:13 | joining the pieces of a split with the separator gives back the text |
| JsText.SplitJoin | src/ping/legacy-ping-strategy.ts:28 | splitting a join of separator-free pieces gives back the pieces |
| JsText.SplitFree | src/ping/legacy-ping-strategy.ts:13 | a text without the separator splits into itself alone |
| JsText.ParseInt | src/ping/legacy-ping-strategy.ts:18-22 | `parseInt(s, 10)` is negative only after a minus sign, and a text starting with a digit is a non-negative number; the lemmas below give the value |
| JsText.ParseIntShow | src/ping/legacy-ping-strategy.ts:18-22 | parseInt reads the decimal digits of n, stopping at the first non-digit, as n |
| JsText.ParseIntDigits | src/ping/legacy-ping-strategy.ts:18-22 | any run of decimal digits, leading zeros included, followed by a non-digit reads as the digits' value |
| JsText.ParseIntPlus | src/ping/legacy-ping-strategy.ts:18-22 | a leading plus sign is dropped and the digits after it read as their value |
| JsText.ParseIntNegative | src/ping/legacy-ping-strategy.ts:18-22 | a leading minus sign negates the value read |
| JsText.ParseIntSkipsWhiteSpace | src/ping/legacy-ping-strategy.ts:18-22 | leading white space and line terminators do not change the value read |
| JsText.ParseIntNaN | src/ping/legacy-ping-strategy.ts:33-34 | a text starting with neither white space, sign nor digit reads as NaN |
| JsText.ParseIntUndefined | src/ping/legacy-ping-strategy.ts:33-34 | a missing field, read as "undefined", is NaN |
| CurrentPing.CreatePacket | src/ping/current-ping-strategy.ts:39-45 | a packet has at least two header bytes and ends with its payload; `PacketFraming` proves a server reads it back |
| CurrentPing.ReadFramed | src/ping/current-ping-strategy.ts:41 | a body behind its own varint length is read back whole, with what follows left over |
| CurrentPing.PacketFraming | src/ping/current-ping-strategy.ts:39-45 | a server reading a created packet, whatever follows it, gets back its id and payload and stops at its end |
| CurrentPing.PacketZeroLength | src/ping/current-ping-strategy.ts:39-45 | a packet with id 0 is the varint of 1 + the payload length, the byte 00 and the payload, and announces that length |
| CurrentPing.StatusRequestBytes | src/ping/current-ping-strategy.ts:28 | the status request is the two bytes 01 00, an empty packet 0 |
| CurrentPing.WriteUInt16BE | src/ping/current-ping-strategy.ts:17-18 | a port in 0..65535 is written most significant byte first; any other value is refused and leaves the buffer as it was |
| CurrentPing.HandshakePacket | src/ping/current-ping-strategy.ts:16-31 | the handshake fails exactly when the port is outside 0..65535, with the range error, and otherwise ends with the status request; `HandshakeRoundTrip` reads the rest back |
| CurrentPing.CreateHandshakePacket | src/ping/current-ping-strategy.ts:16-31 | the bytes written are the handshake packet then the status request, or the port's range error |
| CurrentPing.HandshakeRoundTrip | src/ping/current-ping-strategy.ts:16-31 | for an ASCII host and a port in range, a server reads packet 0 with the protocol, the host, the port and next state 1, followed by the status request |
| CurrentPing.JsonPayload | src/ping/current-ping-strategy.ts:34 | the bytes handed to the decoder are a suffix of the response, at least three bytes shorter unless empty |
| CurrentPing.Parse | src/ping/current-ping-strategy.ts:33-37 | `parse` gives what the decoder makes of the payload after the offset, and fails only when the decoder does, with the JSON error |
| CurrentPing.ShortResponsePayload | src/ping/current-ping-strategy.ts:34 | a response under 128 bytes has its first 3 bytes skipped, or is empty when shorter |
| CurrentPing.StatusResponseLayout | src/ping/current-ping-strategy.ts:34 | a status response is the frame-length prefix, packet id 0, the JSON length prefix and the JSON, and the frame length counts the last three |
| CurrentPing.OffsetPayload | src/ping/current-ping-strategy.ts:33-37 | for any JSON text the offset exceeds the header by twice the response length's varint width less the frame-length and JSON-length widths, and the decoder is handed the JSON less that many leading bytes, or nothing |
| CurrentPing.OffsetExactIff | src/ping/current-ping-strategy.ts:33-37 | the decoder is handed exactly the JSON if and only if the response-length, frame-length and JSON-length varints have the same width |
| CurrentPing.OffsetMatchesFraming | src/ping/current-ping-strategy.ts:33-37 | for JSON of up to 124 bytes, 128 to 16378 or 16384 to 2097144, the bytes handed to JSON.parse are exactly the JSON |
| CurrentPing.OffsetMisframes | src/ping/current-ping-strategy.ts:33-37 | for JSON of 125 to 127 or 16379 to 16383 bytes the first byte or two of the JSON are cut off |
| LegacyPing.Parse | src/ping/legacy-ping-strategy.ts:9-37 | a legacy reply never has a favicon or a player sample, and a reply without the marker has a MOTD and no version; the lemmas below give each field |
| LegacyPing.IgnoresHeader | src/ping/legacy-ping-strategy.ts:10 | the first 4 bytes never affect the result |
| LegacyPing.ExtendedIffMarker | src/ping/legacy-ping-strategy.ts:12 | a version is reported exactly when the text starts with the units of "\u00A71" |
| LegacyPing.ExtendedFields | src/ping/legacy-ping-strategy.ts:12-26 | in the extended format the NUL-separated fields after the marker are protocol, version name, MOTD, online and max, later ones ignored |
| LegacyPing.SimpleFields | src/ping/legacy-ping-strategy.ts:28-36 | in the simple format the '§'-separated pieces are MOTD, online and max, and no version is reported |
| LegacyPing.NumberFieldShow | src/ping/legacy-ping-strategy.ts:18-22 | a field holding the decimal digits of n reads as n |
| LegacyPing.MissingNumberIsNaN | src/ping/legacy-ping-strategy.ts:21-22 | a missing numeric field becomes NaN rather than an error |
| LegacyPing.EmptyMotdReadAsExtended | src/ping/legacy-ping-strategy.ts:12-13 | "\u00A712\u00A720" is taken as extended and every field comes out NaN or missing |
| LegacyPing.ExtendedExample | src/ping/legacy-ping-strategy.ts:12-26 | the extended reply for protocol 61, version "1.8", MOTD "A MOTD", 5 of 20 reads back as those values |
| LegacyPing.SimpleExample | src/ping/legacy-ping-strategy.ts:28-36 | "A MOTD\u00A73\u00A720" reads back as MOTD "A MOTD", 3 of 20, no version |
| PingStrategy.HandshakeOf | src/ping/ping-strategy.ts:4 | building a handshake fails exactly for a current strategy whose port is outside 0..65535, with the range error |
| PingStrategy.ParseWith | src/ping/ping-strategy.ts:5 | the legacy strategy's parse never fails, and the current one's fails only with the JSON error |
| PingStrategy.CreateHandshakePacket | src/ping/ping-strategy.ts:4 | a strategy's handshake is the current one's packets or the legacy bytes |
| PingStrategy.LegacyHandshakeBytes | src/ping/legacy-ping-strategy.ts:5-7 | the legacy handshake is FE 01 FA, which never reads as a complete varint-framed packet |
| PingSession.PingContext.constructor | src/ping/ping-context.ts:11-14 | the context holds the strategy and timeout given |
| PingSession.PingContext.SetStrategy | src/ping/ping-context.ts:58-61 | replaces the strategy only and returns the same context |
| PingSession.PingContext.SetTimeout | src/ping/ping-context.ts:63-66 | replaces the timeout only and returns the same context |
| PingSession.PingContext.Ping | src/ping/ping-context.ts:16-56 | installs the current strategy for this host and port when none is set, otherwise keeps the one set; leaves the timeout; ends and acts on the socket as the listeners do |
| PingSession.PingTwice | src/ping/ping-context.ts:20 | the strategy installed by a first ping is kept on a later ping to another host |
| PingSession.PingWithStrategy | src/ping/ping-context.ts:20 | a strategy set before pinging is the one used, whatever the host |
| PingSession.OnClose | src/ping/ping-context.ts:37-42 | a close always ends the ping, with a value only on a clean close after data, and that value is the parse of every chunk concatenated |
| PingSession.OnEvent | src/ping/ping-context.ts:30-47 | only the timeout listener marks the socket timed out, and nothing clears the mark |
| PingSession.Run | src/ping/ping-context.ts:30-54 | once the ping has ended no event changes anything, and a connected socket stays connected; the lemmas below state what each way of ending gives |
| PingSession.RunThrough | src/ping/ping-context.ts:30-47 | after connects, data and errors the later events continue from the state those left |
| PingSession.RunThroughPending | src/ping/ping-context.ts:30-47 | connects, data and errors never end the ping while the handshake builds, and never fire the timeout |
| PingSession.RunThroughChunks | src/ping/ping-context.ts:44-53 | the accumulated response is every chunk, in arrival order |
| PingSession.RunThroughEffects | src/ping/ping-context.ts:30-43 | only the first error is captured, and the handshake is written on the first connect |
| PingSession.CloseEnds | src/ping/ping-context.ts:37-42 | a close ends a pending ping as the 'close' listener says, whatever follows |
| PingSession.CleanCloseParsesAllChunks | src/ping/ping-context.ts:37-54 | a clean close after data gives the strategy's parse of all chunks concatenated in order, or its error |
| PingSession.CleanCloseWithoutData | src/ping/ping-context.ts:39-41 | a clean close with no byte read is the "no data" error, whatever the decoder |
| PingSession.ErrorCloseSurfacesCapturedError | src/ping/ping-context.ts:37-38 | an error close ends with the first captured error, or undefined when none came |
| PingSession.TimeoutSurfacesAsError | src/ping/ping-context.ts:34-36 | a timeout destroys the socket with "Socket timeout" and the ping ends with that error; when an earlier error was captured the model ends with that one; this case does not arise on a real socket, since every 'error' comes from a `destroy`, which clears the socket's timer, so the outcome there is the model's own choice |
| PingSession.HandshakeWrittenOnce | src/ping/ping-context.ts:30-33 | the strategy's handshake is the one and only write |
| PingSession.HandshakeFailureCrashes | src/ping/ping-context.ts:30-33 | a handshake that throws escapes the connect listener and nothing is written |
| PingSession.EveryChunkEnded | src/ping/ping-context.ts:44-47 | every chunk passed on is followed by one end() call |
| SingleFilePing.Options | src/index.ts:64-74 | an omitted port is 25565 and an omitted timeout 3600; given ones are used as they are |
| SingleFilePing.FilledPort | src/index.ts:84 | the two port bytes are the big-endian bytes of 257 times the port's low byte |
| SingleFilePing.FilledPortIsNotBigEndian | src/index.ts:84 | the filled bytes equal the port's own big-endian bytes exactly when the port is a multiple of 257 |
| SingleFilePing.DefaultPortMisencoded | src/index.ts:6 | the default port goes out as DD DD instead of 63 DD, read as 56797 |
| SingleFilePing.HandshakePacket | src/index.ts:76-90 | the bytes written on connect end with the status request; `HandshakeReadBack` reads the handshake before it |
| SingleFilePing.HandshakeReadBack | src/index.ts:75-91 | a server reads packet 0 with the protocol, the ASCII host, port 257 times the low byte and next state 1, then the status request |
| SingleFilePing.OnClose | src/index.ts:96-98 | a close always ends the ping, never by a throw, and completes without a value exactly when no chunk came |
| SingleFilePing.Run | src/index.ts:92-117 | once the ping has ended no event changes anything, and a connected socket stays connected; the lemmas below state what each event gives |
| SingleFilePing.Ping | src/index.ts:64-118 | connects with the defaulted options and ends and acts on the socket as the listeners do |
| SingleFilePing.RunThrough | src/index.ts:75-105 | after connects and data the later events continue from the state those left |
| SingleFilePing.RunThroughState | src/index.ts:102-112 | connects and data never end the ping, and the accumulated response is every chunk in arrival order |
| SingleFilePing.RunThroughWrites | src/index.ts:75-91 | the handshake is written on the first connect only |
| SingleFilePing.CloseWithoutDataCompletes | src/index.ts:96-98 | a close before any data completes without a value, error close or not |
| SingleFilePing.CloseParsesFinalBuffer | src/index.ts:111-117 | a close after data parses all chunks concatenated, at the same offset as the current strategy |
| SingleFilePing.ErrorForwarded | src/index.ts:99-101 | a socket error ends the ping with that error |
| SingleFilePing.TimeoutErrors | src/index.ts:92-95 | a timeout destroys the socket without an error and ends with "Socket timeout" |
| SingleFilePing.HandshakeWrittenOnce | src/index.ts:75-91 | the handshake is the one and only write |

## Left out

- Sockets, timers and rxjs scheduling are not modelled. A socket is the
  sequence of events its listeners receive. The timeout value is handed to the
  socket and never read.
- Events after the observable has ended are not modelled. Node never destroys
  a socket on 'timeout' by itself; the listeners do. In `PingContext`,
  `destroy(new Error('Socket timeout'))` is followed by one 'error' event with
  that error and then an error 'close', which is what `PingSession.Run` feeds
  to the listeners after a first timeout. In `src/index.ts`, `destroy()` comes
  with `sub.error`, which ends the observable.
- The teardown `connection.destroy()` run on unsubscribe is not modelled.
- A second 'error' event after the one-shot error listener has run is not
  modelled. Node would throw it as an unhandled error.
- A strategy changed with `setStrategy` while a ping is in flight is not
  modelled. The source reads the context's strategy again at connect time and
  at parse time; the model uses the strategy in place when `ping` starts.
- `JSON.parse(payload.toString())` is a parameter of the model, `JsonDecoder`.
  Its failure is the `InvalidJson` error. No JSON grammar is modelled.
- Varint.Encode: the `varint` package's handling of negative numbers and of
  values too large for an exact JS number is not modelled. Every encoded value
  here is a natural number.
- SingleFilePing.HandshakePacket: the bytes of `encode(-1)` are a parameter,
  since they depend on the `varint` package's handling of negatives.
- The defaults of `src/ping/constants.ts` are not modelled; that file is not
  part of this model. `DEFAULT_PROTOCOL` is the `defaultProtocol` parameter of
  `PingContext.Ping`. The port and the timeout are always given.
- `connect`'s own validation of the host and port is not modelled.
- Numbers are integers or NaN. Ports are integers; a fractional port, which
  `writeUInt16BE` would write truncated without an error when it is in range,
  is not modelled.
- JsText.ParseIntShow: the value is the exact integer for every n; JavaScript
  rounds a `parseInt` result above 2^53 to the nearest double, which is not
  modelled.
- JsText.ParseIntNegative: "-0" reads as the integer 0 here; JavaScript gives
  the number -0, which is not modelled.
- `src/util.ts`, address parsing and SRV lookup are not part of this model.
- The `IPingResponse` record (`host`, `port`, `ip`) is declared. No operation
  in these files builds it.
