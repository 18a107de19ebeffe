/** `CurrentPingStrategy`: the varint-framed status protocol. */
module CurrentPing {
  import opened Wrappers
  import opened Js
  import opened Errors
  import opened Varint
  import opened JsText
  import opened PingResponse

  /** Protocol state 1, "status", sent as the handshake's next state. */
  const NEXT_STATE_STATUS: nat := 1

  /** `createPacket(packetId, payload)`: a length prefix counting the packet id and
      the payload, the packet id, the payload. The payload ends the packet, behind
      at least two header bytes. */
  function CreatePacket(packetId: nat, payload: seq<byte>): (r: seq<byte>)
    ensures |r| >= |payload| + 2
    ensures r[|r| - |payload|..] == payload
  {
    Encode(EncodingLength(packetId) + |payload|) + Encode(packetId) + payload
  }

  /** A packet as a server reads it: the length prefix, then that many bytes
      holding the packet id and the payload; the bytes after the packet are
      returned as they are. */
  function ReadPacket(b: seq<byte>): Option<(nat, seq<byte>, seq<byte>)>
  {
    match Decode(b)
    case None => None
    case Some((length, k)) =>
      if k + length > |b| then None
      else
        var body := b[k..k + length];
        match Decode(body)
        case None => None
        case Some((id, j)) => Some((id, body[j..], b[k + length..]))
  }

  /** A body behind its own length prefix is read back whole, and the bytes after
      it are left over. */
  lemma ReadFramed(body: seq<byte>, rest: seq<byte>, id: nat, j: nat)
    requires Decode(body) == Some((id, j))
    ensures ReadPacket(Encode(|body|) + body + rest) == Some((id, body[j..], rest))
  {
    var b := Encode(|body|) + body + rest;
    assert b == Encode(|body|) + (body + rest);
    DecodeEncode(|body|, body + rest);
    var k := |Encode(|body|)|;
    assert b[k..k + |body|] == body;
    assert b[k + |body|..] == rest;
  }

  /** The framing is what a server expects: reading a created packet gives back its
      id and payload and stops at its end. */
  lemma PacketFraming(packetId: nat, payload: seq<byte>, rest: seq<byte>)
    ensures ReadPacket(CreatePacket(packetId, payload) + rest) == Some((packetId, payload, rest))
  {
    EncodingLengthIsSize(packetId);
    var body := Encode(packetId) + payload;
    assert CreatePacket(packetId, payload) == Encode(|body|) + body;
    DecodeEncode(packetId, payload);
    ReadFramed(body, rest, packetId, |Encode(packetId)|);
    assert body[|Encode(packetId)|..] == payload;
  }

  /** A packet with id 0 is its length 1 + the payload length, the byte 00 and
      the payload, and announces that length. */
  lemma PacketZeroLength(payload: seq<byte>)
    ensures CreatePacket(0, payload) == Encode(1 + |payload|) + [0] + payload
    ensures Decode(CreatePacket(0, payload)) == Some((1 + |payload|, |Encode(1 + |payload|)|))
  {
    assert Encode(0) == [0];
    assert EncodingLength(0) == 1;
    DecodeEncode(1 + |payload|, Encode(0) + payload);
    assert CreatePacket(0, payload) == Encode(1 + |payload|) + (Encode(0) + payload);
  }

  /** The status request, an empty packet 0, is the two bytes 01 00. */
  const STATUS_REQUEST: seq<byte> := [0x01, 0x00]

  lemma StatusRequestBytes()
    ensures CreatePacket(0, []) == STATUS_REQUEST
    ensures ReadPacket(STATUS_REQUEST) == Some((0, [], []))
  {
    assert Encode(0) == [0];
    assert EncodingLength(0) == 1;
    assert Encode(1) == [1];
    PacketFraming(0, [], []);
  }

  /** A 16-bit value, most significant byte first. */
  function BigEndian(value: int): seq<byte>
    requires 0 <= value < 0x1_0000
  {
    [value / 0x100, value % 0x100]
  }

  /** `Buffer.alloc(2)` followed by `writeUInt16BE(port)`: the port's two bytes,
      or the RangeError the write throws for a value outside 0..65535. */
  function EncodedPort(port: int): Result<seq<byte>, Error>
  {
    if 0 <= port < 0x1_0000 then Ok(BigEndian(port)) else Err(PortOutOfRange)
  }

  /** `buf.writeUInt16BE(value)` into a buffer of two bytes. */
  method WriteUInt16BE(buf: array<byte>, value: int) returns (ok: bool)
    requires buf.Length == 2
    modifies buf
    ensures ok == (0 <= value < 0x1_0000)
    ensures ok ==> buf[..] == BigEndian(value)
    ensures !ok ==> buf[..] == old(buf[..])
  {
    if value < 0 || value >= 0x1_0000 {
      return false;
    }
    buf[0] := value / 0x100;
    buf[1] := value % 0x100;
    return true;
  }

  /** The handshake payload: protocol version, host length in code units, host as
      UTF-8, port big-endian, next state. */
  function HandshakePayload(host: JsString, port: int, protocol: nat): Result<seq<byte>, Error>
  {
    match EncodedPort(port)
    case Err(e) => Err(e)
    case Ok(p) => Ok(Encode(protocol) + Encode(|host|) + Utf8(host) + p + Encode(NEXT_STATE_STATUS))
  }

  /** `createHandshakePacket()`: the handshake packet followed by the status request.
      It throws exactly when the port is outside 0..65535, with the range error. */
  function HandshakePacket(host: JsString, port: int, protocol: nat): (r: Result<seq<byte>, Error>)
    ensures r.Err? <==> !(0 <= port < 0x1_0000)
    ensures r.Err? ==> r.error == PortOutOfRange
    ensures r.Ok? ==> |r.value| >= 2 && r.value[|r.value| - 2..] == STATUS_REQUEST
  {
    match HandshakePayload(host, port, protocol)
    case Err(e) => Err(e)
    case Ok(p) => StatusRequestBytes(); Ok(CreatePacket(0, p) + CreatePacket(0, []))
  }

  /** `createHandshakePacket()` as the source runs it, filling a fresh two-byte
      buffer in place. It depends on the strategy's host, port and protocol alone,
      so two calls give the same bytes. */
  method CreateHandshakePacket(host: JsString, port: int, protocol: nat) returns (r: Result<seq<byte>, Error>)
    ensures r == HandshakePacket(host, port, protocol)
  {
    var encodedPort := new byte[2];
    var ok := WriteUInt16BE(encodedPort, port);
    if !ok {
      return Err(PortOutOfRange);
    }
    var payload := Encode(protocol) + Encode(|host|) + Utf8(host) + encodedPort[..] + Encode(NEXT_STATE_STATUS);
    var handshake := CreatePacket(0, payload);
    var request := CreatePacket(0, []);
    return Ok(handshake + request);
  }

  /** The fields of a handshake payload as a server reads them, the host being
      read as its length prefix says. */
  datatype HandshakeFields = HandshakeFields(protocol: nat, host: seq<byte>, port: nat, nextState: nat)

  function ReadHandshake(p: seq<byte>): Option<HandshakeFields>
  {
    match Decode(p)
    case None => None
    case Some((protocol, k)) => ReadHost(protocol, p[k..])
  }

  /** The host's length prefix and what follows it. */
  function ReadHost(protocol: nat, p: seq<byte>): Option<HandshakeFields>
  {
    match Decode(p)
    case None => None
    case Some((hostLength, k)) => ReadPortAndState(protocol, hostLength, p[k..])
  }

  /** The host bytes, the big-endian port and the next state, which must end the payload. */
  function ReadPortAndState(protocol: nat, hostLength: nat, p: seq<byte>): Option<HandshakeFields>
  {
    if |p| < hostLength + 2 then None
    else
      var port := 0x100 * p[hostLength] as int + p[hostLength + 1] as int;
      var rest := p[hostLength + 2..];
      match Decode(rest)
      case None => None
      case Some((next, k)) =>
        if k != |rest| then None else Some(HandshakeFields(protocol, p[..hostLength], port, next))
  }

  /** The payload fields read back as they were written when the host's length
      prefix is its byte count. */
  lemma ReadPortAndStateOf(protocol: nat, hostBytes: seq<byte>, port: int)
    requires 0 <= port < 0x1_0000
    ensures ReadPortAndState(protocol, |hostBytes|, hostBytes + BigEndian(port) + Encode(NEXT_STATE_STATUS))
      == Some(HandshakeFields(protocol, hostBytes, port, NEXT_STATE_STATUS))
  {
    var tail3 := Encode(NEXT_STATE_STATUS);
    assert tail3 == [1];
    var p := hostBytes + BigEndian(port) + tail3;
    assert p[..|hostBytes|] == hostBytes;
    assert p[|hostBytes|] == port / 0x100 && p[|hostBytes| + 1] == port % 0x100;
    assert p[|hostBytes| + 2..] == [1];
  }

  lemma ReadHostOf(protocol: nat, hostLength: nat, tail: seq<byte>)
    ensures ReadHost(protocol, Encode(hostLength) + tail) == ReadPortAndState(protocol, hostLength, tail)
  {
    DecodeEncode(hostLength, tail);
    assert (Encode(hostLength) + tail)[|Encode(hostLength)|..] == tail;
  }

  lemma ReadHandshakeOf(protocol: nat, tail: seq<byte>)
    ensures ReadHandshake(Encode(protocol) + tail) == ReadHost(protocol, tail)
  {
    DecodeEncode(protocol, tail);
    assert (Encode(protocol) + tail)[|Encode(protocol)|..] == tail;
  }

  lemma ReadHandshakePayload(protocol: nat, hostBytes: seq<byte>, port: int)
    requires 0 <= port < 0x1_0000
    ensures ReadHandshake(Encode(protocol) + Encode(|hostBytes|) + hostBytes + BigEndian(port) + Encode(NEXT_STATE_STATUS))
      == Some(HandshakeFields(protocol, hostBytes, port, NEXT_STATE_STATUS))
  {
    var tail2 := hostBytes + BigEndian(port) + Encode(NEXT_STATE_STATUS);
    assert Encode(protocol) + Encode(|hostBytes|) + hostBytes + BigEndian(port) + Encode(NEXT_STATE_STATUS)
        == Encode(protocol) + (Encode(|hostBytes|) + tail2);
    ReadPortAndStateOf(protocol, hostBytes, port);
    ReadHostOf(protocol, |hostBytes|, tail2);
    ReadHandshakeOf(protocol, Encode(|hostBytes|) + tail2);
  }

  /** For an ASCII host and a port in range the handshake is two packets with id 0:
      the first reads back as protocol, host, port and next state 1, the second is
      the empty status request. */
  lemma HandshakeRoundTrip(host: JsString, port: int, protocol: nat)
    requires IsAscii(host)
    requires 0 <= port < 0x1_0000
    ensures HandshakePacket(host, port, protocol).Ok?
    ensures match ReadPacket(HandshakePacket(host, port, protocol).value)
      case None => false
      case Some((id, payload, rest)) =>
        id == 0 && rest == STATUS_REQUEST &&
        ReadHandshake(payload) == Some(HandshakeFields(protocol, Utf8(host), port, NEXT_STATE_STATUS))
  {
    var hostBytes := Utf8(host);
    Utf8LengthIsUnitCount(host);
    var payload := Encode(protocol) + Encode(|hostBytes|) + hostBytes + BigEndian(port) + Encode(NEXT_STATE_STATUS);
    assert HandshakePayload(host, port, protocol) == Ok(payload);
    StatusRequestBytes();
    PacketFraming(0, payload, STATUS_REQUEST);
    ReadHandshakePayload(protocol, hostBytes, port);
  }

  // ---------------------------------------------------------------------------
  // parse

  /** The number of bytes `parse` skips: twice the varint length of the whole
      response, plus one. */
  function ResponseOffset(responseLength: nat): nat
  {
    2 * EncodingLength(responseLength) + 1
  }

  /** `response.slice(offset)`: everything after the offset, empty when the
      response is shorter. It is a suffix of the response, and at least three
      bytes shorter unless it is empty. */
  function JsonPayload(response: seq<byte>): (p: seq<byte>)
    ensures |p| <= |response| && p == response[|response| - |p|..]
    ensures p == [] || |p| + 3 <= |response|
  {
    var offset := ResponseOffset(|response|);
    if offset <= |response| then response[offset..] else []
  }

  /** `parse(response)`: the payload handed to the JSON decoder. The result is
      what the decoder makes of the bytes after the offset, and the only failure is
      the decoder's. */
  function Parse(response: seq<byte>, json: JsonDecoder): (r: Result<RawPingResponse, Error>)
    ensures r.Ok? <==> json(JsonPayload(response)).Some?
    ensures r.Ok? ==> Some(r.value) == json(JsonPayload(response))
    ensures r.Err? ==> r.error == InvalidJson
  {
    match json(JsonPayload(response))
    case Some(r) => Ok(r)
    case None => Err(InvalidJson)
  }

  /** A response shorter than 128 bytes loses exactly its first three bytes. */
  lemma ShortResponsePayload(response: seq<byte>)
    requires |response| < 128
    ensures JsonPayload(response) == if |response| >= 3 then response[3..] else []
  {
    EncodingLengthBetween(|response|, 1);
  }

  /** The status response a server sends: packet 0 holding the JSON text prefixed
      by its length. */
  function StatusResponse(jsonText: seq<byte>): seq<byte>
  {
    CreatePacket(0, Encode(|jsonText|) + jsonText)
  }

  /** A status response is the frame-length varint, packet id 0, the JSON-length
      varint and the JSON text, and the frame counts the last three. */
  lemma StatusResponseLayout(jsonText: seq<byte>)
    ensures StatusResponse(jsonText) ==
      Encode(FrameLength(|jsonText|)) + [0] + Encode(|jsonText|) + jsonText
    ensures FrameLength(|jsonText|) == 1 + |Encode(|jsonText|)| + |jsonText|
  {
    var n := |jsonText|;
    StatusResponseHeader(jsonText);
    TailAfter(StatusResponse(jsonText), Encode(FrameLength(n)) + [0], Encode(n), jsonText);
  }

  /** The frame length of the status response for a JSON text of n bytes: the
      packet id 0, the JSON-length varint and the JSON text. */
  function FrameLength(n: nat): nat
  {
    1 + EncodingLength(n) + n
  }

  /** The length of the whole status response: the frame-length varint and the
      frame. */
  function ResponseLength(n: nat): nat
  {
    EncodingLength(FrameLength(n)) + FrameLength(n)
  }

  /** How far the offset `parse` computes reaches past the header (frame-length
      varint, packet id 0 of one byte, JSON-length varint): twice the width of the
      response length's varint less the widths of the other two varints. */
  function HeaderExcess(n: nat): int
  {
    2 * EncodingLength(ResponseLength(n)) - EncodingLength(FrameLength(n)) - EncodingLength(n)
  }

  /** The status response split into its header and the JSON text. */
  lemma StatusResponseHeader(jsonText: seq<byte>)
    ensures var n := |jsonText|;
      StatusResponse(jsonText) == (Encode(FrameLength(n)) + [0]) + (Encode(n) + jsonText) &&
      |Encode(FrameLength(n))| == EncodingLength(FrameLength(n)) && |Encode(n)| == EncodingLength(n)
  {
    var n := |jsonText|;
    EncodingLengthIsSize(n);
    EncodingLengthIsSize(FrameLength(n));
    PacketZeroLength(Encode(n) + jsonText);
  }

  /** A text behind a two-part header starts right after it. */
  lemma TailAfter(r: seq<byte>, head: seq<byte>, lengthPrefix: seq<byte>, jsonText: seq<byte>)
    requires r == head + (lengthPrefix + jsonText)
    ensures |r| == |head| + |lengthPrefix| + |jsonText|
    ensures r[|head| + |lengthPrefix|..] == jsonText
    ensures r == head + lengthPrefix + jsonText
  {
    assert r == (head + lengthPrefix) + jsonText;
  }

  /** The JSON text is what follows the header of the status response. */
  lemma StatusResponseTail(jsonText: seq<byte>)
    ensures var n := |jsonText|;
      |StatusResponse(jsonText)| == ResponseLength(n) &&
      StatusResponse(jsonText)[EncodingLength(FrameLength(n)) + 1 + EncodingLength(n)..] == jsonText
  {
    var n := |jsonText|;
    StatusResponseHeader(jsonText);
    TailAfter(StatusResponse(jsonText), Encode(FrameLength(n)) + [0], Encode(n), jsonText);
  }

  /** The payload of any response whose JSON text starts after `headLen` bytes,
      when the offset does not stop short of it. */
  lemma PayloadAfterHeader(r: seq<byte>, headLen: nat, jsonText: seq<byte>)
    requires |r| == headLen + |jsonText| && r[headLen..] == jsonText
    requires headLen <= ResponseOffset(|r|)
    ensures JsonPayload(r) ==
      if ResponseOffset(|r|) <= |r| then jsonText[ResponseOffset(|r|) - headLen..] else []
  {
    if ResponseOffset(|r|) <= |r| {
      assert r[ResponseOffset(|r|)..] == r[headLen..][ResponseOffset(|r|) - headLen..];
    }
  }

  /** For any JSON text the offset never stops short of the header: the widths
      grow with the lengths, and the excess is never negative. The decoder sees
      the JSON text less `HeaderExcess` leading bytes, nothing when that passes
      its end. */
  lemma OffsetPayload(jsonText: seq<byte>)
    ensures |StatusResponse(jsonText)| == ResponseLength(|jsonText|)
    ensures EncodingLength(|jsonText|) <= EncodingLength(FrameLength(|jsonText|))
              <= EncodingLength(ResponseLength(|jsonText|))
    ensures 0 <= HeaderExcess(|jsonText|)
    ensures JsonPayload(StatusResponse(jsonText)) ==
      if HeaderExcess(|jsonText|) <= |jsonText| then jsonText[HeaderExcess(|jsonText|)..] else []
  {
    var n := |jsonText|;
    StatusResponseTail(jsonText);
    EncodingLengthMono(n, FrameLength(n));
    EncodingLengthMono(FrameLength(n), ResponseLength(n));
    PayloadAfterHeader(StatusResponse(jsonText), EncodingLength(FrameLength(n)) + 1 + EncodingLength(n), jsonText);
  }

  /** The lengths of an empty JSON text, of its frame and of its response all
      take one byte. */
  lemma SmallWidths()
    ensures EncodingLength(0) == 1 && EncodingLength(2) == 1 && EncodingLength(3) == 1
  {
    assert Pow128(1) == 128;
    EncodingLengthBetween(0, 1);
    EncodingLengthBetween(2, 1);
    EncodingLengthBetween(3, 1);
  }

  /** The offset skips exactly the header, so the decoder sees the whole JSON
      text and nothing else, if and only if the varints of the response length,
      of the frame length and of the JSON length have the same width. */
  lemma OffsetExactIff(jsonText: seq<byte>)
    ensures JsonPayload(StatusResponse(jsonText)) == jsonText <==>
      EncodingLength(ResponseLength(|jsonText|))
        == EncodingLength(FrameLength(|jsonText|))
        == EncodingLength(|jsonText|)
  {
    var n := |jsonText|;
    OffsetPayload(jsonText);
    var p := JsonPayload(StatusResponse(jsonText));
    if n == 0 {
      SmallWidths();
      assert FrameLength(n) == 2 && ResponseLength(n) == 3;
    } else if HeaderExcess(n) == 0 {
      assert p == jsonText[0..] == jsonText;
    } else {
      assert |p| < n;
    }
  }

  /** 2^7, 2^14 and 2^21, the thresholds of one-, two- and three-byte varints. */
  lemma Thresholds()
    ensures Pow128(1) == 128 && Pow128(2) == 16384 && Pow128(3) == 2097152
  {
    assert Pow128(1) == 128;
    assert Pow128(2) == 16384;
  }

  /** When the JSON length takes w varint bytes and so does the whole response
      length, all three widths are w and the JSON text is found exactly. */
  lemma OffsetExactAtWidth(jsonText: seq<byte>, w: nat)
    requires 1 <= w
    requires 1 < w ==> Pow128(w - 1) <= |jsonText|
    requires |jsonText| + 1 + 2 * w < Pow128(w)
    ensures JsonPayload(StatusResponse(jsonText)) == jsonText
  {
    var n := |jsonText|;
    EncodingLengthBetween(n, w);
    EncodingLengthBetween(n + 1 + w, w);
    EncodingLengthBetween(n + 1 + 2 * w, w);
    OffsetCut(jsonText, w, w, w);
  }

  /** The widths are equal, so the JSON text is found exactly, for JSON texts of
      at most 124 bytes, of 128 to 16378 bytes and of 16384 to 2097144 bytes. */
  lemma OffsetMatchesFraming(jsonText: seq<byte>)
    requires |jsonText| <= 124 || 128 <= |jsonText| <= 16378 || 16384 <= |jsonText| <= 2097144
    ensures JsonPayload(StatusResponse(jsonText)) == jsonText
  {
    Thresholds();
    if |jsonText| <= 124 {
      OffsetExactAtWidth(jsonText, 1);
    } else if |jsonText| <= 16378 {
      OffsetExactAtWidth(jsonText, 2);
    } else {
      OffsetExactAtWidth(jsonText, 3);
    }
  }

  /** The payload for a JSON text whose three varint widths are known. */
  lemma OffsetCut(jsonText: seq<byte>, wn: nat, wf: nat, wt: nat)
    requires EncodingLength(|jsonText|) == wn
    requires EncodingLength(FrameLength(|jsonText|)) == wf
    requires EncodingLength(ResponseLength(|jsonText|)) == wt
    requires wf + wn <= 2 * wt <= wf + wn + |jsonText|
    ensures JsonPayload(StatusResponse(jsonText)) == jsonText[2 * wt - wf - wn..]
  {
    OffsetPayload(jsonText);
  }

  /** Just below each threshold the widths differ and the offset skips too much:
      the decoder is handed the JSON text without its first two bytes (125, 16379
      and 16380 bytes) or its first byte (126, 127 and 16381 to 16383 bytes), so a
      JSON object loses its opening brace. */
  lemma OffsetMisframes(jsonText: seq<byte>)
    requires 125 <= |jsonText| <= 127 || 16379 <= |jsonText| <= 16383
    ensures JsonPayload(StatusResponse(jsonText)) ==
      jsonText[(if |jsonText| == 125 || 16379 <= |jsonText| <= 16380 then 2 else 1)..]
  {
    var n := |jsonText|;
    Thresholds();
    if n <= 127 {
      EncodingLengthBetween(n, 1);
      if n == 125 {
        EncodingLengthBetween(n + 2, 1);
        EncodingLengthBetween(n + 3, 2);
        OffsetCut(jsonText, 1, 1, 2);
      } else {
        EncodingLengthBetween(n + 2, 2);
        EncodingLengthBetween(n + 4, 2);
        OffsetCut(jsonText, 1, 2, 2);
      }
    } else {
      EncodingLengthBetween(n, 2);
      if n <= 16380 {
        EncodingLengthBetween(n + 3, 2);
        EncodingLengthBetween(n + 5, 3);
        OffsetCut(jsonText, 2, 2, 3);
      } else {
        EncodingLengthBetween(n + 3, 3);
        EncodingLengthBetween(n + 6, 3);
        OffsetCut(jsonText, 2, 3, 3);
      }
    }
  }
}
