/** `PingStrategy`: the two wire formats a session can speak. */
module PingStrategy {
  import opened Wrappers
  import opened Js
  import opened Errors
  import opened PingResponse
  import Varint
  import CurrentPing
  import LegacyPing

  /** A `CurrentPingStrategy` holds the host, port and protocol it was built with;
      a `LegacyPingStrategy` holds nothing. */
  datatype Strategy = Current(host: JsString, port: int, protocol: nat) | Legacy

  /** `strategy.createHandshakePacket()`. Only the current strategy's handshake
      can fail, and only on the port, with the range error. */
  function HandshakeOf(s: Strategy): (r: Result<seq<byte>, Error>)
    ensures r.Err? <==> s.Current? && !(0 <= s.port < 0x1_0000)
    ensures r.Err? ==> r.error == PortOutOfRange
  {
    match s
    case Current(host, port, protocol) => CurrentPing.HandshakePacket(host, port, protocol)
    case Legacy => Ok(LegacyPing.HANDSHAKE)
  }

  /** `strategy.parse(response)`; only the JSON decoding of the current strategy can fail. */
  function ParseWith(s: Strategy, response: seq<byte>, json: JsonDecoder): (r: Result<RawPingResponse, Error>)
    ensures s.Legacy? ==> r.Ok?
    ensures r.Err? ==> r.error == InvalidJson
  {
    match s
    case Current(_, _, _) => CurrentPing.Parse(response, json)
    case Legacy => Ok(LegacyPing.Parse(response))
  }

  /** `strategy.createHandshakePacket()` as run on connect. */
  method CreateHandshakePacket(s: Strategy) returns (r: Result<seq<byte>, Error>)
    ensures r == HandshakeOf(s)
  {
    match s
    case Current(host, port, protocol) => r := CurrentPing.CreateHandshakePacket(host, port, protocol);
    case Legacy => r := Ok(LegacyPing.HANDSHAKE);
  }

  /** The legacy handshake is always FE 01 FA; read as a varint-framed packet it
      announces 254 bytes that never come, so it is never a complete modern packet. */
  lemma LegacyHandshakeBytes(rest: seq<byte>)
    requires |rest| < 253
    ensures HandshakeOf(Legacy) == Ok([0xFE, 0x01, 0xFA])
    ensures CurrentPing.ReadPacket(LegacyPing.HANDSHAKE + rest) == None
  {
    var b := LegacyPing.HANDSHAKE + rest;
    assert b[1..][0] == 0x01;
    assert Varint.Decode(b[1..]) == Some((1, 1));
    assert Varint.Decode(b) == Some((254, 2));
  }
}
