/** The earlier single-file client, `ping(host, port?, timeout?)`: the same
    packets built inline, a port filled rather than written big-endian, and a
    plainer mapping of socket events to the observable. */
module SingleFilePing {
  import opened Wrappers
  import opened Js
  import opened Errors
  import opened Varint
  import opened JsText
  import opened PingResponse
  import opened CurrentPing
  import opened Socket

  const DEFAULT_PORT: int := 25565
  const DEFAULT_TIMEOUT: int := 3600

  /** The options handed to `connect`. */
  datatype ConnectOptions = ConnectOptions(host: JsString, port: int, timeout: int)

  /** The options for `ping(host, port?, timeout?)`, an omitted argument taking
      its default. */
  function Options(host: JsString, port: Option<int>, timeout: Option<int>): (o: ConnectOptions)
    ensures o.host == host
    ensures o.port == DEFAULT_PORT <== port.None?
    ensures o.timeout == DEFAULT_TIMEOUT <== timeout.None?
    ensures port.Some? ==> o.port == port.value
    ensures timeout.Some? ==> o.timeout == timeout.value
  {
    ConnectOptions(host,
                   if port.Some? then port.value else DEFAULT_PORT,
                   if timeout.Some? then timeout.value else DEFAULT_TIMEOUT)
  }

  /** `Buffer.alloc(2, port)`: two bytes each filled with the port's low byte
      (`port & 255`, which for an integer is its remainder modulo 256). Read
      big-endian, they are 257 times that byte. */
  function FilledPort(port: int): (r: seq<byte>)
    ensures r == BigEndian(0x101 * (port % 0x100))
  {
    [port % 0x100, port % 0x100]
  }

  /** The bytes written on connect: the handshake (the bytes of `encode(-1)` as
      the protocol, the host length in code units, the host as UTF-8, the filled
      port, next state 1) followed by the empty status request. */
  function HandshakePacket(host: JsString, port: int, anyVersion: seq<byte>): (r: seq<byte>)
    ensures |r| >= 2 && r[|r| - 2..] == STATUS_REQUEST
  {
    StatusRequestBytes();
    CreatePacket(0, anyVersion + Encode(|host|) + Utf8(host) + FilledPort(port) + Encode(NEXT_STATE_STATUS))
      + CreatePacket(0, [])
  }

  /** The filled port equals the port's own big-endian bytes exactly when the
      port is a multiple of 257. */
  lemma FilledPortIsNotBigEndian(port: int)
    ensures 0 <= port < 0x1_0000 ==> (FilledPort(port) == BigEndian(port) <==> port % 0x101 == 0)
  {
    var low := port % 0x100;
    assert (0x101 * low) / 0x100 == low && (0x101 * low) % 0x100 == low;
    if 0 <= port < 0x1_0000 {
      if port % 0x101 == 0 {
        var k := port / 0x101;
        assert port == 0x100 * k + k;
        assert k < 0x100;
        assert low == k;
      }
      if FilledPort(port) == BigEndian(port) {
        assert port / 0x100 == low;
        assert port == 0x101 * low;
      }
    }
  }

  /** The default port 25565 (0x63DD) goes out as DD DD: a server reads port
      56797. */
  lemma DefaultPortMisencoded()
    ensures FilledPort(DEFAULT_PORT) == [0xDD, 0xDD]
    ensures BigEndian(DEFAULT_PORT) == [0x63, 0xDD]
    ensures FilledPort(DEFAULT_PORT) == BigEndian(56797)
  {
  }

  /** For an ASCII host, and the protocol bytes being a varint, a server reads the
      handshake as the given protocol, the host, the port 257 times the port's low
      byte, and next state 1, followed by the status request. */
  lemma HandshakeReadBack(host: JsString, port: int, version: nat)
    requires IsAscii(host)
    ensures match ReadPacket(HandshakePacket(host, port, Encode(version)))
      case None => false
      case Some((id, payload, rest)) =>
        id == 0 && rest == STATUS_REQUEST &&
        ReadHandshake(payload) == Some(HandshakeFields(version, Utf8(host), 0x101 * (port % 0x100), NEXT_STATE_STATUS))
  {
    var hostBytes := Utf8(host);
    Utf8LengthIsUnitCount(host);
    FilledPortIsNotBigEndian(port);
    var read := 0x101 * (port % 0x100);
    var payload := Encode(version) + Encode(|hostBytes|) + hostBytes + BigEndian(read) + Encode(NEXT_STATE_STATUS);
    assert HandshakePacket(host, port, Encode(version)) == CreatePacket(0, payload) + STATUS_REQUEST by {
      StatusRequestBytes();
    }
    PacketFraming(0, payload, STATUS_REQUEST);
    ReadHandshakePayload(version, hostBytes, read);
  }

  // ---------------------------------------------------------------------------
  // Events

  /** What the listeners of one ping share: whether the handshake was written,
      the chunks `scan` has accumulated, the calls on the socket, and how the
      observable has ended. */
  datatype Session = Session(connected: bool, chunks: seq<seq<byte>>, actions: seq<Action>, outcome: Outcome)

  function Start(): Session
  {
    Session(false, [], [], Pending)
  }

  /** Any close completes the source observable: `takeLast(1)` then emits the
      last accumulated buffer, if a chunk came, and the JSON at the offset is
      parsed; with no chunk the ping completes without a value. A close always
      ends the ping, and never by a thrown exception. */
  function OnClose(chunks: seq<seq<byte>>, json: JsonDecoder): (o: Outcome)
    ensures o.Completed? <==> chunks == []
    ensures !o.Pending? && !o.Crashed?
  {
    if chunks == [] then Completed
    else
      match CurrentPing.Parse(Concat(chunks), json)
      case Ok(r) => Value(r)
      case Err(e) => Errored(e)
  }

  /** The listeners over the events in order, until the observable ends: the
      first connect writes `handshake`, a timeout destroys the socket and errors
      with "Socket timeout", an error is passed on as it is, a close completes.
      Chunks and calls on the socket are only ever appended, and an ended ping
      stays as it is. */
  function Run(handshake: seq<byte>, st: Session, events: seq<Event>, json: JsonDecoder): (r: Session)
    ensures st.chunks <= r.chunks && st.actions <= r.actions
    ensures st.connected ==> r.connected
    ensures !st.outcome.Pending? ==> r == st
    decreases |events|
  {
    if events == [] || !st.outcome.Pending? then st
    else
      match events[0]
      case Connected =>
        if st.connected then Run(handshake, st, events[1..], json)
        else Run(handshake,
                 st.(connected := true, actions := st.actions + [Write(handshake)]),
                 events[1..], json)
      case TimedOut =>
        st.(actions := st.actions + [Destroy(None)], outcome := Errored(SocketTimeout))
      case Closed(_) =>
        st.(outcome := OnClose(st.chunks, json))
      case Failed(e) =>
        st.(outcome := Errored(e))
      case Data(c) =>
        Run(handshake, st.(chunks := st.chunks + [c], actions := st.actions + [End]), events[1..], json)
  }

  /** `ping(host, port?, timeout?)` over the events the socket delivers, `anyVersion`
      being the bytes of `encode(-1)`. The timeout is handed to the socket. */
  method Ping(host: JsString, port: Option<int>, timeout: Option<int>, anyVersion: seq<byte>,
              events: seq<Event>, json: JsonDecoder)
    returns (options: ConnectOptions, outcome: Outcome, actions: seq<Action>)
    ensures options == Options(host, port, timeout)
    ensures outcome == Run(HandshakePacket(host, options.port, anyVersion), Start(), events, json).outcome
    ensures actions == Run(HandshakePacket(host, options.port, anyVersion), Start(), events, json).actions
  {
    options := Options(host, port, timeout);
    var connected := false;
    ghost var chunks: seq<seq<byte>> := [];
    var last: Option<seq<byte>> := None;
    outcome, actions := Pending, [];
    var rest := events;
    while rest != [] && outcome.Pending?
      invariant Run(HandshakePacket(host, options.port, anyVersion), Session(connected, chunks, actions, outcome), rest, json)
             == Run(HandshakePacket(host, options.port, anyVersion), Start(), events, json)
      invariant last == if chunks == [] then None else Some(Concat(chunks))
      decreases |rest|
    {
      var event := rest[0];
      rest := rest[1..];
      match event
      case Connected =>
        if !connected {
          connected := true;
          actions := actions + [Write(HandshakePacket(host, options.port, anyVersion))];
        }
      case TimedOut =>
        actions := actions + [Destroy(None)];
        outcome := Errored(SocketTimeout);
      case Closed(_) =>
        match last {
          case None => outcome := Completed;
          case Some(response) =>
            match json(JsonPayload(response)) {
              case Some(r) => outcome := Value(r);
              case None => outcome := Errored(InvalidJson);
            }
        }
      case Failed(e) =>
        outcome := Errored(e);
      case Data(c) =>
        ConcatAppend(chunks, c);
        if last.None? {
          assert chunks == [];
          assert chunks + [c] == [c];
          assert Concat([c]) == c;
          last := Some(c);
        } else {
          assert last.value == Concat(chunks);
          last := Some(last.value + c);
        }
        assert last == Some(Concat(chunks + [c]));
        chunks := chunks + [c];
        actions := actions + [End];
    }
  }

  // ---------------------------------------------------------------------------
  // Properties of the event reduction

  /** Events that end nothing here: connect and data. */
  predicate Benign(events: seq<Event>)
  {
    forall i :: 0 <= i < |events| ==> events[i].Connected? || events[i].Data?
  }

  /** The events after connects and data continue from where those left off. */
  lemma {:induction false} RunThrough(handshake: seq<byte>, st: Session,
                                      pre: seq<Event>, rest: seq<Event>, json: JsonDecoder)
    requires st.outcome.Pending?
    requires Benign(pre)
    ensures Run(handshake, st, pre + rest, json)
         == Run(handshake, Run(handshake, st, pre, json), rest, json)
    decreases |pre|
  {
    if pre == [] {
      assert pre + rest == rest;
    } else {
      assert (pre + rest)[0] == pre[0] && (pre + rest)[1..] == pre[1..] + rest;
      assert Benign(pre[1..]) by {
        forall i | 0 <= i < |pre[1..]| ensures pre[1..][i] == pre[i + 1] { }
      }
      match pre[0]
      case Connected =>
        if st.connected {
          RunThrough(handshake, st, pre[1..], rest, json);
        } else {
          RunThrough(handshake, st.(connected := true, actions := st.actions + [Write(handshake)]), pre[1..], rest, json);
        }
      case Data(c) =>
        RunThrough(handshake, st.(chunks := st.chunks + [c], actions := st.actions + [End]), pre[1..], rest, json);
    }
  }

  /** Connects and data leave the observable pending and accumulate the data in
      order. */
  lemma {:induction false} RunThroughState(handshake: seq<byte>, st: Session, pre: seq<Event>, json: JsonDecoder)
    requires st.outcome.Pending?
    requires Benign(pre)
    ensures Run(handshake, st, pre, json).outcome.Pending?
    ensures Run(handshake, st, pre, json).chunks == st.chunks + DataOf(pre)
    decreases |pre|
  {
    if pre == [] {
      assert st.chunks + DataOf(pre) == st.chunks;
    } else {
      assert pre[0].Connected? || pre[0].Data?;
      assert Benign(pre[1..]) by {
        forall i | 0 <= i < |pre[1..]| ensures pre[1..][i] == pre[i + 1] { }
      }
      var head := if pre[0].Data? then [pre[0].chunk] else [];
      var next :=
        if pre[0].Data? then st.(chunks := st.chunks + head, actions := st.actions + [End])
        else if st.connected then st
        else st.(connected := true, actions := st.actions + [Write(handshake)]);
      assert Run(handshake, st, pre, json) == Run(handshake, next, pre[1..], json);
      assert next.chunks == st.chunks + head;
      RunThroughState(handshake, next, pre[1..], json);
      assert st.chunks + head + DataOf(pre[1..]) == st.chunks + (head + DataOf(pre[1..]));
    }
  }

  /** What connects and data leave in the writes: the handshake, once, if a
      connect came and none had before. */
  lemma {:induction false} RunThroughWrites(handshake: seq<byte>, st: Session,
                                            pre: seq<Event>, json: JsonDecoder)
    requires st.outcome.Pending?
    requires Benign(pre)
    ensures Run(handshake, st, pre, json).connected == (st.connected || HasConnect(pre))
    ensures Writes(Run(handshake, st, pre, json).actions)
         == Writes(st.actions) + (if !st.connected && HasConnect(pre) then [handshake] else [])
    decreases |pre|
  {
    if pre != [] {
      assert Benign(pre[1..]) by {
        forall i | 0 <= i < |pre[1..]| ensures pre[1..][i] == pre[i + 1] { }
      }
      assert HasConnect(pre) <==> pre[0].Connected? || HasConnect(pre[1..]) by {
        if HasConnect(pre[1..]) {
          var i :| 0 <= i < |pre[1..]| && pre[1..][i].Connected?;
          assert pre[i + 1].Connected?;
        }
        if HasConnect(pre) && !pre[0].Connected? {
          var i :| 0 <= i < |pre| && pre[i].Connected?;
          assert pre[1..][i - 1].Connected?;
        }
      }
      match pre[0]
      case Connected =>
        if st.connected {
          RunThroughWrites(handshake, st, pre[1..], json);
        } else {
          var w := Write(handshake);
          WritesAppend(st.actions, w);
          RunThroughWrites(handshake, st.(connected := true, actions := st.actions + [w]), pre[1..], json);
        }
      case Data(c) =>
        WritesAppend(st.actions, End);
        RunThroughWrites(handshake, st.(chunks := st.chunks + [c], actions := st.actions + [End]), pre[1..], json);
    }
  }

  /** A close after no data completes the ping without a value, whether or not
      the close reports an error. */
  lemma CloseWithoutDataCompletes(handshake: seq<byte>,
                                  pre: seq<Event>, hadError: bool, post: seq<Event>, json: JsonDecoder)
    requires Benign(pre) && DataOf(pre) == []
    ensures Run(handshake, Start(), pre + [Closed(hadError)] + post, json).outcome == Completed
  {
    assert pre + [Closed(hadError)] + post == pre + ([Closed(hadError)] + post);
    RunThrough(handshake, Start(), pre, [Closed(hadError)] + post, json);
    RunThroughState(handshake, Start(), pre, json);
  }

  /** A close after data parses the concatenation of every chunk once, at the
      same offset as `CurrentPingStrategy.parse`. */
  lemma CloseParsesFinalBuffer(handshake: seq<byte>,
                               pre: seq<Event>, hadError: bool, post: seq<Event>, json: JsonDecoder)
    requires Benign(pre) && DataOf(pre) != []
    ensures Run(handshake, Start(), pre + [Closed(hadError)] + post, json).outcome ==
      match json(JsonPayload(Concat(DataOf(pre))))
      case Some(r) => Value(r)
      case None => Errored(InvalidJson)
  {
    assert pre + [Closed(hadError)] + post == pre + ([Closed(hadError)] + post);
    RunThrough(handshake, Start(), pre, [Closed(hadError)] + post, json);
    RunThroughState(handshake, Start(), pre, json);
    var mid := Run(handshake, Start(), pre, json);
    assert mid.chunks == DataOf(pre) by { assert [] + DataOf(pre) == DataOf(pre); }
    assert Run(handshake, mid, [Closed(hadError)] + post, json).outcome == OnClose(mid.chunks, json);
  }

  /** A socket error ends the ping with that very error. */
  lemma ErrorForwarded(handshake: seq<byte>,
                       pre: seq<Event>, e: Error, post: seq<Event>, json: JsonDecoder)
    requires Benign(pre)
    ensures Run(handshake, Start(), pre + [Failed(e)] + post, json).outcome == Errored(e)
  {
    assert pre + [Failed(e)] + post == pre + ([Failed(e)] + post);
    RunThrough(handshake, Start(), pre, [Failed(e)] + post, json);
    RunThroughState(handshake, Start(), pre, json);
  }

  /** A timeout destroys the socket without an error and ends the ping with
      "Socket timeout". */
  lemma TimeoutErrors(handshake: seq<byte>,
                      pre: seq<Event>, post: seq<Event>, json: JsonDecoder)
    requires Benign(pre)
    ensures Run(handshake, Start(), pre + [TimedOut] + post, json).outcome == Errored(SocketTimeout)
    ensures Run(handshake, Start(), pre + [TimedOut] + post, json).actions
         == Run(handshake, Start(), pre, json).actions + [Destroy(None)]
  {
    assert pre + [TimedOut] + post == pre + ([TimedOut] + post);
    RunThrough(handshake, Start(), pre, [TimedOut] + post, json);
    RunThroughState(handshake, Start(), pre, json);
  }

  /** Nothing written after the handshake: once connected, no later event writes. */
  lemma {:induction false} NoWriteOnceConnected(handshake: seq<byte>,
                                                st: Session, events: seq<Event>, json: JsonDecoder)
    requires st.connected
    ensures Writes(Run(handshake, st, events, json).actions) == Writes(st.actions)
    decreases |events|
  {
    if events != [] && st.outcome.Pending? {
      match events[0]
      case Connected =>
        NoWriteOnceConnected(handshake, st, events[1..], json);
      case TimedOut =>
        WritesAppend(st.actions, Destroy(None));
      case Closed(_) =>
      case Failed(_) =>
      case Data(c) =>
        WritesAppend(st.actions, End);
        NoWriteOnceConnected(handshake, st.(chunks := st.chunks + [c], actions := st.actions + [End]), events[1..], json);
    }
  }

  /** The handshake is written on connect, once. */
  lemma HandshakeWrittenOnce(handshake: seq<byte>,
                             pre: seq<Event>, rest: seq<Event>, json: JsonDecoder)
    requires Benign(pre) && HasConnect(pre)
    ensures Writes(Run(handshake, Start(), pre + rest, json).actions) == [handshake]
  {
    RunThrough(handshake, Start(), pre, rest, json);
    RunThroughState(handshake, Start(), pre, json);
    RunThroughWrites(handshake, Start(), pre, json);
    NoWriteOnceConnected(handshake, Run(handshake, Start(), pre, json), rest, json);
  }
}
