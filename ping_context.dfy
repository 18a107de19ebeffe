/** `PingContext`: one session object, its configuration, and the reduction of
    the socket's events to the outcome of a ping. */
module PingSession {
  import opened Wrappers
  import opened Js
  import opened Errors
  import opened PingResponse
  import opened PingStrategy
  import opened Socket

  /** The state the listeners of one ping share: which `once` listeners have run,
      the captured `error`, the chunks passed to `subscriber.next` (their
      concatenation is the `scan` accumulator and its length `bytesRead`), the calls
      made on the socket and how the observable has ended. */
  datatype Session = Session(
    connected: bool,
    timedOut: bool,
    errorSeen: bool,
    error: Error,
    chunks: seq<seq<byte>>,
    actions: seq<Action>,
    outcome: Outcome)

  /** Before any event: `let error: Error` is still undefined. */
  function Start(): Session
  {
    Session(false, false, false, Undefined, [], [], Pending)
  }

  /** `strategy.parse`, with the JSON decoding it relies on. */
  type Parser = seq<byte> -> Result<RawPingResponse, Error>

  function ParserOf(s: Strategy, json: JsonDecoder): Parser
  {
    (response: seq<byte>) => ParseWith(s, response, json)
  }

  /** The 'close' listener: an error close passes on the captured error; a clean
      close parses the accumulated bytes once if any were read. Either way the
      observable ends, and only with a value it parsed or with an error. */
  function OnClose(parse: Parser, st: Session, hadError: bool): (o: Outcome)
    ensures o.Value? || o.Errored?
    ensures o.Value? ==> !hadError && |Concat(st.chunks)| > 0 && parse(Concat(st.chunks)) == Ok(o.response)
  {
    if hadError then Errored(st.error)
    else if |Concat(st.chunks)| > 0 then
      match parse(Concat(st.chunks))
      case Ok(r) => Value(r)
      case Err(e) => Errored(e)
    else Errored(NoData)
  }

  /** What the listeners do on one event. The 'connect' listener writes the
      strategy's handshake, or throws when building it throws; the 'timeout'
      listener destroys the socket with "Socket timeout"; the 'error' listener
      keeps the first error; the 'close' listener ends the observable; the 'data'
      listener passes the chunk on and ends the connection. `handshake` is what
      building the strategy's handshake gives, `parse` its parser. */
  function OnEvent(handshake: Result<seq<byte>, Error>, parse: Parser, st: Session, e: Event): (r: Session)
    ensures r.timedOut == (st.timedOut || e.TimedOut?)
  {
    match e
    case Connected =>
      if st.connected then st
      else (
        match handshake
        case Ok(b) => st.(connected := true, actions := st.actions + [Write(b)])
        case Err(err) => st.(connected := true, outcome := Crashed(err)))
    case TimedOut =>
      if st.timedOut then st
      else st.(timedOut := true, actions := st.actions + [Destroy(Some(SocketTimeout))])
    case Failed(err) =>
      if st.errorSeen then st else st.(errorSeen := true, error := err)
    case Closed(hadError) =>
      st.(outcome := OnClose(parse, st, hadError))
    case Data(c) =>
      st.(chunks := st.chunks + [c], actions := st.actions + [End])
  }

  /** The listeners run over the events in order until the observable ends. A
      first timeout destroys the socket, which then emits that error and an error
      close, and nothing else. An ended ping stays as it is, and a connected
      socket stays connected. */
  function Run(handshake: Result<seq<byte>, Error>, parse: Parser, st: Session, events: seq<Event>): (r: Session)
    ensures !st.outcome.Pending? ==> r == st
    ensures st.connected ==> r.connected
    decreases if st.timedOut then 0 else 1, |events|
  {
    if events == [] || !st.outcome.Pending? then st
    else if events[0].TimedOut? && !st.timedOut then
      Run(handshake, parse, OnEvent(handshake, parse, st, TimedOut), [Failed(SocketTimeout), Closed(true)])
    else Run(handshake, parse, OnEvent(handshake, parse, st, events[0]), events[1..])
  }

  class PingContext {
    var strategy: Option<Strategy>
    var timeout: int

    /** `new PingContext(strategy?, timeout)`. */
    constructor (strategy: Option<Strategy>, timeout: int)
      ensures this.strategy == strategy && this.timeout == timeout
    {
      this.strategy := strategy;
      this.timeout := timeout;
    }

    /** `setStrategy(strategy)`: replaces the strategy alone and returns the context. */
    method SetStrategy(strategy: Strategy) returns (self: PingContext)
      modifies this
      ensures this.strategy == Some(strategy) && timeout == old(timeout)
      ensures self == this
    {
      this.strategy := Some(strategy);
      return this;
    }

    /** `setTimeout(timeout)`: replaces the timeout alone and returns the context. */
    method SetTimeout(timeout: int) returns (self: PingContext)
      modifies this
      ensures this.timeout == timeout && strategy == old(strategy)
      ensures self == this
    {
      this.timeout := timeout;
      return this;
    }

    /** `ping(host, port)` over the events the socket delivers. Without a strategy
        the context first installs `CurrentPingStrategy(host, port)` with the
        default protocol, and keeps it. The timeout is handed to the socket and is
        not otherwise used. */
    method Ping(host: JsString, port: int, defaultProtocol: nat, events: seq<Event>, json: JsonDecoder)
      returns (outcome: Outcome, actions: seq<Action>)
      modifies this
      ensures strategy == Some(if old(strategy).Some? then old(strategy).value else Current(host, port, defaultProtocol))
      ensures timeout == old(timeout)
      ensures outcome == Run(HandshakeOf(strategy.value), ParserOf(strategy.value, json), Start(), events).outcome
      ensures actions == Run(HandshakeOf(strategy.value), ParserOf(strategy.value, json), Start(), events).actions
    {
      if strategy.None? {
        strategy := Some(Current(host, port, defaultProtocol));
      }
      var active := strategy.value;
      var connected, timedOut, errorSeen := false, false, false;
      var error := Undefined;
      ghost var chunks: seq<seq<byte>> := [];
      var response: seq<byte> := [];
      var bytesRead := 0;
      outcome, actions := Pending, [];
      var rest := events;
      while rest != [] && outcome.Pending?
        invariant Run(HandshakeOf(active), ParserOf(active, json), Session(connected, timedOut, errorSeen, error, chunks, actions, outcome), rest)
               == Run(HandshakeOf(active), ParserOf(active, json), Start(), events)
        invariant response == Concat(chunks) && bytesRead == |response|
        invariant strategy == Some(active) && timeout == old(timeout)
        decreases if timedOut then 0 else 1, |rest|
      {
        var event := rest[0];
        rest := rest[1..];
        match event
        case Connected =>
          if !connected {
            connected := true;
            var packet := CreateHandshakePacket(active);
            match packet
            case Ok(b) => actions := actions + [Write(b)];
            case Err(e) => outcome := Crashed(e);
          }
        case TimedOut =>
          if !timedOut {
            timedOut := true;
            actions := actions + [Destroy(Some(SocketTimeout))];
            rest := [Failed(SocketTimeout), Closed(true)];
          }
        case Failed(e) =>
          if !errorSeen {
            errorSeen, error := true, e;
          }
        case Closed(hadError) =>
          if hadError {
            outcome := Errored(error);
          } else if bytesRead > 0 {
            match ParseWith(active, response, json)
            case Ok(r) => outcome := Value(r);
            case Err(e) => outcome := Errored(e);
          } else {
            outcome := Errored(NoData);
          }
        case Data(c) =>
          ConcatAppend(chunks, c);
          chunks := chunks + [c];
          response := response + c;
          bytesRead := bytesRead + |c|;
          actions := actions + [End];
      }
    }
  }

  /** A context built without a strategy installs `CurrentPingStrategy(host, port)`
      on its first ping and keeps it on later pings, even to another host. */
  method PingTwice(host1: JsString, port1: int, host2: JsString, port2: int, defaultProtocol: nat,
                   events1: seq<Event>, events2: seq<Event>, json: JsonDecoder, timeout: int)
    returns (first: Strategy, second: Strategy)
    ensures first == Current(host1, port1, defaultProtocol)
    ensures second == first
  {
    var context := new PingContext(None, timeout);
    var outcome1, actions1 := context.Ping(host1, port1, defaultProtocol, events1, json);
    first := context.strategy.value;
    var outcome2, actions2 := context.Ping(host2, port2, defaultProtocol, events2, json);
    second := context.strategy.value;
  }

  /** A strategy set explicitly is used whatever host is pinged. */
  method PingWithStrategy(s: Strategy, host: JsString, port: int, defaultProtocol: nat,
                          events: seq<Event>, json: JsonDecoder, timeout: int)
    returns (outcome: Outcome, used: Strategy)
    ensures used == s
    ensures outcome == Run(HandshakeOf(s), ParserOf(s, json), Start(), events).outcome
  {
    var context := new PingContext(None, timeout);
    var same := context.SetStrategy(s);
    var actions;
    outcome, actions := same.Ping(host, port, defaultProtocol, events, json);
    used := context.strategy.value;
  }

  // ---------------------------------------------------------------------------
  // Properties of the event reduction

  /** Events that by themselves end nothing: connect, data and error. */
  predicate Quiet(events: seq<Event>)
  {
    forall i :: 0 <= i < |events| ==> events[i].Connected? || events[i].Data? || events[i].Failed?
  }

  /** The first of a run of quiet events, the handshake succeeding if it is a
      connect, leaves the observable pending, and the rest of the run is quiet. */
  lemma QuietStep(handshake: Result<seq<byte>, Error>, parse: Parser, st: Session, pre: seq<Event>)
    requires st.outcome.Pending?
    requires pre != [] && Quiet(pre)
    requires handshake.Ok? || !HasConnect(pre)
    ensures !pre[0].TimedOut?
    ensures OnEvent(handshake, parse, st, pre[0]).outcome.Pending?
    ensures Quiet(pre[1..])
    ensures handshake.Ok? || !HasConnect(pre[1..])
    ensures HasConnect(pre) <==> pre[0].Connected? || HasConnect(pre[1..])
    ensures HasFailure(pre) <==> pre[0].Failed? || HasFailure(pre[1..])
  {
    assert pre[0].Connected? || pre[0].Data? || pre[0].Failed?;
    assert pre[0].Connected? ==> HasConnect(pre);
    assert pre[0].Failed? ==> HasFailure(pre);
    assert Quiet(pre[1..]) by {
      forall i | 0 <= i < |pre[1..]| ensures pre[1..][i] == pre[i + 1] { }
    }
    if HasConnect(pre[1..]) {
      var i :| 0 <= i < |pre[1..]| && pre[1..][i].Connected?;
      assert pre[i + 1].Connected?;
    }
    if HasConnect(pre) && !pre[0].Connected? {
      var i :| 0 <= i < |pre| && pre[i].Connected?;
      assert pre[1..][i - 1].Connected?;
    }
    if HasFailure(pre[1..]) {
      var i :| 0 <= i < |pre[1..]| && pre[1..][i].Failed?;
      assert pre[i + 1].Failed?;
    }
    if HasFailure(pre) && !pre[0].Failed? {
      var i :| 0 <= i < |pre| && pre[i].Failed?;
      assert pre[1..][i - 1].Failed?;
    }
  }

  /** After a run of quiet events the events that follow continue from where the
      run left off. */
  lemma {:induction false} RunThrough(handshake: Result<seq<byte>, Error>, parse: Parser, st: Session, pre: seq<Event>, rest: seq<Event>)
    requires st.outcome.Pending?
    requires Quiet(pre)
    requires handshake.Ok? || !HasConnect(pre)
    ensures Run(handshake, parse, st, pre + rest) == Run(handshake, parse, Run(handshake, parse, st, pre), rest)
    decreases |pre|
  {
    if pre == [] {
      assert pre + rest == rest;
    } else {
      assert (pre + rest)[0] == pre[0] && (pre + rest)[1..] == pre[1..] + rest;
      QuietStep(handshake, parse, st, pre);
      RunThrough(handshake, parse, OnEvent(handshake, parse, st, pre[0]), pre[1..], rest);
    }
  }

  /** A run of quiet events leaves the observable pending and the timeout
      unfired. */
  lemma {:induction false} RunThroughPending(handshake: Result<seq<byte>, Error>, parse: Parser, st: Session, pre: seq<Event>)
    requires st.outcome.Pending?
    requires Quiet(pre)
    requires handshake.Ok? || !HasConnect(pre)
    ensures Run(handshake, parse, st, pre).outcome.Pending?
    ensures Run(handshake, parse, st, pre).timedOut == st.timedOut
    decreases |pre|
  {
    if pre != [] {
      QuietStep(handshake, parse, st, pre);
      var next := OnEvent(handshake, parse, st, pre[0]);
      assert Run(handshake, parse, st, pre) == Run(handshake, parse, next, pre[1..]);
      RunThroughPending(handshake, parse, next, pre[1..]);
    }
  }

  /** A run of quiet events keeps every chunk, in order. */
  lemma {:induction false} RunThroughChunks(handshake: Result<seq<byte>, Error>, parse: Parser, st: Session, pre: seq<Event>)
    requires st.outcome.Pending?
    requires Quiet(pre)
    requires handshake.Ok? || !HasConnect(pre)
    ensures Run(handshake, parse, st, pre).chunks == st.chunks + DataOf(pre)
    decreases |pre|
  {
    if pre == [] {
      assert st.chunks + DataOf(pre) == st.chunks;
    } else {
      QuietStep(handshake, parse, st, pre);
      var next := OnEvent(handshake, parse, st, pre[0]);
      assert Run(handshake, parse, st, pre) == Run(handshake, parse, next, pre[1..]);
      var head := if pre[0].Data? then [pre[0].chunk] else [];
      assert next.chunks == st.chunks + head;
      RunThroughChunks(handshake, parse, next, pre[1..]);
      assert st.chunks + head + DataOf(pre[1..]) == st.chunks + (head + DataOf(pre[1..]));
    }
  }

  /** A run of quiet events captures the first error, and writes the handshake
      if it connects for the first time. */
  lemma {:induction false} RunThroughEffects(handshake: Result<seq<byte>, Error>, parse: Parser, st: Session, pre: seq<Event>)
    requires st.outcome.Pending?
    requires Quiet(pre)
    requires handshake.Ok? || !HasConnect(pre)
    ensures Run(handshake, parse, st, pre).error == (if st.errorSeen then st.error else FirstFailure(pre, st.error))
    ensures Run(handshake, parse, st, pre).errorSeen == (st.errorSeen || HasFailure(pre))
    ensures Run(handshake, parse, st, pre).connected == (st.connected || HasConnect(pre))
    ensures Writes(Run(handshake, parse, st, pre).actions)
         == Writes(st.actions) + (if !st.connected && HasConnect(pre) then [handshake.value] else [])
    decreases |pre|
  {
    if pre != [] {
      QuietStep(handshake, parse, st, pre);
      var next := OnEvent(handshake, parse, st, pre[0]);
      if pre[0].Connected? && !st.connected {
        WritesAppend(st.actions, Write(handshake.value));
      } else if pre[0].Data? {
        WritesAppend(st.actions, End);
      }
      RunThroughEffects(handshake, parse, next, pre[1..]);
    }
  }

  /** A close ends a pending ping by the 'close' listener; later events change
      nothing. */
  lemma CloseEnds(handshake: Result<seq<byte>, Error>, parse: Parser, st: Session, hadError: bool, post: seq<Event>)
    requires st.outcome.Pending?
    ensures Run(handshake, parse, st, [Closed(hadError)] + post).outcome == OnClose(parse, st, hadError)
  {
    var closed := OnEvent(handshake, parse, st, Closed(hadError));
    assert ([Closed(hadError)] + post)[1..] == post;
    assert Run(handshake, parse, st, [Closed(hadError)] + post) == Run(handshake, parse, closed, post);
  }

  /** A clean close after bytes were read ends the ping with `strategy.parse` of
      every chunk, concatenated in arrival order, parsed once; later events change
      nothing. */
  lemma CleanCloseParsesAllChunks(handshake: Result<seq<byte>, Error>, parse: Parser, pre: seq<Event>, post: seq<Event>)
    requires Quiet(pre)
    requires handshake.Ok? || !HasConnect(pre)
    requires |Concat(DataOf(pre))| > 0
    ensures Run(handshake, parse, Start(), pre + [Closed(false)] + post).outcome ==
      match parse(Concat(DataOf(pre)))
      case Ok(r) => Value(r)
      case Err(e) => Errored(e)
  {
    assert pre + [Closed(false)] + post == pre + ([Closed(false)] + post);
    RunThrough(handshake, parse, Start(), pre, [Closed(false)] + post);
    RunThroughPending(handshake, parse, Start(), pre);
    RunThroughChunks(handshake, parse, Start(), pre);
    var mid := Run(handshake, parse, Start(), pre);
    assert mid.chunks == DataOf(pre) by { assert [] + DataOf(pre) == DataOf(pre); }
    CloseEnds(handshake, parse, mid, false, post);
  }

  /** A clean close with no byte read is the error "Socket has not received data",
      whatever the decoder: nothing is parsed. */
  lemma CleanCloseWithoutData(handshake: Result<seq<byte>, Error>, parse: Parser, pre: seq<Event>, post: seq<Event>)
    requires Quiet(pre)
    requires handshake.Ok? || !HasConnect(pre)
    requires |Concat(DataOf(pre))| == 0
    ensures Run(handshake, parse, Start(), pre + [Closed(false)] + post).outcome == Errored(NoData)
  {
    assert pre + [Closed(false)] + post == pre + ([Closed(false)] + post);
    RunThrough(handshake, parse, Start(), pre, [Closed(false)] + post);
    RunThroughPending(handshake, parse, Start(), pre);
    RunThroughChunks(handshake, parse, Start(), pre);
    var mid := Run(handshake, parse, Start(), pre);
    assert mid.chunks == DataOf(pre) by { assert [] + DataOf(pre) == DataOf(pre); }
    CloseEnds(handshake, parse, mid, false, post);
  }

  /** A close with `hadError` passes on the error the 'error' listener captured
      (the first one), or `undefined` when none came. */
  lemma ErrorCloseSurfacesCapturedError(handshake: Result<seq<byte>, Error>, parse: Parser, pre: seq<Event>, post: seq<Event>)
    requires Quiet(pre)
    requires handshake.Ok? || !HasConnect(pre)
    ensures Run(handshake, parse, Start(), pre + [Closed(true)] + post).outcome == Errored(FirstFailure(pre, Undefined))
  {
    assert pre + [Closed(true)] + post == pre + ([Closed(true)] + post);
    RunThrough(handshake, parse, Start(), pre, [Closed(true)] + post);
    RunThroughPending(handshake, parse, Start(), pre);
    RunThroughEffects(handshake, parse, Start(), pre);
    var mid := Run(handshake, parse, Start(), pre);
    CloseEnds(handshake, parse, mid, true, post);
  }

  lemma {:induction false} FirstFailureFallback(pre: seq<Event>, e: Error)
    requires !HasFailure(pre)
    ensures FirstFailure(pre, e) == e
    decreases |pre|
  {
    if pre != [] {
      FirstFailureFallback(pre[1..], e);
    }
  }

  /** A timeout destroys the socket with "Socket timeout", and the ping ends with
      that error through the error close. After a captured error the model ends
      with that error; a real socket's 'error' comes from a destroy, which clears
      its timer, so no timeout follows one. */
  lemma TimeoutSurfacesAsError(handshake: Result<seq<byte>, Error>, parse: Parser, pre: seq<Event>, post: seq<Event>)
    requires Quiet(pre)
    requires handshake.Ok? || !HasConnect(pre)
    ensures Run(handshake, parse, Start(), pre + [TimedOut] + post).outcome
         == Errored(if HasFailure(pre) then FirstFailure(pre, Undefined) else SocketTimeout)
    ensures Run(handshake, parse, Start(), pre + [TimedOut] + post).actions
         == Run(handshake, parse, Start(), pre).actions + [Destroy(Some(SocketTimeout))]
  {
    assert pre + [TimedOut] + post == pre + ([TimedOut] + post);
    RunThrough(handshake, parse, Start(), pre, [TimedOut] + post);
    RunThroughPending(handshake, parse, Start(), pre);
    RunThroughEffects(handshake, parse, Start(), pre);
    var mid := Run(handshake, parse, Start(), pre);
    var destroyed := OnEvent(handshake, parse, mid, TimedOut);
    assert Run(handshake, parse, mid, [TimedOut] + post) == Run(handshake, parse, destroyed, [Failed(SocketTimeout), Closed(true)]);
    var failed := OnEvent(handshake, parse, destroyed, Failed(SocketTimeout));
    assert Run(handshake, parse, destroyed, [Failed(SocketTimeout), Closed(true)]) == Run(handshake, parse, failed, [Closed(true)]);
    assert Run(handshake, parse, failed, [Closed(true)]) == OnEvent(handshake, parse, failed, Closed(true));
    if !HasFailure(pre) {
      FirstFailureFallback(pre, Undefined);
    }
  }

  /** On connect the active strategy's handshake bytes are written, exactly once:
      once connected no later event writes again. */
  lemma {:induction false} NoWriteOnceConnected(handshake: Result<seq<byte>, Error>, parse: Parser, st: Session, events: seq<Event>)
    requires st.connected
    ensures Writes(Run(handshake, parse, st, events).actions) == Writes(st.actions)
    decreases if st.timedOut then 0 else 1, |events|
  {
    if events != [] && st.outcome.Pending? {
      var next := OnEvent(handshake, parse, st, events[0]);
      if events[0].TimedOut? && !st.timedOut {
        WritesAppend(st.actions, Destroy(Some(SocketTimeout)));
        NoWriteOnceConnected(handshake, parse, next, [Failed(SocketTimeout), Closed(true)]);
      } else {
        if events[0].TimedOut? || events[0].Data? {
          WritesAppend(st.actions, if events[0].Data? then End else Destroy(Some(SocketTimeout)));
        }
        NoWriteOnceConnected(handshake, parse, next, events[1..]);
      }
    }
  }

  lemma HandshakeWrittenOnce(handshake: Result<seq<byte>, Error>, parse: Parser, pre: seq<Event>, rest: seq<Event>)
    requires Quiet(pre) && HasConnect(pre)
    requires handshake.Ok?
    ensures Writes(Run(handshake, parse, Start(), pre + rest).actions) == [handshake.value]
  {
    RunThrough(handshake, parse, Start(), pre, rest);
    RunThroughPending(handshake, parse, Start(), pre);
    RunThroughEffects(handshake, parse, Start(), pre);
    NoWriteOnceConnected(handshake, parse, Run(handshake, parse, Start(), pre), rest);
  }

  /** A strategy whose handshake throws (a port outside 0..65535) makes the
      'connect' listener throw: the exception escapes and nothing is written. */
  lemma HandshakeFailureCrashes(handshake: Result<seq<byte>, Error>, parse: Parser, pre: seq<Event>, post: seq<Event>)
    requires Quiet(pre) && !HasConnect(pre)
    requires handshake.Err?
    ensures Run(handshake, parse, Start(), pre + [Connected] + post).outcome == Crashed(handshake.error)
    ensures Writes(Run(handshake, parse, Start(), pre + [Connected] + post).actions) == []
  {
    assert pre + [Connected] + post == pre + ([Connected] + post);
    RunThrough(handshake, parse, Start(), pre, [Connected] + post);
    RunThroughPending(handshake, parse, Start(), pre);
    RunThroughEffects(handshake, parse, Start(), pre);
    var mid := Run(handshake, parse, Start(), pre);
    assert Run(handshake, parse, mid, [Connected] + post) == OnEvent(handshake, parse, mid, Connected);
  }

  /** Every chunk passed to the subscriber is followed by one `end()` call. */
  lemma {:induction false} EveryChunkEnded(handshake: Result<seq<byte>, Error>, parse: Parser, st: Session, events: seq<Event>)
    requires Ends(st.actions) == |st.chunks|
    ensures Ends(Run(handshake, parse, st, events).actions) == |Run(handshake, parse, st, events).chunks|
    decreases if st.timedOut then 0 else 1, |events|
  {
    if events != [] && st.outcome.Pending? {
      var next := OnEvent(handshake, parse, st, events[0]);
      if next.actions != st.actions {
        var a := if events[0].Data? then End
                 else if events[0].TimedOut? then Destroy(Some(SocketTimeout))
                 else Write(handshake.value);
        assert next.actions == st.actions + [a];
        WritesAppend(st.actions, a);
      }
      if events[0].TimedOut? && !st.timedOut {
        EveryChunkEnded(handshake, parse, next, [Failed(SocketTimeout), Closed(true)]);
      } else {
        EveryChunkEnded(handshake, parse, next, events[1..]);
      }
    }
  }
}
