/** The socket as the ping code sees it: the events its listeners receive, the
    calls they make on it, and how the returned observable ends. */
module Socket {
  import opened Wrappers
  import opened Js
  import opened Errors
  import opened PingResponse

  /** One event delivered to the listeners, in the order the socket emits them. */
  datatype Event =
    | Connected                // 'connect'
    | Data(chunk: seq<byte>)   // 'data'
    | TimedOut                 // 'timeout'
    | Failed(err: Error)       // 'error'
    | Closed(hadError: bool)   // 'close'

  /** A call a listener makes on the socket. */
  datatype Action =
    | Write(bytes: seq<byte>)     // connection.write(bytes)
    | End                         // connection.end()
    | Destroy(err: Option<Error>) // connection.destroy(err?)

  /** How the observable has ended so far. */
  datatype Outcome =
    | Pending                        // neither completed nor errored
    | Value(response: RawPingResponse) // one value emitted, then complete
    | Completed                      // complete without a value
    | Errored(err: Error)            // subscriber.error(err)
    | Crashed(err: Error)            // a listener threw: the exception escapes the socket

  /** The chunks of the data events, in arrival order. */
  function DataOf(events: seq<Event>): seq<seq<byte>>
  {
    if events == [] then []
    else (if events[0].Data? then [events[0].chunk] else []) + DataOf(events[1..])
  }

  predicate HasConnect(events: seq<Event>)
  {
    exists i :: 0 <= i < |events| && events[i].Connected?
  }

  predicate HasFailure(events: seq<Event>)
  {
    exists i :: 0 <= i < |events| && events[i].Failed?
  }

  /** The error of the first error event, or `otherwise` when there is none. */
  function FirstFailure(events: seq<Event>, otherwise: Error): Error
  {
    if events == [] then otherwise
    else if events[0].Failed? then events[0].err
    else FirstFailure(events[1..], otherwise)
  }

  /** The bytes written to the socket, write by write. */
  function Writes(actions: seq<Action>): seq<seq<byte>>
  {
    if actions == [] then []
    else Writes(actions[..|actions| - 1]) + (if actions[|actions| - 1].Write? then [actions[|actions| - 1].bytes] else [])
  }

  /** The number of `end()` calls. */
  function Ends(actions: seq<Action>): nat
  {
    if actions == [] then 0
    else Ends(actions[..|actions| - 1]) + (if actions[|actions| - 1].End? then 1 else 0)
  }

  lemma WritesAppend(actions: seq<Action>, a: Action)
    ensures Writes(actions + [a]) == Writes(actions) + (if a.Write? then [a.bytes] else [])
    ensures Ends(actions + [a]) == Ends(actions) + (if a.End? then 1 else 0)
  {
    assert (actions + [a])[..|actions|] == actions;
  }

  lemma ConcatAppend(chunks: seq<seq<byte>>, c: seq<byte>)
    ensures Concat(chunks + [c]) == Concat(chunks) + c
  {
    assert (chunks + [c])[..|chunks|] == chunks;
  }
}
