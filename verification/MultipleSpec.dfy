/** Bytestreams with fallback methods (src/bytestream-multiple.c) and the tables in which the factory
    registers the streams it makes (src/bytestream-factory.c), for one stream id. */
module MultipleSpec {
  import opened Common

  datatype Method = Ibb | Socks5 | Other(name: string)

  /** `stream_method_supported` */
  predicate Supported(m: Method) { m == Ibb || m == Socks5 }

  /** `active_bytestream` (by its method), `fallback_stream_methods` and `state`; the streams
      registered in the factory's table of each kind, with their states; the methods activated so far,
      in order; and whether an assertion failed. */
  datatype Multiple = Multiple(
    state: StreamState, active: Option<Method>, fallback: seq<Method>,
    registered: map<Method, StreamState>, activated: seq<Method>, failed: bool)

  function NewMultiple(state: StreamState): Multiple { Multiple(state, None, [], map[], [], false) }

  /** `bytestream_activate_next`. The new stream takes the place of one of its kind in the table. Unless
      someone keeps a reference, that one is disposed of at once: it closes, and the factory removes
      what is registered under its key, the new stream, before anybody listens to it. */
  function ActivateNext(m: Multiple, kept: bool): Multiple
    requires m.fallback != []
  {
    var next := m.fallback[0];
    m.(active := Some(next), fallback := m.fallback[1..], activated := m.activated + [next],
       registered := if next in m.registered && !kept then m.registered - {next} else m.registered[next := m.state])
  }

  function AddMethod(m: Multiple, x: Method): Multiple {
    var m1 := m.(fallback := m.fallback + [x]);
    if m.active.None? then ActivateNext(m1, false) else m1
  }

  /** The loop over the methods of an offer or of an answer: the unsupported ones are skipped. */
  function AddMethods(m: Multiple, methods: seq<Method>): Multiple
    decreases |methods|
  {
    if methods == [] then m
    else AddMethods(if Supported(methods[0]) then AddMethod(m, methods[0]) else m, methods[1..])
  }

  /** The methods listed in the answer to an offer. */
  function AllMethods(m: Multiple): seq<Method> {
    if m.active.Some? then [m.active.value] + m.fallback else m.fallback
  }

  /** The active stream can be found in the table, which holds the only reference to it. */
  predicate Live(m: Multiple) { m.active.Some? && m.active.value in m.registered }

  /** `remove_bytestream`: what is registered under the key of a stream leaves the table and is disposed
      of. Disposal closes it, and with the active stream the whole closes. */
  function RemoveByKey(m: Multiple, x: Method): Multiple {
    m.(registered := m.registered - {x}, state := if Live(m) && m.active == Some(x) then Closed else m.state)
  }

  /** The state of the active stream changes, and with it that of the whole. The factory takes note: a
      stream that closes leaves the table. */
  function SetState(m: Multiple, state: StreamState): Multiple
    requires Live(m)
  {
    var x := m.active.value;
    if state == Closed then RemoveByKey(m, x) else m.(state := state, registered := m.registered[x := state])
  }

  /** `bytestream_connection_error_cb`, up to initiating the next stream. It asserts that the stream was
      still being established. The signal keeps a reference to the stream that failed. */
  function ConnectionError(m: Multiple): Multiple {
    var m1 := m.(active := None, failed := m.failed || (m.state != Initiating && m.state != Accepted));
    if m.fallback == [] then m1 else ActivateNext(m1, true)
  }

  /** The signal has been handled. If the failed stream was replaced, nobody else refers to it: it is
      disposed of, closes, and the factory removes what is registered under its key. */
  function SignalHandled(m: Multiple, failed: Method): Multiple {
    if m.active == Some(failed) then RemoveByKey(m, failed) else m
  }
}
