/** A bytestream with fallback methods as the object that src/bytestream-multiple.c keeps. */
module MultipleStream {
  import opened Common
  import Spec = MultipleSpec
  import opened MultipleSpec

  class BytestreamMultiple {
    var state: StreamState
    var activeBytestream: Option<Method>
    var fallbackStreamMethods: seq<Method>
    var registered: map<Method, StreamState>
    var activated: seq<Method>
    var failed: bool

    function View(): Multiple reads this {
      Multiple(state, activeBytestream, fallbackStreamMethods, registered, activated, failed)
    }

    constructor (state: StreamState)
      ensures View() == NewMultiple(state)
    {
      this.state := state;
      activeBytestream, fallbackStreamMethods, registered, activated, failed := None, [], map[], [], false;
    }

    /** Whether a stream that is replaced is kept alive by someone is up to the caller. */
    method ActivateNext(kept: bool)
      requires activeBytestream.None? && fallbackStreamMethods != []
      modifies this
      ensures View() == Spec.ActivateNext(old(View()), kept)
    {
      var next := fallbackStreamMethods[0];
      fallbackStreamMethods := fallbackStreamMethods[1..];
      activeBytestream := Some(next);
      var replaced := next in registered;
      registered := registered[next := state];
      if replaced && !kept { registered := registered - {next}; }
      activated := activated + [next];
    }

    method AddStreamMethod(stream: Method)
      modifies this
      ensures View() == AddMethod(old(View()), stream)
    {
      fallbackStreamMethods := fallbackStreamMethods + [stream];
      if activeBytestream.None? { ActivateNext(false); }
    }

    /** Adds those of the methods offered that are supported. */
    method AddOffered(methods: seq<Method>)
      modifies this
      ensures View() == AddMethods(old(View()), methods)
    {
      var i := 0;
      ghost var expected := AddMethods(View(), methods);
      assert methods[0..] == methods;
      while i < |methods|
        invariant 0 <= i <= |methods|
        invariant AddMethods(View(), methods[i..]) == expected
      {
        assert methods[i..][0] == methods[i] && methods[i..][1..] == methods[i + 1..];
        if Supported(methods[i]) { AddStreamMethod(methods[i]); }
        i := i + 1;
      }
    }

    method StateChanged(s: StreamState)
      requires Live(View())
      modifies this
      ensures View() == SetState(old(View()), s)
    {
      var stream := activeBytestream.value;
      if s == Closed {
        RemoveBytestream(stream);
      } else {
        state := s;
        registered := registered[stream := s];
      }
    }

    /** A stream under the key given closed; the one in the table is disposed of. */
    method RemoveBytestream(key: Method)
      modifies this
      ensures View() == RemoveByKey(old(View()), key)
    {
      if key in registered {
        registered := registered - {key};
        if activeBytestream == Some(key) { state := Closed; }
      }
    }

    /** Returns the stream that is now active, if there is one. */
    method ConnectionErrorCb() returns (next: Option<Method>)
      modifies this
      ensures View() == ConnectionError(old(View())) && next == activeBytestream
    {
      if state != Initiating && state != Accepted { failed := true; }
      activeBytestream := None;
      if fallbackStreamMethods != [] { ActivateNext(true); }
      next := activeBytestream;
    }

    /** The last reference to a stream that was replaced goes when its signal has been handled. */
    method ErrorHandled(key: Method)
      modifies this
      ensures View() == SignalHandled(old(View()), key)
    {
      if activeBytestream == Some(key) { RemoveBytestream(key); }
    }
  }
}
