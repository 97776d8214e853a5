/** A SOCKS5 bytestream as the object that src/bytestream-socks5.c keeps. */
module Socks5Stream {
  import opened Common
  import Spec = Socks5Spec
  import opened Socks5Spec

  class BytestreamSocks5 {
    const me: Identity
    var phase: Phase
    var state: StreamState
    var streamhosts: seq<Streamhost>
    var timer: bool
    var query: bool
    var listener: bool
    var readBlocked: bool
    var readBuffer: Option<Bytes>
    var link: Link
    var log: Log
    var failed: Option<Assertion>

    /** There is a read buffer exactly while there is a connection. */
    predicate Valid() reads this { readBuffer.Some? <==> link.live }

    function View(): Socks5 reads this {
      Socks5(phase, state, streamhosts, timer, query, listener, readBlocked, link, log, failed)
    }

    function Buffered(): Bytes reads this { if readBuffer.Some? then readBuffer.value else [] }

    constructor (me: Identity, state: StreamState)
      ensures Valid() && View() == NewSocks5(state) && this.me == me && Buffered() == []
    {
      this.me := me;
      this.state := state;
      phase, streamhosts, timer, query, listener, readBuffer := Invalid, [], false, false, false, None;
      readBlocked, link, log, failed := false, Link(false, 0, false, false), Log([], [], [], []), None;
    }

    method CheckThat(holds: bool, a: Assertion)
      modifies this`failed
      ensures View() == Check(old(View()), holds, a)
    {
      if !holds && failed.None? { failed := Some(a); }
    }

    method WriteToTransport(bytes: Bytes)
      modifies this`log
      ensures View() == Write(old(View()), bytes)
    {
      log := log.(written := log.written + bytes);
    }

    method StopTimer()
      modifies this`timer
      ensures View() == old(View()).(timer := false)
    {
      timer := false;
    }

    method StartTimer()
      modifies this`timer, this`failed
      ensures View() == Spec.StartTimer(old(View()))
    {
      CheckThat(!timer, TimerStopped);
      timer := true;
    }

    method SetTransport()
      requires Valid()
      modifies this`link, this`log, this`readBuffer, this`failed
      ensures Valid() && View() == Spec.SetTransport(old(View())) && readBuffer == Some([])
    {
      CheckThat(readBuffer.None?, BufferFree);
      link := Link(true, link.serial + 1, false, false);
      log := log.(written := []);
      readBuffer := Some([]);
    }

    method CloseTransport()
      requires Valid()
      modifies this`link, this`readBuffer
      ensures Valid() && View() == Spec.CloseTransport(old(View())) && readBuffer.None?
    {
      readBuffer := None;
      link := link.(live := false);
    }

    method Affect(effect: Effect)
      modifies this`log
      ensures View() == Spec.Affect(old(View()), [effect])
    {
      log := log.(effects := log.effects + [effect]);
    }

    method Close()
      requires Valid()
      modifies this`link, this`readBuffer, this`state, this`log
      ensures Valid() && View() == Spec.Close(old(View()))
      ensures readBuffer.Some? ==> readBuffer == old(readBuffer)
    {
      if state == Closed { return; }
      if state == LocalPending {
        Affect(OfferDeclined);
        state := Closed;
      } else {
        state := Closing;
        if !(link.live && link.unsent) {
          CloseTransport();
          state := Closed;
        }
      }
    }

    /** The connection to the first streamhost has failed. */
    method DropStreamhost()
      requires Valid()
      modifies this`link, this`readBuffer, this`streamhosts
      ensures Valid() && readBuffer.None?
      ensures View() == Spec.CloseTransport(old(View())).(hosts := streamhosts)
      ensures streamhosts == if old(streamhosts) == [] then [] else old(streamhosts)[1..]
    {
      CloseTransport();
      if streamhosts != [] { streamhosts := streamhosts[1..]; }
    }

    /** Signals the connection error, then refuses the query. */
    method NoMoreStreamhosts()
      modifies this`log, this`failed, this`query
      ensures View() == GiveUp(old(View()))
    {
      Affect(ErrorSignal);
      CheckThat(query, QueryPending);
      Affect(QueryReply(NotFound));
      query := false;
      assert old(log.effects) + [ErrorSignal] + [QueryReply(NotFound)] == old(log.effects) + [ErrorSignal, QueryReply(NotFound)];
    }

    /** `socks5_error`; what was buffered is kept only if the connection is. */
    method Socks5Error()
      requires Valid()
      modifies this
      ensures Valid() && View() == Fail(old(View()))
      ensures readBuffer.None? || readBuffer == old(readBuffer) || readBuffer == Some([])
      decreases |streamhosts|, 1
    {
      StopTimer();
      var previous := phase;
      phase := Error;
      if TargetPhase(previous) {
        TryNextStreamhost();
      } else if previous != AwaitingAuth && previous != AwaitingCommand {
        Close();
      }
    }

    method TryNextStreamhost()
      requires Valid()
      modifies this
      ensures Valid() && View() == NextHost(old(View()))
      ensures readBuffer.None? || readBuffer == Some([])
      decreases |streamhosts|, 0
    {
      DropStreamhost();
      if streamhosts != [] {
        Socks5Connect();
      } else {
        NoMoreStreamhosts();
      }
    }

    method Socks5Connect()
      requires Valid()
      modifies this
      ensures Valid() && View() == Connect(old(View()))
      ensures readBuffer.None? || readBuffer == old(readBuffer) || readBuffer == Some([])
      decreases |streamhosts|, 2
    {
      phase := TargetTrying;
      if streamhosts == [] {
        Socks5Error();
        return;
      }
      var streamhost := streamhosts[0];
      SetTransport();
      StartTimer();
      log := log.(tried := log.tried + [streamhost]);
    }

    method ConnectToStreamhost(hosts: seq<Streamhost>)
      requires Valid()
      modifies this
      ensures Valid() && View() == Spec.ConnectToStreamhost(old(View()), hosts)
    {
      streamhosts := streamhosts + hosts;
      query := true;
      Socks5Connect();
    }

    method TransportConnectedCb()
      requires Valid()
      modifies this
      ensures Valid() && View() == TransportConnected(old(View())) && readBuffer == old(readBuffer)
    {
      StopTimer();
      if phase == TargetTrying || phase == ProxyTrying {
        WriteToTransport(Hello);
        phase := if phase == TargetTrying then TargetAuthSent else ProxyAuthSent;
      }
    }

    method TransportDisconnectedCb()
      requires Valid()
      modifies this
      ensures Valid() && View() == TransportDisconnected(old(View()))
    {
      StopTimer();
      Socks5Error();
    }

    method TargetGotConnectReply()
      requires Valid()
      modifies this
      ensures Valid() && View() == TargetGotReply(old(View())) && readBuffer == old(readBuffer)
    {
      if streamhosts == [] {
        CheckThat(false, HostListed);
        return;
      }
      phase := Connected;
      state := Open;
      Affect(OpenSignal);
      var reply := QueryReply(Used(streamhosts[0].jid));
      Affect(reply);
      assert old(log.effects) + [OpenSignal] + [reply] == old(log.effects) + [OpenSignal, reply];
      if readBlocked { link := link.(held := true); }
    }

    /** What a handler leaves behind: the outcome its specification gives, and the read buffer as it
        was unless there was an error. */
    twostate predicate Handled(used: int, outcome: (Socks5, int))
      reads this
    {
      && Valid() && (View(), used) == outcome
      && (if used >= 0 then readBuffer == old(readBuffer)
          else readBuffer.None? || readBuffer == old(readBuffer) || readBuffer == Some([]))
    }

    method HandleAuthReply(str: Bytes) returns (used: int)
      requires Valid()
      modifies this
      ensures Handled(used, Spec.HandleAuthReply(me, old(View()), str))
    {
      if |str| < 2 { return 0; }
      if str[0] != VERSION || str[1] != STATUS_OK {
        Socks5Error();
        return -1;
      }
      var target := phase == TargetAuthSent;
      WriteToTransport(ConnectPacket(CMD_CONNECT, if target then me.asTarget else me.asInitiator));
      phase := if target then TargetRequested else ProxyRequested;
      StartTimer();
      return 2;
    }

    method HandleConnectReply(str: Bytes) returns (used: int)
      requires Valid()
      modifies this
      ensures Handled(used, Spec.HandleConnectReply(old(View()), str, false))
    {
      if |str| < MIN_LENGTH { return 0; }
      if str[0] != VERSION || str[1] != STATUS_OK || str[2] != RESERVED
         || (str[3] != ATYP_DOMAIN && str[3] != 0) {
        Socks5Error();
        return -1;
      }
      var addrLen := if str[3] == ATYP_DOMAIN then AddrLen(str[4]) else 0;
      if |str| % 256 < MIN_LENGTH + addrLen { return 0; }
      StopTimer();
      if str[4 + addrLen] != 0 || str[5 + addrLen] != 0 {
        Socks5Error();
        return -1;
      }
      if phase == TargetRequested {
        TargetGotConnectReply();
      } else {
        phase := ActivationSent;
        link := link.(held := true);
      }
      return MIN_LENGTH + addrLen;
    }

    method HandleAuthRequest(str: Bytes) returns (used: int)
      requires Valid()
      modifies this
      ensures Handled(used, Spec.HandleAuthRequest(old(View()), str))
    {
      if |str| < 2 { return 0; }
      if str[0] != VERSION {
        Socks5Error();
        return -1;
      }
      var authLen := AuthLen(str[1]);
      if |str| < authLen { return 0; }
      var i := 2;
      while i < authLen
        invariant 2 <= i && (2 <= authLen ==> i <= authLen && AUTH_NONE !in str[2..i])
        invariant View() == old(View()) && readBuffer == old(readBuffer)
      {
        if str[i] == AUTH_NONE {
          assert str[2..authLen][i - 2] == AUTH_NONE;
          WriteToTransport(AuthReply);
          phase := AwaitingCommand;
          return authLen;
        }
        i := i + 1;
      }
      Socks5Error();
      return -1;
    }

    method HandleCommand(str: Bytes) returns (used: int)
      requires Valid()
      modifies this
      ensures Handled(used, Spec.HandleCommand(me, old(View()), str, false))
    {
      if |str| < MIN_LENGTH { return 0; }
      var addrLen := AddrLen(str[4]);
      if |str| % 256 < MIN_LENGTH + addrLen { return 0; }
      if !GoodCommand(str, addrLen) {
        Socks5Error();
        return -1;
      }
      if addrLen != SHA1_LENGTH + 1 || str[5..4 + addrLen] != me.asInitiator {
        CloseTransport();
        Socks5Error();
        return -1;
      }
      WriteToTransport(ConnectPacket(STATUS_OK, me.asInitiator));
      phase := Connected;
      link := link.(held := true);
      CheckThat(listener, ListenerLive);
      listener := false;
      return MIN_LENGTH + addrLen;
    }

    method HandleReceivedData(str: Bytes) returns (used: int)
      requires Valid()
      modifies this
      ensures Handled(used, Handle(me, old(View()), str, false))
    {
      match phase {
        case TargetAuthSent | ProxyAuthSent => used := HandleAuthReply(str);
        case TargetRequested | ProxyRequested => used := HandleConnectReply(str);
        case AwaitingAuth => used := HandleAuthRequest(str);
        case AwaitingCommand => used := HandleCommand(str);
        case Connected =>
          log := log.(emitted := log.emitted + str);
          used := |str|;
        case Error => used := |str|;
        case _ =>
          CheckThat(false, NotReached);
          used := |str|;
      }
    }

    method BlockReading(block: bool)
      requires Valid()
      modifies this`readBlocked, this`link
      ensures Valid() && View() == Spec.BlockReading(old(View()), block)
    {
      if readBlocked == block { return; }
      readBlocked := block;
      if readBuffer.Some? { link := link.(held := block); }
    }

    method TransportHandler(data: Bytes)
      requires Valid() && readBuffer.Some?
      modifies this
      ensures Valid() && (View(), Buffered()) == Received(me, old(View()), old(Buffered()), data, false)
    {
      ghost var expected := Received(me, View(), Buffered(), data, false);
      readBuffer := Some(readBuffer.value + data);
      var more := true;
      while more
        invariant Valid() && (more ==> readBuffer.Some?)
        invariant if more then Drain(me, View(), Buffered(), false) == expected else (View(), Buffered()) == expected
        decreases if more then 1 + |Buffered()| else 0
      {
        HandleUses(me, View(), readBuffer.value, false);
        var used := HandleReceivedData(readBuffer.value);
        if readBuffer.None? { break; }
        readBuffer := Some(if used < 0 then [] else readBuffer.value[used..]);
        more := used > 0 && readBuffer.value != [];
      }
    }
  }
}
