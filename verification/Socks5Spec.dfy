/** SOCKS5 bytestreams (RFC 1928 as profiled by XEP-0065): the operations of
    src/bytestream-socks5.c as functions on the private state of one end. */
module Socks5Spec {
  import opened Common

  const VERSION: Byte := 5
  const CMD_CONNECT: Byte := 1
  const RESERVED: Byte := 0
  const ATYP_DOMAIN: Byte := 3
  const STATUS_OK: Byte := 0
  const AUTH_NONE: Byte := 0
  const SHA1_LENGTH := 40
  const MIN_LENGTH := 6

  datatype Phase =
    | Invalid
    | TargetTrying | TargetAuthSent | TargetRequested
    | Connected
    | OfferSent | AwaitingAuth | AwaitingCommand
    | ProxyTrying | ProxyAuthSent | ProxyRequested | ActivationSent
    | Error

  datatype Streamhost = Streamhost(jid: string, host: string, port: nat)

  /** Answers to the IQ that listed the streamhosts. */
  datatype Reply = Used(jid: string) | NotFound

  /** Assertions of the source; a failing one aborts the process. */
  datatype Assertion = TimerStopped | BufferFree | QueryPending | HostListed | ListenerLive | NotReached

  /** What becomes known outside: that the stream is open, that it cannot be established, the answer to
      the query, and that the offer is declined. */
  datatype Effect = OpenSignal | ErrorSignal | QueryReply(reply: Reply) | OfferDeclined

  /** What the end did: bytes written to the current connection, bytes given to the user, effects in the
      order in which they occurred, streamhosts tried. */
  datatype Log = Log(written: Bytes, emitted: Bytes, effects: seq<Effect>, tried: seq<Streamhost>)

  /** The connection: whether there is one (and with it a `read_buffer`), how many there have been,
      whether it has bytes still to send and whether receiving from it is blocked. */
  datatype Link = Link(live: bool, serial: nat, unsent: bool, held: bool)

  datatype Socks5 = Socks5(
    phase: Phase, state: StreamState, hosts: seq<Streamhost>, timer: bool, query: bool, listener: bool,
    readBlocked: bool, link: Link, log: Log, failed: Option<Assertion>)

  /** The domain names this end computes in each of the two roles. */
  datatype Identity = Identity(asInitiator: Bytes, asTarget: Bytes) {
    predicate Valid() { |asInitiator| == SHA1_LENGTH && |asTarget| == SHA1_LENGTH }
  }

  /** `compute_domain`; the digest is a parameter. */
  function ComputeDomain(sha1: string -> Bytes, sid: string, initiator: string, target: string): Bytes {
    sha1(sid + initiator + target)
  }

  function IdentityOf(sha1: string -> Bytes, sid: string, self: string, peer: string): Identity {
    Identity(ComputeDomain(sha1, sid, self, peer), ComputeDomain(sha1, sid, peer, self))
  }

  function NewSocks5(state: StreamState): Socks5 {
    Socks5(Invalid, state, [], false, false, false, false, Link(false, 0, false, false), Log([], [], [], []), None)
  }

  function Affect(s: Socks5, effects: seq<Effect>): Socks5 {
    s.(log := s.log.(effects := s.log.effects + effects))
  }

  function Check(s: Socks5, holds: bool, a: Assertion): Socks5 {
    if holds || s.failed.Some? then s else s.(failed := Some(a))
  }

  function Write(s: Socks5, bytes: Bytes): Socks5 {
    s.(log := s.log.(written := s.log.written + bytes))
  }

  // ---- Connections and timers ----

  function StartTimer(s: Socks5): Socks5 {
    Check(s, !s.timer, TimerStopped).(timer := true)
  }

  function SetTransport(s: Socks5): Socks5 {
    var s1 := Check(s, !s.link.live, BufferFree);
    s1.(link := Link(true, s.link.serial + 1, false, false), log := s1.log.(written := []))
  }

  function CloseTransport(s: Socks5): Socks5 {
    s.(link := s.link.(live := false))
  }

  function BytestreamClosed(s: Socks5): Socks5 {
    CloseTransport(s).(state := Closed)
  }

  function Close(s: Socks5): Socks5 {
    if s.state == Closed then s
    else if s.state == LocalPending then Affect(s, [OfferDeclined]).(state := Closed)
    else if s.link.live && s.link.unsent then s.(state := Closing)
    else BytestreamClosed(s)
  }

  predicate TargetPhase(p: Phase) { p == TargetTrying || p == TargetAuthSent || p == TargetRequested }

  /** `socks5_error`: a target goes on to the next streamhost, a listening initiator waits. */
  function Fail(s: Socks5): Socks5
    decreases |s.hosts|, 1
  {
    var s0 := s.(timer := false, phase := Error);
    if TargetPhase(s.phase) then NextHost(s0)
    else if s.phase == AwaitingAuth || s.phase == AwaitingCommand then s0
    else Close(s0)
  }

  /** The connection to the first streamhost has failed. */
  function NextHost(s: Socks5): Socks5
    decreases |s.hosts|, 0
  {
    var s1 := CloseTransport(s).(hosts := if s.hosts == [] then [] else s.hosts[1..]);
    if s1.hosts != [] then Connect(s1) else GiveUp(s1)
  }

  /** The error is signalled before the query is refused. */
  function GiveUp(s: Socks5): Socks5 {
    Affect(Check(s, s.query, QueryPending), [ErrorSignal, QueryReply(NotFound)]).(query := false)
  }

  /** `socks5_connect` */
  function Connect(s: Socks5): Socks5
    decreases |s.hosts|, 2
  {
    var s0 := s.(phase := TargetTrying);
    if s.hosts == [] then Fail(s0) else TryHost(s0)
  }

  /** A target in error, rid of its first streamhost. */
  function Dropped(s: Socks5): Socks5 {
    CloseTransport(s.(timer := false, phase := Error)).(hosts := if s.hosts == [] then [] else s.hosts[1..])
  }

  /** What the recursion of failing and connecting comes to for a target. */
  lemma {:induction false} FailIsNext(s: Socks5)
    requires TargetPhase(s.phase)
    ensures Fail(s) == if |s.hosts| > 1 then TryHost(Dropped(s).(phase := TargetTrying)) else GiveUp(Dropped(s))
  {
    assert Fail(s) == NextHost(s.(timer := false, phase := Error));
    if |s.hosts| > 1 { assert Connect(Dropped(s)) == TryHost(Dropped(s).(phase := TargetTrying)); }
  }

  function TryHost(s: Socks5): Socks5
    requires s.hosts != []
  {
    var s1 := StartTimer(SetTransport(s));
    s1.(log := s1.log.(tried := s1.log.tried + [s.hosts[0]]))
  }

  // ---- Messages ----

  const Hello: Bytes := [VERSION, 1, AUTH_NONE]
  const AuthReply: Bytes := [VERSION, AUTH_NONE]

  /** A CONNECT command (`code` 1) or its positive reply (`code` 0), for a domain of 40 bytes. */
  function ConnectPacket(code: Byte, domain: Bytes): Bytes {
    [VERSION, code, RESERVED, ATYP_DOMAIN, SHA1_LENGTH] + domain + [0, 0]
  }

  function TransportConnected(s: Socks5): Socks5 {
    var s0 := s.(timer := false);
    if s.phase == TargetTrying then Write(s0, Hello).(phase := TargetAuthSent)
    else if s.phase == ProxyTrying then Write(s0, Hello).(phase := ProxyAuthSent)
    else s0
  }

  function TransportDisconnected(s: Socks5): Socks5 { Fail(s.(timer := false)) }

  function TransportBufferEmpty(s: Socks5): Socks5 {
    if s.state == Closing then BytestreamClosed(s) else s
  }

  // ---- Received data ----

  /** The length that is compared with the size of a packet: the source reduces it to eight bits;
      `full` asks for the comparison without that. */
  function Seen(n: nat, full: bool): nat {
    if full then n else n % 256
  }

  /** The address with its length byte, in eight bits. */
  function AddrLen(b: Byte): (n: nat)
    ensures n < 256
  {
    (b + 1) % 256
  }

  /** The length of an authentication request; the count of methods is a signed character added to
      an unsigned 32-bit integer. */
  function AuthLen(b: Byte): (n: nat) {
    if b < 128 then b + 2 else (b - 254) % 0x1_0000_0000
  }

  /** Each handler returns the new state and the number of bytes used: 0 to wait for more, -1 after
      an error. */
  function HandleAuthReply(me: Identity, s: Socks5, buf: Bytes): (r: (Socks5, int)) {
    if |buf| < 2 then (s, 0)
    else if buf[0] != VERSION || buf[1] != STATUS_OK then (Fail(s), -1)
    else
      var target := s.phase == TargetAuthSent;
      var s1 := Write(s, ConnectPacket(CMD_CONNECT, if target then me.asTarget else me.asInitiator));
      (StartTimer(s1.(phase := if target then TargetRequested else ProxyRequested)), 2)
  }

  function ReplyAddrLen(buf: Bytes): (n: nat)
    requires |buf| >= MIN_LENGTH
    ensures n < 256
  {
    if buf[3] == ATYP_DOMAIN then AddrLen(buf[4]) else 0
  }

  function HandleConnectReply(s: Socks5, buf: Bytes, full: bool): (r: (Socks5, int)) {
    if |buf| < MIN_LENGTH then (s, 0)
    else if buf[0] != VERSION || buf[1] != STATUS_OK || buf[2] != RESERVED then (Fail(s), -1)
    else if buf[3] != ATYP_DOMAIN && buf[3] != 0 then (Fail(s), -1)
    else
      var n := ReplyAddrLen(buf);
      if Seen(|buf|, full) < MIN_LENGTH + n then (s, 0)
      else
        var s1 := s.(timer := false);
        if buf[4 + n] != 0 || buf[5 + n] != 0 then (Fail(s1), -1)
        else (if s.phase == TargetRequested then TargetGotReply(s1) else ProxyGotReply(s1), MIN_LENGTH + n)
  }

  /** The stream is open and the query answered with the streamhost in use. */
  function TargetGotReply(s: Socks5): Socks5 {
    if s.hosts == [] then Check(s, false, HostListed)
    else
      Affect(s, [OpenSignal, QueryReply(Used(s.hosts[0].jid))]).(
        phase := Connected, state := Open, link := s.link.(held := s.link.held || s.readBlocked))
  }

  function ProxyGotReply(s: Socks5): Socks5 {
    s.(phase := ActivationSent, link := s.link.(held := true))
  }

  function HandleAuthRequest(s: Socks5, buf: Bytes): (r: (Socks5, int)) {
    if |buf| < 2 then (s, 0)
    else if buf[0] != VERSION then (Fail(s), -1)
    else
      var n: int := AuthLen(buf[1]);
      if |buf| < n then (s, 0)
      else if n > 2 && AUTH_NONE in buf[2..n] then (Write(s, AuthReply).(phase := AwaitingCommand), n)
      else (Fail(s), -1)
  }

  predicate GoodCommand(buf: Bytes, n: nat)
    requires |buf| >= MIN_LENGTH + n
  {
    && buf[0] == VERSION && buf[1] == CMD_CONNECT && buf[2] == RESERVED && buf[3] == ATYP_DOMAIN
    && buf[4 + n] == 0 && buf[5 + n] == 0
  }

  function HandleCommand(me: Identity, s: Socks5, buf: Bytes, full: bool): (r: (Socks5, int)) {
    if |buf| < MIN_LENGTH then (s, 0)
    else
      var n := AddrLen(buf[4]);
      if Seen(|buf|, full) < MIN_LENGTH + n then (s, 0)
      else if !GoodCommand(buf, n) then (Fail(s), -1)
      else if n != SHA1_LENGTH + 1 || buf[5..4 + n] != me.asInitiator then (Fail(CloseTransport(s)), -1)
      else (CommandAccepted(me, s), MIN_LENGTH + n)
  }

  /** Reading stops until the target's answer to the query says that the stream is open. */
  function CommandAccepted(me: Identity, s: Socks5): Socks5 {
    var s1 := Check(Write(s, ConnectPacket(STATUS_OK, me.asInitiator)), s.listener, ListenerLive);
    s1.(phase := Connected, link := s.link.(held := true), listener := false)
  }

  /** `socks5_handle_received_data` */
  function Handle(me: Identity, s: Socks5, buf: Bytes, full: bool): (r: (Socks5, int))
    ensures -1 <= r.1
  {
    match s.phase
    case TargetAuthSent => HandleAuthReply(me, s, buf)
    case ProxyAuthSent => HandleAuthReply(me, s, buf)
    case TargetRequested => HandleConnectReply(s, buf, full)
    case ProxyRequested => HandleConnectReply(s, buf, full)
    case AwaitingAuth => HandleAuthRequest(s, buf)
    case AwaitingCommand => HandleCommand(me, s, buf, full)
    case Connected => (s.(log := s.log.(emitted := s.log.emitted + buf)), |buf|)
    case Error => (s, |buf|)
    case _ => (Check(s, false, NotReached), |buf|)
  }

  lemma HandleUses(me: Identity, s: Socks5, buf: Bytes, full: bool)
    ensures Handle(me, s, buf, full).1 <= |buf|
  {
  }

  /** The loop of `transport_handler`: handle the buffer and what is left of it until nothing is
      used. The buffer is empty after an error: it has been erased, dropped or replaced. */
  function Drain(me: Identity, s: Socks5, buf: Bytes, full: bool): (r: (Socks5, Bytes))
    decreases |buf|
  {
    HandleUses(me, s, buf, full);
    var (s1, used) := Handle(me, s, buf, full);
    if used < 0 then (s1, [])
    else if 0 < used < |buf| then Drain(me, s1, buf[used..], full)
    else (s1, buf[used..])
  }

  /** `transport_handler`, on the state and the buffer. */
  function Received(me: Identity, s: Socks5, buf: Bytes, data: Bytes, full: bool): (Socks5, Bytes) {
    Drain(me, s, buf + data, full)
  }

  // ---- The other entry points ----

  /** `gabble_bytestream_socks5_connect_to_streamhost`, once the streamhosts are listed. */
  function ConnectToStreamhost(s: Socks5, hosts: seq<Streamhost>): Socks5 {
    Connect(s.(hosts := s.hosts + hosts, query := true))
  }

  /** `gabble_bytestream_socks5_initiate`; `listening` if there is an address to listen on. */
  function Initiate(s: Socks5, listening: bool): Socks5 {
    if s.state != Initiating then s else s.(listener := listening, phase := OfferSent)
  }

  function NewConnection(s: Socks5): Socks5 {
    SetTransport(s.(phase := AwaitingAuth))
  }

  /** The target's answer to the offer: none or an unusable one, one that names this end, or one
      that names a proxy which may be known. */
  datatype InitReply = Unusable | Direct | ByProxy(known: bool)

  function ConnectionError(s: Socks5): Socks5 {
    Affect(s, [ErrorSignal]).(state := Closed)
  }

  function InitReplied(s: Socks5, reply: InitReply): Socks5 {
    match reply
    case Unusable => ConnectionError(s)
    case ByProxy(known) =>
      if s.phase != OfferSent || !known then ConnectionError(s) else SetTransport(s.(phase := ProxyTrying))
    case Direct =>
      if s.phase != Connected then ConnectionError(s)
      else Affect(s, [OpenSignal]).(state := Open, link := s.link.(held := false))
  }

  function ActivationReplied(s: Socks5, good: bool): Socks5 {
    if !good || s.phase != ActivationSent then ConnectionError(s)
    else Affect(s, [OpenSignal]).(phase := Connected, state := Open, link := s.link.(held := false))
  }

  /** The user blocks or unblocks reading. */
  function BlockReading(s: Socks5, block: bool): Socks5 {
    if s.readBlocked == block then s
    else s.(readBlocked := block, link := if s.link.live then s.link.(held := block) else s.link)
  }
}
