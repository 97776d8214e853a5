/** A target and a listening initiator negotiate over a connection whose bytes arrive in arbitrary
    chunks, in every possible run without time-outs or disconnections. */
module Socks5Handshake {
  import opened Common
  import opened Socks5Spec
  import opened Socks5Chunks

  /** The two ends with their buffers; `tRead` of the bytes the initiator wrote have been read by
      the target, and the other way round. `told` when the target's answer to the query has reached
      the initiator. `tSent` and `iSent` are what the users sent. */
  datatype Pair = Pair(
    t: Socks5, tBuf: Bytes, tRead: nat, tSent: Bytes,
    i: Socks5, iBuf: Bytes, iRead: nat, iSent: Bytes, told: bool)

  datatype Action =
    | Established
    | TargetReads(n: nat) | InitiatorReads(n: nat)
    | Told
    | TargetSends(data: Bytes) | InitiatorSends(data: Bytes)

  /** What both ends know of the stream; the digest has 40 bytes. */
  datatype Names = Names(sha1: string -> Bytes, sid: string, initiator: string, target: string) {
    ghost predicate Valid() { forall s :: |sha1(s)| == SHA1_LENGTH }
    function Target(): Identity { IdentityOf(sha1, sid, target, initiator) }
    function Initiator(): Identity { IdentityOf(sha1, sid, initiator, target) }
  }

  /** The answer to the query, which follows the signal of success or failure. */
  function ReplyOf(s: Socks5): Option<Reply> {
    if |s.log.effects| == 2 && s.log.effects[1].QueryReply? then Some(s.log.effects[1].reply) else None
  }

  /** The target takes the next `n` bytes that the initiator wrote, and the other way round. */
  function TargetTakes(names: Names, p: Pair, n: nat): Pair
    requires p.tRead + n <= |p.i.log.written|
  {
    var (t', buf) := Received(names.Target(), p.t, p.tBuf, p.i.log.written[p.tRead..p.tRead + n], false);
    p.(t := t', tBuf := buf, tRead := p.tRead + n)
  }

  function InitiatorTakes(names: Names, p: Pair, n: nat): Pair
    requires p.iRead + n <= |p.t.log.written|
  {
    var (i', buf) := Received(names.Initiator(), p.i, p.iBuf, p.t.log.written[p.iRead..p.iRead + n], false);
    p.(i := i', iBuf := buf, iRead := p.iRead + n)
  }

  function Step(names: Names, p: Pair, act: Action): Pair {
    match act
    case Established =>
      if p.t.phase == TargetTrying then p.(t := TransportConnected(p.t)) else p
    case TargetReads(n) =>
      if 0 < n && p.tRead + n <= |p.i.log.written| && !p.t.link.held then TargetTakes(names, p, n) else p
    case InitiatorReads(n) =>
      if 0 < n && p.iRead + n <= |p.t.log.written| && !p.i.link.held then InitiatorTakes(names, p, n) else p
    case Told =>
      var reply := ReplyOf(p.t);
      if p.told || reply.None? then p
      else p.(told := true, i := InitReplied(p.i, if reply.value.Used? then Direct else Unusable))
    case TargetSends(data) =>
      if p.t.state != Open then p else p.(t := Write(p.t, data), tSent := p.tSent + data)
    case InitiatorSends(data) =>
      if p.i.state != Open then p else p.(i := Write(p.i, data), iSent := p.iSent + data)
  }

  /** The target tries the initiator first; the initiator has accepted its connection. */
  function Init(hosts: seq<Streamhost>): Pair {
    Pair(ConnectToStreamhost(NewSocks5(Accepted), hosts), [], 0, [],
         NewConnection(Initiate(NewSocks5(Initiating), true)), [], 0, [], false)
  }

  function Run(names: Names, hosts: seq<Streamhost>, acts: seq<Action>): Pair
    requires hosts != []
  {
    if acts == [] then Init(hosts)
    else Step(names, Run(names, hosts, acts[..|acts| - 1]), acts[|acts| - 1])
  }

  // ---- What each end does with a prefix of the message it waits for ----

  lemma {:induction false} AuthRequestStep(me: Identity, s: Socks5, buf: Bytes)
    requires s.phase == AwaitingAuth && buf <= Hello
    ensures Drain(me, s, buf, false)
            == if buf == Hello then (Write(s, AuthReply).(phase := AwaitingCommand), []) else (s, buf)
  {
    if |buf| == 3 {
      assert buf == Hello && buf[2..3][0] == AUTH_NONE;
      assert buf[3..] == [];
    } else {
      assert buf[0..] == buf;
    }
  }

  lemma {:induction false} AuthReplyStep(me: Identity, s: Socks5, buf: Bytes)
    requires s.phase == TargetAuthSent && buf <= AuthReply
    ensures Drain(me, s, buf, false)
            == if buf == AuthReply
               then (StartTimer(Write(s, ConnectPacket(CMD_CONNECT, me.asTarget)).(phase := TargetRequested)), [])
               else (s, buf)
  {
    if |buf| == 2 {
      assert buf == AuthReply && buf[2..] == [];
    } else {
      assert buf[0..] == buf;
    }
  }

  lemma {:induction false} PacketBytes(code: Byte, domain: Bytes, buf: Bytes)
    requires |domain| == SHA1_LENGTH && buf <= ConnectPacket(code, domain) && |buf| >= MIN_LENGTH
    ensures buf[0] == VERSION && buf[1] == code && buf[2] == RESERVED && buf[3] == ATYP_DOMAIN && buf[4] == SHA1_LENGTH
    ensures |buf| == 47 ==> buf[45] == 0 && buf[46] == 0 && buf[5..45] == domain
    ensures |buf| <= 47 && (|buf| == 47 ==> buf == ConnectPacket(code, domain))
  {
  }

  lemma {:induction false} CommandStep(me: Identity, s: Socks5, buf: Bytes)
    requires s.phase == AwaitingCommand && me.Valid() && buf <= ConnectPacket(CMD_CONNECT, me.asInitiator)
    ensures Drain(me, s, buf, false)
            == if buf == ConnectPacket(CMD_CONNECT, me.asInitiator) then (CommandAccepted(me, s), []) else (s, buf)
  {
    assert buf[0..] == buf;
    if |buf| >= MIN_LENGTH {
      PacketBytes(CMD_CONNECT, me.asInitiator, buf);
      assert |buf| == 47 ==> buf[47..] == [];
    }
  }

  lemma {:induction false} ReplyStep(me: Identity, s: Socks5, domain: Bytes, buf: Bytes)
    requires s.phase == TargetRequested && |domain| == SHA1_LENGTH && buf <= ConnectPacket(STATUS_OK, domain)
    ensures Drain(me, s, buf, false)
            == if buf == ConnectPacket(STATUS_OK, domain) then (TargetGotReply(s.(timer := false)), []) else (s, buf)
  {
    assert buf[0..] == buf;
    if |buf| >= MIN_LENGTH {
      PacketBytes(STATUS_OK, domain, buf);
      assert |buf| == 47 ==> buf[47..] == [];
    }
  }

  // ---- The invariant ----

  /** The bytes the target has written by the time it is in a phase. */
  function TargetWrote(phase: Phase, domain: Bytes, sent: Bytes): Bytes {
    if phase == TargetTrying then []
    else if phase == TargetAuthSent then Hello
    else Hello + ConnectPacket(CMD_CONNECT, domain) + sent
  }

  function InitiatorWrote(phase: Phase, domain: Bytes, sent: Bytes): Bytes {
    if phase == AwaitingAuth then []
    else if phase == AwaitingCommand then AuthReply
    else AuthReply + ConnectPacket(STATUS_OK, domain) + sent
  }

  ghost predicate TargetSide(t: Socks5, buf: Bytes, read: nat, sent: Bytes, domain: Bytes, from: Bytes) {
    && t.failed.None? && t.link.live && !t.link.held && !t.readBlocked && t.hosts != []
    && t.log.written == TargetWrote(t.phase, domain, sent)
    && read <= |from|
    && (t.timer <==> t.phase == TargetTrying || t.phase == TargetRequested)
    && (match t.phase
        case TargetTrying => read == 0 && buf == []
        case TargetAuthSent => read < 2 && buf == from[..read]
        case TargetRequested => 2 <= read < 49 && buf == from[2..read]
        case Connected => 49 <= read && buf == [] && t.log.emitted == from[49..read]
        case _ => false)
    && (if t.phase == Connected then t.state == Open && t.log.effects == [OpenSignal, QueryReply(Used(t.hosts[0].jid))]
        else t.state == Accepted && t.log.effects == [] && sent == [] && t.log.emitted == [])
  }

  ghost predicate InitiatorSide(
    i: Socks5, buf: Bytes, read: nat, sent: Bytes, told: bool, domain: Bytes, from: Bytes)
  {
    && i.failed.None? && i.link.live && (i.listener <==> i.phase != Connected)
    && i.log.written == InitiatorWrote(i.phase, domain, sent)
    && read <= |from|
    && (match i.phase
        case AwaitingAuth => read < 3 && buf == from[..read]
        case AwaitingCommand => 3 <= read < 50 && buf == from[3..read]
        case Connected => 50 <= read && buf == [] && i.log.emitted == from[50..read]
        case _ => false)
    && (i.link.held <==> i.phase == Connected && !told)
    && (told ==> i.phase == Connected)
    && (if told then i.state == Open else i.state == Initiating && sent == [])
    && (i.phase != Connected ==> i.log.emitted == [])
  }

  ghost predicate Inv(p: Pair, domain: Bytes) {
    && |domain| == SHA1_LENGTH
    && TargetSide(p.t, p.tBuf, p.tRead, p.tSent, domain, p.i.log.written)
    && InitiatorSide(p.i, p.iBuf, p.iRead, p.iSent, p.told, domain, p.t.log.written)
    && (p.told ==> p.t.phase == Connected)
  }

  function Domain(names: Names): Bytes {
    ComputeDomain(names.sha1, names.sid, names.initiator, names.target)
  }

  // ---- Each step keeps it ----

  lemma {:induction false} WroteMore(phase: Phase, domain: Bytes, sent: Bytes, data: Bytes)
    requires phase == Connected
    ensures TargetWrote(phase, domain, sent + data) == TargetWrote(phase, domain, sent) + data
    ensures InitiatorWrote(phase, domain, sent + data) == InitiatorWrote(phase, domain, sent) + data
  {
    var front := Hello + ConnectPacket(CMD_CONNECT, domain);
    var front' := AuthReply + ConnectPacket(STATUS_OK, domain);
    assert front + (sent + data) == front + sent + data;
    assert front' + (sent + data) == front' + sent + data;
  }

  /** What was read does not change when more is written. */
  lemma {:induction false} TargetSideMore(t: Socks5, buf: Bytes, read: nat, sent: Bytes, domain: Bytes, from: Bytes, more: Bytes)
    requires TargetSide(t, buf, read, sent, domain, from)
    ensures TargetSide(t, buf, read, sent, domain, from + more)
  {
    var all := from + more;
    assert all[..read] == from[..read];
    assert read >= 2 ==> all[2..read] == from[2..read];
    assert read >= 49 ==> all[49..read] == from[49..read];
  }

  lemma {:induction false} InitiatorSideMore(
    i: Socks5, buf: Bytes, read: nat, sent: Bytes, told: bool, domain: Bytes, from: Bytes, more: Bytes)
    requires InitiatorSide(i, buf, read, sent, told, domain, from)
    ensures InitiatorSide(i, buf, read, sent, told, domain, from + more)
  {
    var all := from + more;
    assert all[..read] == from[..read];
    assert read >= 3 ==> all[3..read] == from[3..read];
    assert read >= 50 ==> all[50..read] == from[50..read];
  }

  lemma {:induction false} EstablishedKeeps(p: Pair, domain: Bytes)
    requires Inv(p, domain) && p.t.phase == TargetTrying
    ensures Inv(p.(t := TransportConnected(p.t)), domain)
  {
    var t' := TransportConnected(p.t);
    assert [] + Hello == Hello;
    InitiatorSideMore(p.i, p.iBuf, p.iRead, p.iSent, p.told, domain, p.t.log.written, Hello);
    assert p.i.log.written[..0] == [];
  }

  lemma {:induction false} TargetSendsKeeps(p: Pair, domain: Bytes, data: Bytes)
    requires Inv(p, domain) && p.t.state == Open
    ensures Inv(p.(t := Write(p.t, data), tSent := p.tSent + data), domain)
  {
    WroteMore(p.t.phase, domain, p.tSent, data);
    InitiatorSideMore(p.i, p.iBuf, p.iRead, p.iSent, p.told, domain, p.t.log.written, data);
  }

  lemma {:induction false} InitiatorSendsKeeps(p: Pair, domain: Bytes, data: Bytes)
    requires Inv(p, domain) && p.i.state == Open
    ensures Inv(p.(i := Write(p.i, data), iSent := p.iSent + data), domain)
  {
    WroteMore(p.i.phase, domain, p.iSent, data);
    TargetSideMore(p.t, p.tBuf, p.tRead, p.tSent, domain, p.i.log.written, data);
  }

  lemma {:induction false} ToldKeeps(p: Pair, domain: Bytes)
    requires Inv(p, domain) && !p.told && ReplyOf(p.t).Some?
    ensures ReplyOf(p.t).value.Used?
    ensures Inv(p.(told := true, i := InitReplied(p.i, Direct)), domain)
  {
    assert |p.i.log.written| >= 49;
  }

  lemma {:induction false} Chunk(from: Bytes, k: nat, read: nat, n: nat)
    requires k <= read && read + n <= |from|
    ensures from[k..read] + from[read..read + n] == from[k..read + n]
  {
  }

  /** As long as the initiator has not connected, it has written nothing beyond what the target
      waits for. */
  lemma {:induction false} TargetReadsAuth(names: Names, p: Pair, n: nat)
    requires names.Valid() && Inv(p, Domain(names)) && p.t.phase == TargetAuthSent
    requires 0 < n && p.tRead + n <= |p.i.log.written|
    ensures Inv(TargetTakes(names, p, n), Domain(names))
  {
    var me, domain := names.Target(), Domain(names);
    var from, read := p.i.log.written, p.tRead + n;
    Chunk(from, 0, p.tRead, n);
    assert from == AuthReply;
    var buf := p.tBuf + from[p.tRead..read];
    assert buf == from[..read];
    AuthReplyStep(me, p.t, buf);
    if read == 2 {
      assert from[2..2] == [];
      assert Hello + ConnectPacket(CMD_CONNECT, domain) == TargetWrote(TargetRequested, domain, []);
      InitiatorSideMore(p.i, p.iBuf, p.iRead, p.iSent, p.told, domain, p.t.log.written,
                        ConnectPacket(CMD_CONNECT, domain));
    }
  }

  /** The target has read the whole reply. */
  lemma {:induction false} ReplyKeeps(p: Pair, domain: Bytes)
    requires Inv(p, domain) && p.t.phase == TargetRequested && |p.i.log.written| == 49
    ensures Inv(p.(t := TargetGotReply(p.t.(timer := false)), tBuf := [], tRead := 49), domain)
  {
    assert p.i.log.written[49..49] == [];
  }

  lemma {:induction false} TargetReadsReply(names: Names, p: Pair, n: nat)
    requires names.Valid() && Inv(p, Domain(names)) && p.t.phase == TargetRequested
    requires 0 < n && p.tRead + n <= |p.i.log.written|
    ensures Inv(TargetTakes(names, p, n), Domain(names))
  {
    var domain := Domain(names);
    var from, read := p.i.log.written, p.tRead + n;
    var packet := ConnectPacket(STATUS_OK, domain);
    Chunk(from, 2, p.tRead, n);
    assert from == AuthReply + packet;
    var buf := p.tBuf + from[p.tRead..read];
    assert buf == packet[..read - 2];
    ReplyStep(names.Target(), p.t, domain, buf);
    if read == 49 {
      assert buf == packet;
      ReplyKeeps(p, domain);
    } else {
      assert |buf| < |packet|;
    }
  }

  /** The target has read more data. */
  lemma {:induction false} TargetDataKeeps(p: Pair, domain: Bytes, read: nat)
    requires Inv(p, domain) && p.t.phase == Connected && p.tRead <= read <= |p.i.log.written|
    ensures Inv(p.(t := Swallow(p.t, p.i.log.written[p.tRead..read]), tRead := read), domain)
  {
    Chunk(p.i.log.written, 49, p.tRead, read - p.tRead);
  }

  lemma {:induction false} TargetReadsData(names: Names, p: Pair, n: nat)
    requires names.Valid() && Inv(p, Domain(names)) && p.t.phase == Connected
    requires 0 < n && p.tRead + n <= |p.i.log.written|
    ensures Inv(TargetTakes(names, p, n), Domain(names))
  {
    var chunk := p.i.log.written[p.tRead..p.tRead + n];
    TargetDataKeeps(p, Domain(names), p.tRead + n);
    assert p.tBuf == [] && p.tBuf + chunk == chunk;
    DrainAll(names.Target(), p.t, chunk, false);
  }

  lemma {:induction false} InitiatorReadsAuth(names: Names, p: Pair, n: nat)
    requires names.Valid() && Inv(p, Domain(names)) && p.i.phase == AwaitingAuth
    requires 0 < n && p.iRead + n <= |p.t.log.written|
    ensures Inv(InitiatorTakes(names, p, n), Domain(names))
  {
    var me, domain := names.Initiator(), Domain(names);
    var from, read := p.t.log.written, p.iRead + n;
    Chunk(from, 0, p.iRead, n);
    assert from == Hello;
    var buf := p.iBuf + from[p.iRead..read];
    assert buf == from[..read];
    AuthRequestStep(me, p.i, buf);
    if read == 3 {
      assert from[3..3] == [];
      assert [] + AuthReply == AuthReply;
      TargetSideMore(p.t, p.tBuf, p.tRead, p.tSent, domain, p.i.log.written, AuthReply);
    }
  }

  /** The initiator has read the whole command. */
  lemma {:induction false} CommandKeeps(me: Identity, p: Pair, domain: Bytes)
    requires Inv(p, domain) && p.i.phase == AwaitingCommand && me.asInitiator == domain
    requires p.t.log.written == Hello + ConnectPacket(CMD_CONNECT, domain)
    ensures Inv(p.(i := CommandAccepted(me, p.i), iBuf := [], iRead := 50), domain)
  {
    var packet := ConnectPacket(STATUS_OK, domain);
    assert p.t.log.written[50..50] == [];
    assert AuthReply + packet == InitiatorWrote(Connected, domain, []);
    TargetSideMore(p.t, p.tBuf, p.tRead, p.tSent, domain, p.i.log.written, packet);
  }

  lemma {:induction false} InitiatorReadsCommand(names: Names, p: Pair, n: nat)
    requires names.Valid() && Inv(p, Domain(names)) && p.i.phase == AwaitingCommand
    requires 0 < n && p.iRead + n <= |p.t.log.written|
    ensures Inv(InitiatorTakes(names, p, n), Domain(names))
  {
    var me, domain := names.Initiator(), Domain(names);
    var from, read := p.t.log.written, p.iRead + n;
    var packet := ConnectPacket(CMD_CONNECT, domain);
    Chunk(from, 3, p.iRead, n);
    assert from == Hello + packet;
    var buf := p.iBuf + from[p.iRead..read];
    assert buf == packet[..read - 3];
    CommandStep(me, p.i, buf);
    if read == 50 {
      assert buf == packet;
      CommandKeeps(me, p, domain);
    } else {
      assert |buf| < |packet|;
    }
  }

  lemma {:induction false} InitiatorDataKeeps(p: Pair, domain: Bytes, read: nat)
    requires Inv(p, domain) && p.i.phase == Connected && p.iRead <= read <= |p.t.log.written|
    ensures Inv(p.(i := Swallow(p.i, p.t.log.written[p.iRead..read]), iRead := read), domain)
  {
    Chunk(p.t.log.written, 50, p.iRead, read - p.iRead);
  }

  lemma {:induction false} InitiatorReadsData(names: Names, p: Pair, n: nat)
    requires names.Valid() && Inv(p, Domain(names)) && p.i.phase == Connected && p.told
    requires 0 < n && p.iRead + n <= |p.t.log.written|
    ensures Inv(InitiatorTakes(names, p, n), Domain(names))
  {
    var chunk := p.t.log.written[p.iRead..p.iRead + n];
    InitiatorDataKeeps(p, Domain(names), p.iRead + n);
    assert p.iBuf == [] && p.iBuf + chunk == chunk;
    DrainAll(names.Initiator(), p.i, chunk, false);
  }

  lemma {:induction false} TargetReadKeeps(names: Names, p: Pair, n: nat)
    requires names.Valid() && Inv(p, Domain(names)) && 0 < n && p.tRead + n <= |p.i.log.written|
    ensures Inv(TargetTakes(names, p, n), Domain(names))
  {
    if p.t.phase == TargetAuthSent { TargetReadsAuth(names, p, n); }
    else if p.t.phase == TargetRequested { TargetReadsReply(names, p, n); }
    else if p.t.phase == Connected { TargetReadsData(names, p, n); }
    else { NothingToRead(p, Domain(names)); }
  }

  lemma {:induction false} InitiatorReadKeeps(names: Names, p: Pair, n: nat)
    requires names.Valid() && Inv(p, Domain(names)) && 0 < n && p.iRead + n <= |p.t.log.written| && !p.i.link.held
    ensures Inv(InitiatorTakes(names, p, n), Domain(names))
  {
    if p.i.phase == AwaitingAuth { InitiatorReadsAuth(names, p, n); }
    else if p.i.phase == AwaitingCommand { InitiatorReadsCommand(names, p, n); }
    else { InitiatorReadsData(names, p, n); }
  }

  lemma {:induction false} StepKeeps(names: Names, p: Pair, act: Action)
    requires names.Valid() && Inv(p, Domain(names))
    ensures Inv(Step(names, p, act), Domain(names))
  {
    match act
    case Established => if p.t.phase == TargetTrying { EstablishedKeeps(p, Domain(names)); }
    case TargetReads(n) =>
      if 0 < n && p.tRead + n <= |p.i.log.written| { TargetReadKeeps(names, p, n); }
    case InitiatorReads(n) =>
      if 0 < n && p.iRead + n <= |p.t.log.written| && !p.i.link.held { InitiatorReadKeeps(names, p, n); }
    case Told => if !p.told && ReplyOf(p.t).Some? { ToldKeeps(p, Domain(names)); }
    case TargetSends(data) => if p.t.state == Open { TargetSendsKeeps(p, Domain(names), data); }
    case InitiatorSends(data) => if p.i.state == Open { InitiatorSendsKeeps(p, Domain(names), data); }
  }

  lemma {:induction false} NothingToRead(p: Pair, domain: Bytes)
    requires Inv(p, domain) && p.t.phase == TargetTrying
    ensures p.i.log.written == []
  {
  }

  lemma {:induction false} RunKeeps(names: Names, hosts: seq<Streamhost>, acts: seq<Action>)
    requires names.Valid() && hosts != []
    ensures Inv(Run(names, hosts, acts), Domain(names))
    decreases |acts|
  {
    if acts != [] {
      RunKeeps(names, hosts, acts[..|acts| - 1]);
      StepKeeps(names, Run(names, hosts, acts[..|acts| - 1]), acts[|acts| - 1]);
    } else {
      InitInv(hosts, Domain(names));
    }
  }

  lemma {:induction false} InitInv(hosts: seq<Streamhost>, domain: Bytes)
    requires hosts != [] && |domain| == SHA1_LENGTH
    ensures Inv(Init(hosts), domain)
  {
    var none: seq<Streamhost> := [];
    assert none + hosts == hosts;
  }

  // ---- What every run guarantees ----

  /** Neither end ever fails; no byte of the handshake is taken for data, and the data sent is, in
      order, what the other user has received and what is still to be read. */
  lemma {:induction false} HandshakeSafe(names: Names, hosts: seq<Streamhost>, acts: seq<Action>)
    requires names.Valid() && hosts != []
    ensures var p := Run(names, hosts, acts);
            && p.t.failed.None? && p.i.failed.None? && p.t.phase != Error && p.i.phase != Error
            && p.tRead <= |p.i.log.written| && p.iRead <= |p.t.log.written|
            && (p.i.phase == Connected ==> p.tSent == p.i.log.emitted + p.t.log.written[p.iRead..])
            && (p.i.phase != Connected ==> p.tSent == [] && p.i.log.emitted == [])
            && (p.t.phase == Connected ==> p.iSent == p.t.log.emitted + p.i.log.written[p.tRead..])
            && (p.t.phase != Connected ==> p.iSent == [] && p.t.log.emitted == [])
  {
    RunKeeps(names, hosts, acts);
    var p := Run(names, hosts, acts);
    if p.i.phase == Connected {
      TargetFront(p, Domain(names));
      DataSplit(p.t.log.written, 50, p.iRead, p.tSent);
    }
    if p.t.phase == Connected {
      InitiatorFront(p, Domain(names));
      DataSplit(p.i.log.written, 49, p.tRead, p.iSent);
    }
  }

  /** Once the initiator has connected, what the target wrote is its part of the handshake and data. */
  lemma {:induction false} TargetFront(p: Pair, domain: Bytes)
    requires Inv(p, domain) && p.i.phase == Connected
    ensures |p.t.log.written| >= 50 && p.t.log.written[50..] == p.tSent
  {
    assert (Hello + ConnectPacket(CMD_CONNECT, domain) + p.tSent)[50..] == p.tSent;
  }

  lemma {:induction false} InitiatorFront(p: Pair, domain: Bytes)
    requires Inv(p, domain) && p.t.phase == Connected
    ensures |p.i.log.written| >= 49 && p.i.log.written[49..] == p.iSent
  {
    assert (AuthReply + ConnectPacket(STATUS_OK, domain) + p.iSent)[49..] == p.iSent;
  }

  lemma {:induction false} DataSplit(all: Bytes, k: nat, read: nat, data: Bytes)
    requires k <= read <= |all| && all[k..] == data
    ensures data == all[k..read] + all[read..]
  {
  }

  /** Nothing is left to happen: the connection is up, every byte that may be read has been, and the
      answer to the query has arrived. */
  predicate Quiet(p: Pair) {
    && p.t.phase != TargetTrying
    && (p.tRead == |p.i.log.written| || p.t.link.held)
    && (p.iRead == |p.t.log.written| || p.i.link.held)
    && (ReplyOf(p.t).None? || p.told)
  }

  /** The negotiation cannot get stuck, and consumes exactly 49 and 50 bytes. */
  lemma {:induction false} HandshakeCompletes(names: Names, hosts: seq<Streamhost>, acts: seq<Action>)
    requires names.Valid() && hosts != [] && Quiet(Run(names, hosts, acts))
    ensures var p := Run(names, hosts, acts);
            && p.t.phase == Connected && p.i.phase == Connected && p.t.state == Open && p.i.state == Open
            && p.i.log.emitted == p.tSent && p.t.log.emitted == p.iSent
            && |p.t.log.written| == 50 + |p.tSent| && |p.i.log.written| == 49 + |p.iSent|
            && p.t.hosts != [] && ReplyOf(p.t) == Some(Used(p.t.hosts[0].jid))
  {
    RunKeeps(names, hosts, acts);
    HandshakeSafe(names, hosts, acts);
    QuietConnected(Run(names, hosts, acts), Domain(names));
  }

  lemma {:induction false} QuietConnected(p: Pair, domain: Bytes)
    requires Inv(p, domain) && Quiet(p)
    ensures p.t.phase == Connected && p.i.phase == Connected && p.told && !p.i.link.held
    ensures |p.t.log.written| == 50 + |p.tSent| && |p.i.log.written| == 49 + |p.iSent|
  {
  }
}
