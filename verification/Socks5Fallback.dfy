/** The life of one SOCKS5 stream, as the target that tries streamhosts in turn or as the
    initiator, in every possible run: timers, answers and assertions. */
module Socks5Fallback {
  import opened Common
  import opened Socks5Spec

  /** A stream, the streamhosts it was offered (as a target), whether it is waiting for the answer
      to its offer and whether it went through a proxy (as an initiator). */
  datatype Stream = Stream(
    target: bool, s: Socks5, buf: Bytes, offered: seq<Streamhost>, awaiting: bool, proxied: bool)

  datatype Event =
    | Query(hosts: seq<Streamhost>)
    | Offer(listening: bool) | Incoming | Answered(reply: InitReply) | Activated(good: bool)
    | Established | Lost | TimedOut | Data(bytes: Bytes)
    | UserClose | UserBlock(block: bool) | Unsent(unsent: bool) | Flushed

  predicate Trying(p: Phase) { p == TargetTrying || p == ProxyTrying }

  /** A stream that is closed is disposed of; a failed assertion ends the process. A target gets one
      query; a listener with a connection gets no second one. */
  predicate Enabled(st: Stream, ev: Event) {
    var s := st.s;
    s.state != Closed && s.failed.None? &&
    match ev
    case Query(_) => st.target && s.phase == Invalid
    case Offer(_) => !st.target && s.phase == Invalid
    case Incoming => !st.target && s.listener && !s.link.live
    case Answered(_) => !st.target && st.awaiting
    case Activated(_) => !st.target && st.proxied
    case Established => s.link.live && Trying(s.phase)
    case Lost => s.link.live
    case TimedOut => s.timer
    case Data(_) => s.link.live && !s.link.held && !Trying(s.phase)
    case UserClose => true
    case UserBlock(_) => true
    case Unsent(_) => s.link.live
    case Flushed => s.link.live
  }

  function Apply(me: Identity, st: Stream, ev: Event): Stream {
    var s := st.s;
    match ev
    case Query(hosts) => st.(s := ConnectToStreamhost(s, hosts), offered := hosts, buf := [])
    case Offer(listening) => st.(s := Initiate(s, listening), awaiting := true)
    case Incoming => st.(s := NewConnection(s), buf := [])
    case Answered(reply) =>
      st.(s := InitReplied(s, reply), awaiting := false, proxied := st.proxied || reply.ByProxy?)
    case Activated(good) => st.(s := ActivationReplied(s, good))
    case Established => st.(s := TransportConnected(s))
    case Lost => st.(s := TransportDisconnected(s), buf := [])
    case TimedOut => st.(s := Fail(s), buf := [])
    case Data(bytes) => var (s', buf') := Received(me, s, st.buf, bytes, false); st.(s := s', buf := buf')
    case UserClose => st.(s := Close(s))
    case UserBlock(block) => st.(s := BlockReading(s, block))
    case Unsent(unsent) => st.(s := s.(link := s.link.(unsent := unsent)))
    case Flushed => st.(s := TransportBufferEmpty(s.(link := s.link.(unsent := false))))
  }

  function Step(me: Identity, st: Stream, ev: Event): Stream {
    if Enabled(st, ev) then Apply(me, st, ev) else st
  }

  function Init(target: bool): Stream {
    Stream(target, NewSocks5(if target then Accepted else Initiating), [], [], false, false)
  }

  function Run(me: Identity, target: bool, evs: seq<Event>): Stream {
    if evs == [] then Init(target) else Step(me, Run(me, target, evs[..|evs| - 1]), evs[|evs| - 1])
  }

  // ---- Failing ----

  /** A failed attempt shortens the list of streamhosts, whatever else happens. */
  lemma {:induction false} FailShortens(s: Socks5)
    requires TargetPhase(s.phase) && s.hosts != []
    ensures Fail(s).hosts == s.hosts[1..]
    ensures |s.hosts| > 1 ==> Fail(s).phase == TargetTrying && Fail(s).log.tried == s.log.tried + [s.hosts[1]]
    ensures |s.hosts| == 1 ==>
              Fail(s).phase == Error && Fail(s).log.effects == s.log.effects + [ErrorSignal, QueryReply(NotFound)]
  {
    FailIsNext(s);
  }

  // ---- The target ----

  /** The streamhost in use is the last one tried and heads the list of those left. */
  ghost predicate Progress(s: Socks5, offered: seq<Streamhost>) {
    && s.hosts != [] && s.log.tried != [] && s.log.tried[|s.log.tried| - 1] == s.hosts[0]
    && offered == s.log.tried + s.hosts[1..]
  }

  ghost predicate Exhausted(s: Socks5, offered: seq<Streamhost>) {
    s.hosts == [] && s.log.tried == offered && s.log.effects == [ErrorSignal, QueryReply(NotFound)]
  }

  ghost predicate Succeeded(s: Socks5, offered: seq<Streamhost>) {
    Progress(s, offered) && s.log.effects == [OpenSignal, QueryReply(Used(s.hosts[0].jid))]
  }

  ghost predicate TargetInv(s: Socks5, offered: seq<Streamhost>) {
    && s.failed.None? && s.state != LocalPending
    && (s.timer <==> s.phase == TargetTrying || s.phase == TargetRequested)
    && match s.phase
       case Invalid =>
         !s.link.live && !s.query && offered == [] && s.hosts == [] && s.log == Log([], [], [], [])
       case TargetTrying => Pending(s, offered)
       case TargetAuthSent => Pending(s, offered)
       case TargetRequested => Pending(s, offered)
       case Connected => Succeeded(s, offered)
       case Error => Succeeded(s, offered) || Exhausted(s, offered)
       case _ => false
  }

  ghost predicate Pending(s: Socks5, offered: seq<Streamhost>) {
    s.query && s.log.effects == [] && Progress(s, offered)
  }

  lemma {:induction false} GiveUpExhausts(s: Socks5, offered: seq<Streamhost>)
    requires s.failed.None? && s.state != LocalPending && Pending(s, offered) && |s.hosts| == 1
    ensures TargetInv(GiveUp(Dropped(s)), offered)
  {
    assert s.log.tried + s.hosts[1..] == s.log.tried;
    assert [] + [ErrorSignal, QueryReply(NotFound)] == [ErrorSignal, QueryReply(NotFound)];
  }

  lemma {:induction false} NextPending(s: Socks5, offered: seq<Streamhost>)
    requires s.failed.None? && s.state != LocalPending && Pending(s, offered) && |s.hosts| > 1
    ensures TargetInv(TryHost(Dropped(s).(phase := TargetTrying)), offered)
  {
    var rest := s.hosts[1..];
    assert s.log.tried + rest == s.log.tried + [rest[0]] + rest[1..];
  }

  lemma {:induction false} FailTarget(s: Socks5, offered: seq<Streamhost>)
    requires s.failed.None? && s.state != LocalPending && TargetPhase(s.phase) && Pending(s, offered)
    ensures TargetInv(Fail(s), offered) && Fail(s).phase != Invalid
  {
    FailIsNext(s);
    if |s.hosts| > 1 { NextPending(s, offered); } else { GiveUpExhausts(s, offered); }
  }

  lemma {:induction false} FailConnected(s: Socks5, offered: seq<Streamhost>)
    requires s.failed.None? && s.state != LocalPending && (s.phase == Connected || s.phase == Error)
    requires Succeeded(s, offered) || Exhausted(s, offered)
    ensures TargetInv(Fail(s), offered) && Fail(s).phase != Invalid
  {
    var s' := FailClosed(s);
    assert Succeeded(s, offered) ==> Succeeded(s', offered);
    assert Exhausted(s, offered) ==> Exhausted(s', offered);
  }

  lemma {:induction false} FailClosed(s: Socks5) returns (s': Socks5)
    requires s.state != LocalPending && (s.phase == Connected || s.phase == Error)
    ensures s' == Fail(s) && s'.phase == Error && !s'.timer && s'.state != LocalPending
    ensures s'.hosts == s.hosts && s'.log == s.log && s'.failed == s.failed
  {
    s' := Fail(s);
  }

  lemma {:induction false} FailKeepsTarget(s: Socks5, offered: seq<Streamhost>)
    requires TargetInv(s, offered) && s.phase != Invalid
    ensures TargetInv(Fail(s), offered) && TargetInv(TransportDisconnected(s), offered)
    ensures Fail(s).phase != Invalid && TransportDisconnected(s).phase != Invalid
  {
    var s0 := s.(timer := false);
    if TargetPhase(s.phase) {
      FailTarget(s, offered);
      FailTarget(s0, offered);
    } else {
      FailConnected(s, offered);
      FailConnected(s0, offered);
    }
  }

  lemma {:induction false} QueryKeeps(s: Socks5, hosts: seq<Streamhost>)
    requires TargetInv(s, []) && s.phase == Invalid
    ensures TargetInv(ConnectToStreamhost(s, hosts), hosts) && ConnectToStreamhost(s, hosts).phase != Invalid
    ensures hosts != [] ==>
              && ConnectToStreamhost(s, hosts).phase == TargetTrying
              && ConnectToStreamhost(s, hosts).state == s.state && ConnectToStreamhost(s, hosts).hosts == hosts
  {
    var none: seq<Streamhost> := [];
    assert none + hosts == hosts;
    if hosts == [] {
      var s0 := s.(query := true, phase := TargetTrying);
      assert ConnectToStreamhost(s, hosts) == Fail(s0);
      FailIsNext(s0);
      assert [] + [ErrorSignal, QueryReply(NotFound)] == [ErrorSignal, QueryReply(NotFound)];
    } else {
      assert s.log.tried + [hosts[0]] + hosts[1..] == hosts;
    }
  }

  predicate TargetReads(p: Phase) { p == TargetAuthSent || p == TargetRequested || p == Connected || p == Error }

  lemma {:induction false} TargetReplied(s: Socks5, offered: seq<Streamhost>)
    requires s.failed.None? && s.state != LocalPending && !s.timer && Pending(s, offered)
    ensures TargetInv(TargetGotReply(s), offered)
  {
    var effects := [OpenSignal, QueryReply(Used(s.hosts[0].jid))];
    assert [] + effects == effects;
  }

  lemma {:induction false} HandleTarget(me: Identity, s: Socks5, buf: Bytes, offered: seq<Streamhost>)
    requires TargetInv(s, offered) && TargetReads(s.phase)
    ensures var (s1, used) := Handle(me, s, buf, false);
            TargetInv(s1, offered) && s1.phase != Invalid && (used >= 0 ==> TargetReads(s1.phase))
  {
    if s.phase == TargetAuthSent || s.phase == TargetRequested {
      FailTarget(s, offered);
      FailTarget(s.(timer := false), offered);
      TargetReplied(s.(timer := false), offered);
    }
  }

  lemma {:induction false} DrainTarget(me: Identity, s: Socks5, buf: Bytes, offered: seq<Streamhost>)
    requires TargetInv(s, offered) && TargetReads(s.phase)
    ensures TargetInv(Drain(me, s, buf, false).0, offered) && Drain(me, s, buf, false).0.phase != Invalid
    decreases |buf|
  {
    HandleTarget(me, s, buf, offered);
    HandleUses(me, s, buf, false);
    var (s1, used) := Handle(me, s, buf, false);
    if 0 < used < |buf| { DrainTarget(me, s1, buf[used..], offered); }
  }

  /** Events that concern the connection only. */
  lemma {:induction false} TargetPlain(me: Identity, st: Stream, ev: Event)
    requires st.target && TargetInv(st.s, st.offered) && Enabled(st, ev)
    requires ev.Established? || ev.UserClose? || ev.UserBlock? || ev.Unsent? || ev.Flushed?
    ensures TargetInv(Apply(me, st, ev).s, st.offered)
    ensures st.s.phase != Invalid ==> Apply(me, st, ev).s.phase != Invalid
  {
    if ev.Established? {
      assert TargetInv(TransportConnected(st.s), st.offered);
    } else {
      PlainSame(me, st, ev);
    }
  }

  lemma {:induction false} PlainSame(me: Identity, st: Stream, ev: Event)
    requires st.s.state != LocalPending && (ev.UserClose? || ev.UserBlock? || ev.Unsent? || ev.Flushed?)
    ensures var s, s' := st.s, Apply(me, st, ev).s;
            && s'.phase == s.phase && s'.timer == s.timer && s'.hosts == s.hosts && s'.query == s.query
            && s'.log == s.log && s'.failed == s.failed && s'.state != LocalPending && (s'.link.live ==> s.link.live)
  {
  }

  lemma {:induction false} TargetStep(me: Identity, st: Stream, ev: Event)
    requires st.target && TargetInv(st.s, st.offered)
    ensures var st' := Step(me, st, ev);
            && st'.target && TargetInv(st'.s, st'.offered)
            && (st.s.phase != Invalid ==> st'.s.phase != Invalid)
  {
    if Enabled(st, ev) {
      if ev.Query? { QueryKeeps(st.s, ev.hosts); }
      else if ev.Lost? || ev.TimedOut? { FailKeepsTarget(st.s, st.offered); }
      else if ev.Data? { DrainTarget(me, st.s, st.buf + ev.bytes, st.offered); }
      else { TargetPlain(me, st, ev); }
    }
  }

  lemma {:induction false} TargetRun(me: Identity, evs: seq<Event>)
    ensures var st := Run(me, true, evs); st.target && TargetInv(st.s, st.offered)
    decreases |evs|
  {
    if evs != [] {
      TargetRun(me, evs[..|evs| - 1]);
      TargetStep(me, Run(me, true, evs[..|evs| - 1]), evs[|evs| - 1]);
    }
  }

  /** In every run of a target: no assertion fails; the timer is armed exactly while it connects to a
      streamhost and while it waits for the reply to its CONNECT; the query is answered at most once,
      after success was signalled and with the streamhost in use, or after failure was signalled and
      every streamhost tried in the order offered. */
  lemma {:induction false} StreamhostFallback(me: Identity, evs: seq<Event>)
    ensures var st := Run(me, true, evs); var s := st.s;
            && s.failed.None?
            && (s.timer <==> s.phase == TargetTrying || s.phase == TargetRequested)
            && s.log.tried <= st.offered
            && (|| (s.log.effects == [] && (s.phase == Invalid || TargetPhase(s.phase)))
                || (s.log.effects == [ErrorSignal, QueryReply(NotFound)] && s.phase == Error && s.log.tried == st.offered)
                || (&& (s.phase == Connected || s.phase == Error)
                    && s.hosts != [] && s.log.tried != [] && s.log.tried[|s.log.tried| - 1] == s.hosts[0]
                    && s.log.effects == [OpenSignal, QueryReply(Used(s.hosts[0].jid))]))
  {
    TargetRun(me, evs);
  }

  // ---- The initiator ----

  predicate ProxyPhase(p: Phase) {
    p == ProxyTrying || p == ProxyAuthSent || p == ProxyRequested || p == ActivationSent
  }

  predicate NoReply(effects: seq<Effect>) {
    forall k :: 0 <= k < |effects| ==> !effects[k].QueryReply?
  }

  ghost predicate InitiatorLive(s: Socks5, proxied: bool) {
    && s.failed.None? && s.state != LocalPending
    && !TargetPhase(s.phase)
    && (s.timer <==> s.phase == ProxyRequested)
    && (ProxyPhase(s.phase) ==> proxied)
    && (s.link.live ==> s.phase != Invalid && s.phase != OfferSent)
    && (s.phase == AwaitingAuth || s.phase == AwaitingCommand ==> s.listener)
    && (s.state != Closed && ProxyPhase(s.phase) ==> s.link.live)
    && s.hosts == [] && NoReply(s.log.effects)
  }

  /** The one assertion that can fail is reached by bytes that come before the activation of a proxy. */
  ghost predicate InitiatorInv(s: Socks5, proxied: bool) {
    InitiatorLive(s, proxied) || (proxied && s.failed == Some(NotReached))
  }

  lemma {:induction false} FailOther(s: Socks5) returns (s': Socks5)
    requires !TargetPhase(s.phase) && s.state != LocalPending
    ensures s' == Fail(s) && s'.phase == Error && !s'.timer && s'.state != LocalPending
    ensures s'.hosts == s.hosts && s'.failed == s.failed && s'.listener == s.listener && s'.log == s.log
  {
    s' := Fail(s);
  }

  lemma {:induction false} FailInitiator(s: Socks5, proxied: bool)
    requires InitiatorLive(s.(timer := s.phase == ProxyRequested), proxied) && s.phase != Invalid && s.phase != OfferSent
    ensures InitiatorLive(Fail(s), proxied)
  {
    var s' := FailOther(s);
  }

  /** The phases in which a listening initiator reads, or one whose stream is open or broken. */
  predicate Listening(p: Phase) { p == AwaitingAuth || p == AwaitingCommand || p == Connected || p == Error }

  lemma {:induction false} AuthRequestKeeps(s: Socks5, buf: Bytes, proxied: bool)
    requires InitiatorLive(s, proxied) && s.phase == AwaitingAuth
    ensures var s1 := HandleAuthRequest(s, buf).0; InitiatorLive(s1, proxied) && Listening(s1.phase)
  {
    FailInitiator(s, proxied);
    var s' := FailOther(s);
  }

  lemma {:induction false} AcceptedKeeps(me: Identity, s: Socks5, proxied: bool)
    requires InitiatorLive(s, proxied) && s.phase == AwaitingCommand
    ensures var s1 := CommandAccepted(me, s); InitiatorLive(s1, proxied) && Listening(s1.phase)
  {
  }

  lemma {:induction false} CommandKeeps(me: Identity, s: Socks5, buf: Bytes, proxied: bool)
    requires InitiatorLive(s, proxied) && s.phase == AwaitingCommand
    ensures var s1 := HandleCommand(me, s, buf, false).0; InitiatorLive(s1, proxied) && Listening(s1.phase)
  {
    FailInitiator(s, proxied);
    FailInitiator(CloseTransport(s), proxied);
    var s' := FailOther(s);
    var s'' := FailOther(CloseTransport(s));
    AcceptedKeeps(me, s, proxied);
  }

  lemma {:induction false} HandleListening(me: Identity, s: Socks5, buf: Bytes, proxied: bool)
    requires InitiatorLive(s, proxied) && Listening(s.phase)
    ensures var s1 := Handle(me, s, buf, false).0; InitiatorLive(s1, proxied) && Listening(s1.phase)
  {
    if s.phase == AwaitingAuth { AuthRequestKeeps(s, buf, proxied); }
    else if s.phase == AwaitingCommand { CommandKeeps(me, s, buf, proxied); }
  }

  lemma {:induction false} DrainListening(me: Identity, s: Socks5, buf: Bytes, proxied: bool)
    requires InitiatorLive(s, proxied) && Listening(s.phase)
    ensures InitiatorLive(Drain(me, s, buf, false).0, proxied)
    decreases |buf|
  {
    HandleListening(me, s, buf, proxied);
    HandleUses(me, s, buf, false);
    var (s1, used) := Handle(me, s, buf, false);
    if 0 < used < |buf| { DrainListening(me, s1, buf[used..], proxied); }
  }

  // ---- Bytes before the activation ----

  /** A complete and good reply to CONNECT: the code uses it whole. */
  predicate GoodReply(buf: Bytes) {
    && |buf| >= MIN_LENGTH && buf[0] == VERSION && buf[1] == STATUS_OK && buf[2] == RESERVED
    && (buf[3] == ATYP_DOMAIN || buf[3] == 0)
    && |buf| % 256 >= MIN_LENGTH + ReplyAddrLen(buf)
    && buf[4 + ReplyAddrLen(buf)] == 0 && buf[5 + ReplyAddrLen(buf)] == 0
  }

  /** A good reply with something behind it. */
  predicate Overruns(buf: Bytes) {
    GoodReply(buf) && |buf| > MIN_LENGTH + ReplyAddrLen(buf)
  }

  /** The bytes that abort an initiator in a phase. */
  predicate Aborting(p: Phase, buf: Bytes) {
    match p
    case ProxyAuthSent => |buf| > 2 && buf[0] == VERSION && buf[1] == STATUS_OK && Overruns(buf[2..])
    case ProxyRequested => Overruns(buf)
    case ActivationSent => true
    case _ => false
  }

  lemma {:induction false} DrainActivating(me: Identity, s: Socks5, buf: Bytes)
    requires s.failed.None? && s.phase == ActivationSent
    ensures Drain(me, s, buf, false).0.failed == Some(NotReached)
  {
  }

  lemma {:induction false} DrainRequested(me: Identity, s: Socks5, buf: Bytes, proxied: bool)
    requires InitiatorLive(s, proxied) && s.phase == ProxyRequested
    ensures var s' := Drain(me, s, buf, false).0;
            if Overruns(buf) then s'.failed == Some(NotReached) else InitiatorLive(s', proxied)
  {
    var s0 := s.(timer := false);
    if GoodReply(buf) {
      assert Handle(me, s, buf, false) == (ProxyGotReply(s0), MIN_LENGTH + ReplyAddrLen(buf));
      if Overruns(buf) { DrainActivating(me, ProxyGotReply(s0), buf[MIN_LENGTH + ReplyAddrLen(buf)..]); }
    } else {
      FailInitiator(s, proxied);
      FailInitiator(s0, proxied);
    }
  }

  lemma {:induction false} DrainAuthSent(me: Identity, s: Socks5, buf: Bytes, proxied: bool)
    requires InitiatorLive(s, proxied) && s.phase == ProxyAuthSent
    ensures var s' := Drain(me, s, buf, false).0;
            if Aborting(ProxyAuthSent, buf) then s'.failed == Some(NotReached) else InitiatorLive(s', proxied)
  {
    FailInitiator(s, proxied);
    if |buf| >= 2 && buf[0] == VERSION && buf[1] == STATUS_OK {
      var s1 := Handle(me, s, buf, false).0;
      assert s1.phase == ProxyRequested && InitiatorLive(s1, proxied);
      if |buf| > 2 { DrainRequested(me, s1, buf[2..], proxied); }
    }
  }

  /** Bytes that reach an initiator abort it if and only if they include something behind a proxy's
      reply, or come while the activation is awaited. */
  lemma {:induction false} BytesBeforeActivation(me: Identity, s: Socks5, buf: Bytes, proxied: bool)
    requires InitiatorLive(s, proxied) && (Listening(s.phase) || (ProxyPhase(s.phase) && s.phase != ProxyTrying))
    ensures var s' := Drain(me, s, buf, false).0;
            if Aborting(s.phase, buf) then s'.failed == Some(NotReached) else InitiatorLive(s', proxied)
  {
    match s.phase
    case ProxyAuthSent => DrainAuthSent(me, s, buf, proxied);
    case ProxyRequested => DrainRequested(me, s, buf, proxied);
    case ActivationSent => DrainActivating(me, s, buf);
    case _ => DrainListening(me, s, buf, proxied);
  }

  // ---- Every run of an initiator ----

  lemma {:induction false} NoReplySnoc(effects: seq<Effect>, e: Effect)
    requires NoReply(effects) && !e.QueryReply?
    ensures NoReply(effects + [e])
  {
  }

  lemma {:induction false} AnswerKeeps(s: Socks5, reply: InitReply, proxied: bool)
    requires InitiatorLive(s, proxied) && s.state != Closed
    ensures InitiatorLive(InitReplied(s, reply), proxied || reply.ByProxy?)
  {
    NoReplySnoc(s.log.effects, ErrorSignal);
    NoReplySnoc(s.log.effects, OpenSignal);
  }

  lemma {:induction false} ActivationKeeps(s: Socks5, good: bool, proxied: bool)
    requires InitiatorLive(s, proxied) && s.state != Closed
    ensures InitiatorLive(ActivationReplied(s, good), proxied)
  {
    NoReplySnoc(s.log.effects, ErrorSignal);
    NoReplySnoc(s.log.effects, OpenSignal);
  }

  lemma {:induction false} OfferKeeps(s: Socks5, listening: bool, proxied: bool)
    requires InitiatorLive(s, proxied) && s.phase == Invalid
    ensures InitiatorLive(Initiate(s, listening), proxied)
  {
  }

  lemma {:induction false} IncomingKeeps(s: Socks5, proxied: bool)
    requires InitiatorLive(s, proxied) && s.state != Closed && s.listener && !s.link.live
    ensures InitiatorLive(NewConnection(s), proxied)
  {
  }

  lemma {:induction false} InitiatorNew(me: Identity, st: Stream, ev: Event)
    requires !st.target && InitiatorLive(st.s, st.proxied) && Enabled(st, ev)
    requires ev.Offer? || ev.Incoming? || ev.Answered? || ev.Activated?
    ensures InitiatorLive(Apply(me, st, ev).s, Apply(me, st, ev).proxied)
  {
    match ev
    case Offer(listening) => OfferKeeps(st.s, listening, st.proxied);
    case Incoming => IncomingKeeps(st.s, st.proxied);
    case Answered(reply) => AnswerKeeps(st.s, reply, st.proxied);
    case Activated(good) => ActivationKeeps(st.s, good, st.proxied);
  }

  lemma {:induction false} ClosedKeeps(s: Socks5, proxied: bool)
    requires InitiatorLive(s, proxied)
    ensures InitiatorLive(Close(s), proxied) && InitiatorLive(TransportBufferEmpty(s), proxied)
  {
  }

  lemma {:induction false} InitiatorPlain(me: Identity, st: Stream, ev: Event)
    requires !st.target && InitiatorLive(st.s, st.proxied) && Enabled(st, ev)
    requires ev.Established? || ev.UserClose? || ev.UserBlock? || ev.Unsent? || ev.Flushed?
    ensures InitiatorLive(Apply(me, st, ev).s, st.proxied)
  {
    if ev.UserClose? {
      ClosedKeeps(st.s, st.proxied);
    } else if ev.Flushed? {
      ClosedKeeps(st.s.(link := st.s.link.(unsent := false)), st.proxied);
    }
  }

  lemma {:induction false} InitiatorLost(me: Identity, st: Stream, ev: Event)
    requires !st.target && InitiatorLive(st.s, st.proxied) && Enabled(st, ev)
    requires ev.Lost? || ev.TimedOut?
    ensures InitiatorLive(Apply(me, st, ev).s, st.proxied)
  {
    FailInitiator(if ev.Lost? then st.s.(timer := false) else st.s, st.proxied);
  }

  /** One event: it aborts the initiator or keeps what is known of it. */
  lemma {:induction false} InitiatorApply(me: Identity, st: Stream, ev: Event)
    requires !st.target && InitiatorLive(st.s, st.proxied) && Enabled(st, ev)
    ensures var st' := Apply(me, st, ev);
            if ev.Data? && Aborting(st.s.phase, st.buf + ev.bytes) then st'.s.failed == Some(NotReached) && st'.proxied
            else InitiatorLive(st'.s, st'.proxied)
  {
    if ev.Data? { BytesBeforeActivation(me, st.s, st.buf + ev.bytes, st.proxied); }
    else if ev.Lost? || ev.TimedOut? { InitiatorLost(me, st, ev); }
    else if ev.Offer? || ev.Incoming? || ev.Answered? || ev.Activated? { InitiatorNew(me, st, ev); }
    else { InitiatorPlain(me, st, ev); }
  }

  lemma {:induction false} InitiatorRun(me: Identity, evs: seq<Event>)
    ensures var st := Run(me, false, evs); !st.target && InitiatorInv(st.s, st.proxied)
    decreases |evs|
  {
    if evs != [] {
      var st, ev := Run(me, false, evs[..|evs| - 1]), evs[|evs| - 1];
      InitiatorRun(me, evs[..|evs| - 1]);
      if Enabled(st, ev) { InitiatorApply(me, st, ev); }
    }
  }

  /** In every run of an initiator: the timer is armed exactly while it waits for a proxy's reply,
      it never answers a query, and no assertion fails unless a proxy was used; then only the one on
      bytes received before the activation. */
  lemma {:induction false} InitiatorSafe(me: Identity, evs: seq<Event>)
    ensures var st := Run(me, false, evs); var s := st.s;
            && (s.failed.None? ==> (s.timer <==> s.phase == ProxyRequested))
            && (s.failed.None? || (st.proxied && s.failed == Some(NotReached)))
            && (s.failed.None? ==> NoReply(s.log.effects))
  {
    InitiatorRun(me, evs);
  }

  lemma {:induction false} RunSnoc(me: Identity, target: bool, evs: seq<Event>, ev: Event)
    ensures Run(me, target, evs + [ev]) == Step(me, Run(me, target, evs), ev)
  {
    assert (evs + [ev])[..|evs|] == evs;
  }

  /** Exactly when a run goes on to an abort: the next event brings such bytes. */
  lemma {:induction false} AbortsIff(me: Identity, evs: seq<Event>, ev: Event)
    requires Run(me, false, evs).s.failed.None?
    ensures var st := Run(me, false, evs);
            Run(me, false, evs + [ev]).s.failed.Some?
            <==> ev.Data? && Enabled(st, ev) && Aborting(st.s.phase, st.buf + ev.bytes)
  {
    RunSnoc(me, false, evs, ev);
    InitiatorRun(me, evs);
    var st := Run(me, false, evs);
    if Enabled(st, ev) { InitiatorApply(me, st, ev); }
  }

  /** The shortest reply, of 6 bytes without a domain, and one byte more. */
  const ShortReply: Bytes := [VERSION, STATUS_OK, RESERVED, 0, 0, 0]

  /** No address to listen on, the target reached a known proxy, and the proxy is there. */
  lemma {:induction false} ProxyReached(me: Identity) returns (evs: seq<Event>)
    ensures Taking(Run(me, false, evs), ProxyAuthSent)
  {
    evs := [];
    RunSnoc(me, false, evs, Offer(false));
    evs := evs + [Offer(false)];
    assert Run(me, false, evs).s.phase == OfferSent && Run(me, false, evs).awaiting;
    RunSnoc(me, false, evs, Answered(ByProxy(true)));
    evs := evs + [Answered(ByProxy(true))];
    assert Run(me, false, evs).s.phase == ProxyTrying && Run(me, false, evs).s.link.live;
    RunSnoc(me, false, evs, Established);
    evs := evs + [Established];
  }

  lemma {:induction false} OneTooMany(extra: Byte)
    ensures Aborting(ProxyAuthSent, AuthReply + (ShortReply + [extra]))
  {
    var bytes := AuthReply + (ShortReply + [extra]);
    assert bytes[2..] == ShortReply + [extra];
  }

  /** A stream that takes whatever bytes arrive next. */
  ghost predicate Taking(st: Stream, phase: Phase) {
    !st.target && st.s.phase == phase && st.buf == [] && st.s.failed.None? && forall b :: Enabled(st, Data(b))
  }

  lemma {:induction false} AbortNext(me: Identity, evs: seq<Event>, phase: Phase, bytes: Bytes)
    requires Taking(Run(me, false, evs), phase) && Aborting(phase, bytes)
    ensures Run(me, false, evs + [Data(bytes)]).s.failed == Some(NotReached)
  {
    assert [] + bytes == bytes;
    AbortsIff(me, evs, Data(bytes));
    InitiatorRun(me, evs + [Data(bytes)]);
  }

  /** A run that aborts: the proxy accepts and sends a byte too many. */
  lemma {:induction false} AbortedRun(me: Identity, extra: Byte) returns (evs: seq<Event>)
    ensures Run(me, false, evs).s.failed == Some(NotReached)
  {
    evs := ProxyReached(me);
    OneTooMany(extra);
    AbortNext(me, evs, ProxyAuthSent, AuthReply + (ShortReply + [extra]));
    evs := evs + [Data(AuthReply + (ShortReply + [extra]))];
  }
}
