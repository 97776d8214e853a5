/** What a SOCKS5 stream has been told and has answered on its connection, byte by byte, whoever is at
    the other end: in which cases it takes the connection for good. */
module Socks5Peers {
  import opened Common
  import opened Socks5Spec
  import opened Socks5Fallback

  // ---- The messages of RFC 1928, written out ----

  const Greeting: Bytes := [5, 1, 0]
  const Welcome: Bytes := [5, 0]

  function Request(domain: Bytes): Bytes { [5, 1, 0, 3, 40] + domain + [0, 0] }

  function Grant(domain: Bytes): Bytes { [5, 0, 0, 3, 40] + domain + [0, 0] }

  /** The number of methods that follow a count, which the code takes for a signed character and adds
      to 32 bits without a sign: from 128 on, more than anyone would send. */
  function Methods(count: Byte): (n: nat) {
    var n: int := count;
    if n < 128 then n else n + 4294967040
  }

  /** An authentication request, with no authentication among its methods. */
  predicate IsAuthRequest(b: Bytes) {
    |b| >= 3 && b[0] == 5 && b[1] < 254 && |b| == 2 + Methods(b[1]) && 0 in b[2..]
  }

  /** A positive reply to a CONNECT, with a domain of any length or without one, and port 0. */
  predicate IsReply(b: Bytes) {
    && |b| >= 6 && b[0] == 5 && b[1] == 0 && b[2] == 0
    && ((b[3] == 3 && b[4] < 255 && |b| - 7 == b[4]) || (b[3] == 0 && |b| == 6))
    && b[|b| - 2] == 0 && b[|b| - 1] == 0
  }

  // ---- One packet ----

  /** The bytes of a whole command are there, as far as the code can tell. */
  predicate CommandNoticed(buf: Bytes) {
    |buf| >= 6 && var n: int := buf[4]; |buf| % 256 >= 6 + (n + 1) % 256
  }

  /** A CONNECT that is right but for its domain. */
  predicate SpoofedCommand(buf: Bytes, domain: Bytes) {
    && |buf| % 256 >= 47 && |domain| == 40
    && buf[..5] == [5, 1, 0, 3, 40] && buf[5..45] != domain && buf[45..47] == [0, 0]
  }

  lemma {:induction false} FailedCommand(s: Socks5)
    requires s.phase == AwaitingCommand
    ensures var s1, s2 := Fail(s), Fail(CloseTransport(s));
            && s1.phase == Error && s1.log == s.log && s2.phase == Error && s2.log == s.log && !s2.link.live
            && s1.link == s.link
  {
  }

  lemma {:induction false} RequestBytes(domain: Bytes, b: Bytes)
    requires |b| == 47
    ensures b == Request(domain) && |domain| == 40 <==>
              && b[0] == 5 && b[1] == 1 && b[2] == 0 && b[3] == 3 && b[4] == 40
              && b[5..45] == domain && b[45] == 0 && b[46] == 0
  {
    assert b == [b[0], b[1], b[2], b[3], b[4]] + b[5..45] + [b[45], b[46]];
    assert |domain| == 40 ==> Request(domain)[5..45] == domain;
  }

  /** A listening initiator takes the connection if and only if the command it notices is a CONNECT to
      the 40 bytes of sha1(sid + initiator + target), port 0. Any other complete packet is an error,
      nothing is written, and if it only has the wrong domain the connection is closed. */
  lemma {:induction false} CommandIff(sha1: string -> Bytes, sid: string, self: string, peer: string, s: Socks5, buf: Bytes)
    requires s.phase == AwaitingCommand
    ensures var me, domain := IdentityOf(sha1, sid, self, peer), sha1(sid + self + peer);
            var (s', used) := HandleCommand(me, s, buf, false);
            && (s'.phase == Connected <==> CommandNoticed(buf) && |domain| == 40 && Request(domain) <= buf)
            && (s'.phase == Connected ==> used == 47 && s'.log.written == s.log.written + Grant(domain))
            && (CommandNoticed(buf) && s'.phase != Connected ==>
                  used == -1 && s'.phase == Error && s'.log == s.log && s'.link.held == s.link.held)
            && (!CommandNoticed(buf) ==> used == 0 && s' == s)
            && (SpoofedCommand(buf, domain) ==> !s'.link.live)
  {
    var me, domain := IdentityOf(sha1, sid, self, peer), sha1(sid + self + peer);
    FailedCommand(s);
    if |buf| >= 47 {
      RequestPrefix(domain, buf);
      if SpoofedCommand(buf, domain) { SpoofedBytes(buf, domain); }
    }
  }

  lemma {:induction false} RequestPrefix(domain: Bytes, buf: Bytes)
    requires |buf| >= 47
    ensures Request(domain) <= buf && |domain| == 40 <==>
              && buf[0] == 5 && buf[1] == 1 && buf[2] == 0 && buf[3] == 3 && buf[4] == 40
              && buf[5..45] == domain && buf[45] == 0 && buf[46] == 0
  {
    var b := buf[..47];
    RequestBytes(domain, b);
    assert b[5..45] == buf[5..45];
    assert |domain| == 40 ==> (Request(domain) <= buf <==> b == Request(domain));
  }

  lemma {:induction false} SpoofedBytes(buf: Bytes, domain: Bytes)
    requires |buf| >= 47 && SpoofedCommand(buf, domain)
    ensures buf[0] == 5 && buf[1] == 1 && buf[2] == 0 && buf[3] == 3 && buf[4] == 40 && buf[45] == 0 && buf[46] == 0
  {
    var front, back := buf[..5], buf[45..47];
    assert buf[0] == front[0] && buf[1] == front[1] && buf[2] == front[2] && buf[3] == front[3] && buf[4] == front[4];
    assert buf[45] == back[0] && buf[46] == back[1];
  }

  /** A listening initiator lets the peer go on if and only if the bytes begin with an authentication
      request that has no authentication among its methods. */
  lemma {:induction false} AuthRequestIff(s: Socks5, buf: Bytes)
    requires s.phase == AwaitingAuth
    ensures var (s', used) := HandleAuthRequest(s, buf);
            && (s'.phase == AwaitingCommand <==>
                  |buf| >= 2 && |buf| >= 2 + Methods(buf[1]) && IsAuthRequest(buf[..2 + Methods(buf[1])]))
            && (s'.phase == AwaitingCommand ==>
                  used == 2 + Methods(buf[1]) && s' == Write(s, Welcome).(phase := AwaitingCommand))
            && (s'.phase != AwaitingCommand ==> (used == 0 && s' == s) || (used == -1 && s'.phase == Error && s'.log == s.log))
  {
    if |buf| >= 2 && |buf| >= 2 + Methods(buf[1]) {
      var n := Methods(buf[1]);
      assert buf[..2 + n][2..] == buf[2..2 + n];
    }
  }

  /** An end that connects sends its CONNECT if and only if it is welcome without authentication. */
  lemma {:induction false} WelcomeIff(me: Identity, s: Socks5, buf: Bytes)
    requires s.phase == TargetAuthSent || s.phase == ProxyAuthSent
    ensures var (s', used) := HandleAuthReply(me, s, buf);
            && (used > 0 <==> Welcome <= buf)
            && (used > 0 ==>
                  && used == 2
                  && s'.phase == (if s.phase == TargetAuthSent then TargetRequested else ProxyRequested)
                  && s'.log == s.log.(written := s.log.written + Request(if s.phase == TargetAuthSent then me.asTarget else me.asInitiator))
                  && s'.link == s.link && s'.listener == s.listener && s'.state == s.state)
            && (used == 0 <==> |buf| < 2)
            && (used <= 0 ==> s' == if |buf| < 2 then s else Fail(s))
  {
  }

  lemma {:induction false} ReplyPrefix(buf: Bytes)
    requires GoodReply(buf)
    ensures IsReply(buf[..6 + ReplyAddrLen(buf)])
  {
    var n := ReplyAddrLen(buf);
    var b := buf[..6 + n];
    assert b[|b| - 2] == buf[4 + n] && b[|b| - 1] == buf[5 + n];
  }

  /** It takes the connection if and only if the reply it notices is positive. */
  lemma {:induction false} ReplyIff(s: Socks5, buf: Bytes)
    requires s.phase == TargetRequested || s.phase == ProxyRequested
    ensures var (s', used) := HandleConnectReply(s, buf, false);
            && (used > 0 <==> GoodReply(buf))
            && (used > 0 ==>
                  && used == 6 + ReplyAddrLen(buf)
                  && s' == if s.phase == TargetRequested then TargetGotReply(s.(timer := false)) else ProxyGotReply(s.(timer := false)))
            && (used == 0 ==> s' == s)
            && (used < 0 ==> s' == Fail(s) || s' == Fail(s.(timer := false)))
  {
  }

  // ---- What has been heard and written ----

  /** The bytes received on the connection that a stream has, or had last. */
  function Heard(me: Identity, target: bool, evs: seq<Event>): Bytes {
    if evs == [] then []
    else
      var front, ev := evs[..|evs| - 1], evs[|evs| - 1];
      var st, st' := Run(me, target, front), Run(me, target, evs);
      if st'.s.link.serial != st.s.link.serial then []
      else if ev.Data? && Enabled(st, ev) then Heard(me, target, front) + ev.bytes
      else Heard(me, target, front)
  }

  /** A welcome, a reply and `rest`. */
  ghost predicate Granted(heard: Bytes, rest: Bytes) {
    exists reply :: IsReply(reply) && heard == Welcome + reply + rest
  }

  ghost predicate Authorized(heard: Bytes, rest: Bytes) {
    exists auth :: IsAuthRequest(auth) && heard == auth + rest
  }

  /** An authentication request, the one good command and `rest`. */
  ghost predicate Asked(heard: Bytes, domain: Bytes, rest: Bytes) {
    |domain| == 40 && Authorized(heard, Request(domain) + rest)
  }

  /** What was said when the stream was connected by a peer or through a streamhost. */
  ghost predicate ByListener(s: Socks5, heard: Bytes, domain: Bytes, rest: Bytes) {
    Asked(heard, domain, rest) && s.log.written == Welcome + Grant(domain)
  }

  ghost predicate ByStreamhost(s: Socks5, heard: Bytes, domain: Bytes, rest: Bytes) {
    Granted(heard, rest) && s.log.written == Greeting + Request(domain)
  }

  /** Nothing reaches the user before the stream is connected, or could be from a connection before. */
  predicate Emits(s: Socks5) {
    s.log.emitted != [] ==>
      (s.phase == Connected || s.phase == Error) && (!s.listener || s.link.live || s.state == Closed)
  }

  ghost predicate Spoken(me: Identity, target: bool, proxied: bool, s: Socks5, heard: Bytes, buf: Bytes) {
    match s.phase
    case TargetTrying => heard == [] && buf == [] && s.log.written == []
    case ProxyTrying => heard == [] && buf == [] && s.log.written == []
    case TargetAuthSent => heard == buf && s.log.written == Greeting
    case ProxyAuthSent => heard == buf && s.log.written == Greeting
    case TargetRequested => heard == Welcome + buf && s.log.written == Greeting + Request(me.asTarget)
    case ProxyRequested => heard == Welcome + buf && s.log.written == Greeting + Request(me.asInitiator)
    case ActivationSent => ByStreamhost(s, heard, me.asInitiator, buf)
    case AwaitingAuth => heard == buf && s.log.written == []
    case AwaitingCommand => Authorized(heard, buf) && s.log.written == Welcome
    case Connected =>
      var rest := s.log.emitted + buf;
      if target then ByStreamhost(s, heard, me.asTarget, rest)
      else ByListener(s, heard, me.asInitiator, rest) || (proxied && ByStreamhost(s, heard, me.asInitiator, rest))
    case _ => true
  }

  /** Between events nothing is left over of what was used. */
  predicate Rests(s: Socks5, buf: Bytes) {
    s.phase == Connected || s.phase == ActivationSent || s.phase == OfferSent || s.phase == Invalid ==> buf == []
  }

  lemma {:induction false} Uses(heard: Bytes, front: Bytes, buf: Bytes, n: nat)
    requires n <= |buf| && heard == front + buf
    ensures heard == front + buf[..n] + buf[n..]
  {
    assert buf == buf[..n] + buf[n..];
  }

  lemma {:induction false} CommandSpoken(me: Identity, proxied: bool, s: Socks5, heard: Bytes, buf: Bytes)
    requires s.phase == AwaitingCommand && s.log.emitted == [] && Spoken(me, false, proxied, s, heard, buf)
    requires HandleCommand(me, s, buf, false).1 > 0
    ensures var (s', used) := HandleCommand(me, s, buf, false); used <= |buf| && Spoken(me, false, proxied, s', heard, buf[used..])
  {
    var auth :| IsAuthRequest(auth) && heard == auth + buf;
    var domain := me.asInitiator;
    var b := buf[..47];
    RequestBytes(domain, b);
    assert b[5..45] == buf[5..45];
    Uses(heard, auth, buf, 47);
    assert auth + Request(domain) + buf[47..] == auth + (Request(domain) + buf[47..]);
    assert [] + buf[47..] == buf[47..];
    assert Authorized(heard, Request(domain) + buf[47..]);
  }

  lemma {:induction false} AuthSpoken(me: Identity, proxied: bool, s: Socks5, heard: Bytes, buf: Bytes)
    requires s.phase == AwaitingAuth && Spoken(me, false, proxied, s, heard, buf) && HandleAuthRequest(s, buf).1 > 0
    ensures var (s', used) := HandleAuthRequest(s, buf); used <= |buf| && Spoken(me, false, proxied, s', heard, buf[used..])
  {
    AuthRequestIff(s, buf);
    var used := HandleAuthRequest(s, buf).1;
    assert heard == buf[..used] + buf[used..];
  }

  lemma {:induction false} WelcomeSpoken(me: Identity, target: bool, proxied: bool, s: Socks5, heard: Bytes, buf: Bytes)
    requires (s.phase == TargetAuthSent || s.phase == ProxyAuthSent) && Spoken(me, target, proxied, s, heard, buf)
    requires HandleAuthReply(me, s, buf).1 > 0
    ensures |buf| >= 2 && Spoken(me, target, proxied, HandleAuthReply(me, s, buf).0, heard, buf[2..])
  {
    WelcomeIff(me, s, buf);
    assert heard == Welcome + buf[2..];
  }

  lemma {:induction false} ReplySpoken(me: Identity, target: bool, proxied: bool, s: Socks5, heard: Bytes, buf: Bytes)
    requires (s.phase == TargetRequested && target && s.hosts != []) || s.phase == ProxyRequested
    requires s.log.emitted == [] && Spoken(me, target, proxied, s, heard, buf) && HandleConnectReply(s, buf, false).1 > 0
    ensures var (s', used) := HandleConnectReply(s, buf, false);
            used <= |buf| && Spoken(me, target, proxied, s', heard, buf[used..])
  {
    ReplyIff(s, buf);
    ReplyPrefix(buf);
    var used := 6 + ReplyAddrLen(buf);
    Uses(heard, Welcome, buf, used);
    assert [] + buf[used..] == buf[used..];
    assert Granted(heard, buf[used..]);
  }

  // ---- Every step keeps to it ----

  /** The phases of each role; a target that negotiates has a streamhost. */
  predicate Role(target: bool, s: Socks5) {
    && (TargetPhase(s.phase) ==> target && s.hosts != [])
    && (s.phase == AwaitingAuth || s.phase == AwaitingCommand ==> !target)
  }

  predicate Reads(p: Phase) { p != Invalid && p != OfferSent && p != TargetTrying && p != ProxyTrying }

  /** A connection is given up: the stream is in error or has a new one. */
  predicate GivenUp(s: Socks5, s': Socks5) {
    && Emits(s')
    && (|| s'.phase == Error
        || (s'.phase == TargetTrying && s'.log.written == [] && s'.link.serial != s.link.serial))
  }

  lemma {:induction false} FailGivesUp(s: Socks5)
    requires Emits(s)
    ensures GivenUp(s, Fail(s))
  {
    if TargetPhase(s.phase) { FailIsNext(s); }
  }

  /** After a call of the handler. */
  ghost predicate Handled(
    me: Identity, target: bool, proxied: bool, s: Socks5, heard: Bytes, buf: Bytes, s': Socks5, used: int)
  {
    if used < 0 then GivenUp(s, s')
    else
      && used <= |buf| && Emits(s') && Role(target, s') && s'.link.serial == s.link.serial && s'.link.live == s.link.live
      && (s'.failed.None? ==>
            && Spoken(me, target, proxied, s', heard, buf[used..])
            && Reads(s'.phase) && (used == 0 ==> Rests(s', buf)))
  }

  lemma {:induction false} NothingUsed(
    me: Identity, target: bool, proxied: bool, s: Socks5, heard: Bytes, buf: Bytes)
    requires Role(target, s) && Emits(s) && Reads(s.phase) && Spoken(me, target, proxied, s, heard, buf) && Rests(s, buf)
    ensures Handled(me, target, proxied, s, heard, buf, s, 0)
  {
    assert buf[0..] == buf;
  }

  lemma {:induction false} HandleGreets(
    me: Identity, target: bool, proxied: bool, s: Socks5, heard: Bytes, buf: Bytes)
    requires s.phase == TargetAuthSent || s.phase == ProxyAuthSent
    requires Role(target, s) && Emits(s) && Spoken(me, target, proxied, s, heard, buf)
    ensures var (s', used) := HandleAuthReply(me, s, buf); Handled(me, target, proxied, s, heard, buf, s', used)
  {
    WelcomeIff(me, s, buf);
    FailGivesUp(s);
    if HandleAuthReply(me, s, buf).1 > 0 {
      WelcomeSpoken(me, target, proxied, s, heard, buf);
    } else if |buf| < 2 {
      NothingUsed(me, target, proxied, s, heard, buf);
    }
  }

  lemma {:induction false} HandleReplies(
    me: Identity, target: bool, proxied: bool, s: Socks5, heard: Bytes, buf: Bytes)
    requires s.phase == TargetRequested || s.phase == ProxyRequested
    requires Role(target, s) && Emits(s) && Spoken(me, target, proxied, s, heard, buf)
    ensures var (s', used) := HandleConnectReply(s, buf, false); Handled(me, target, proxied, s, heard, buf, s', used)
  {
    ReplyIff(s, buf);
    FailGivesUp(s);
    FailGivesUp(s.(timer := false));
    var (s', used) := HandleConnectReply(s, buf, false);
    if used > 0 {
      ReplySpoken(me, target, proxied, s, heard, buf);
    } else if used == 0 {
      NothingUsed(me, target, proxied, s, heard, buf);
    }
  }

  lemma {:induction false} HandleAuthorizes(me: Identity, proxied: bool, s: Socks5, heard: Bytes, buf: Bytes)
    requires s.phase == AwaitingAuth && Emits(s) && Spoken(me, false, proxied, s, heard, buf)
    ensures var (s', used) := HandleAuthRequest(s, buf); Handled(me, false, proxied, s, heard, buf, s', used)
  {
    AuthRequestIff(s, buf);
    var (s', used) := HandleAuthRequest(s, buf);
    if used > 0 {
      AuthSpoken(me, proxied, s, heard, buf);
    } else if used == 0 {
      NothingUsed(me, false, proxied, s, heard, buf);
    }
  }

  lemma {:induction false} HandleCommands(me: Identity, proxied: bool, s: Socks5, heard: Bytes, buf: Bytes)
    requires s.phase == AwaitingCommand && Emits(s) && Spoken(me, false, proxied, s, heard, buf)
    ensures var (s', used) := HandleCommand(me, s, buf, false); Handled(me, false, proxied, s, heard, buf, s', used)
  {
    FailedCommand(s);
    var (s', used) := HandleCommand(me, s, buf, false);
    if used > 0 {
      CommandSpoken(me, proxied, s, heard, buf);
    } else if used == 0 {
      NothingUsed(me, false, proxied, s, heard, buf);
    }
  }

  lemma {:induction false} HandleData(
    me: Identity, target: bool, proxied: bool, s: Socks5, heard: Bytes, buf: Bytes)
    requires s.phase == Connected && Spoken(me, target, proxied, s, heard, buf)
    requires s.link.live
    ensures Handled(me, target, proxied, s, heard, buf, s.(log := s.log.(emitted := s.log.emitted + buf)), |buf|)
  {
    assert s.log.emitted + buf + [] == s.log.emitted + buf;
    assert buf[|buf|..] == [];
  }

  lemma {:induction false} HandleSpoken(
    me: Identity, target: bool, proxied: bool, s: Socks5, heard: Bytes, buf: Bytes)
    requires Role(target, s) && Emits(s) && Reads(s.phase) && Spoken(me, target, proxied, s, heard, buf)
    requires s.link.live
    ensures var (s', used) := Handle(me, s, buf, false); Handled(me, target, proxied, s, heard, buf, s', used)
  {
    match s.phase
    case TargetAuthSent => HandleGreets(me, target, proxied, s, heard, buf);
    case ProxyAuthSent => HandleGreets(me, target, proxied, s, heard, buf);
    case TargetRequested => HandleReplies(me, target, proxied, s, heard, buf);
    case ProxyRequested => HandleReplies(me, target, proxied, s, heard, buf);
    case AwaitingAuth => HandleAuthorizes(me, proxied, s, heard, buf);
    case AwaitingCommand => HandleCommands(me, proxied, s, heard, buf);
    case Connected => HandleData(me, target, proxied, s, heard, buf);
    case Error =>
    case ActivationSent =>
  }

  /** What holds between events, while no assertion has failed. */
  ghost predicate Told(me: Identity, target: bool, proxied: bool, s: Socks5, heard: Bytes, buf: Bytes) {
    s.failed.None? ==> Emits(s) && Rests(s, buf) && Spoken(me, target, proxied, s, heard, buf)
  }

  /** The bytes heard on the connection `s'` has, if those before are `heard`. */
  function HeardOn(s: Socks5, s': Socks5, heard: Bytes): Bytes {
    if s'.link.serial != s.link.serial then [] else heard
  }

  lemma {:induction false} DrainSpoken(
    me: Identity, target: bool, proxied: bool, s: Socks5, heard: Bytes, buf: Bytes)
    requires Role(target, s) && Emits(s) && Reads(s.phase) && Spoken(me, target, proxied, s, heard, buf) && s.link.live
    ensures var (s', buf') := Drain(me, s, buf, false); Told(me, target, proxied, s', HeardOn(s, s', heard), buf')
    decreases |buf|
  {
    HandleSpoken(me, target, proxied, s, heard, buf);
    HandleUses(me, s, buf, false);
    var (s1, used) := Handle(me, s, buf, false);
    if 0 < used < |buf| {
      if s1.failed.None? { DrainSpoken(me, target, proxied, s1, heard, buf[used..]); }
      else { DrainFails(me, s1, buf[used..]); }
    } else if used >= 0 {
      assert used == |buf| ==> buf[used..] == [];
      assert used == 0 ==> buf[used..] == buf;
    }
  }

  lemma {:induction false} FailFails(s: Socks5)
    requires s.failed.Some?
    ensures Fail(s).failed.Some?
  {
    if TargetPhase(s.phase) { FailIsNext(s); }
  }

  lemma {:induction false} GreetingFails(me: Identity, s: Socks5, buf: Bytes)
    requires s.failed.Some?
    ensures HandleAuthReply(me, s, buf).0.failed.Some? && HandleAuthRequest(s, buf).0.failed.Some?
  {
    FailFails(s);
  }

  lemma {:induction false} ReplyFails(s: Socks5, buf: Bytes)
    requires s.failed.Some? && (s.phase == TargetRequested || s.phase == ProxyRequested)
    ensures HandleConnectReply(s, buf, false).0.failed.Some?
  {
    FailFails(s);
    FailFails(s.(timer := false));
    ReplyIff(s, buf);
  }

  lemma {:induction false} CommandFails(me: Identity, s: Socks5, buf: Bytes)
    requires s.failed.Some?
    ensures HandleCommand(me, s, buf, false).0.failed.Some?
  {
    FailFails(s);
    FailFails(CloseTransport(s));
  }

  lemma {:induction false} HandleFails(me: Identity, s: Socks5, buf: Bytes)
    requires s.failed.Some?
    ensures Handle(me, s, buf, false).0.failed.Some?
  {
    GreetingFails(me, s, buf);
    CommandFails(me, s, buf);
    if s.phase == TargetRequested || s.phase == ProxyRequested { ReplyFails(s, buf); }
  }

  lemma {:induction false} DrainFails(me: Identity, s: Socks5, buf: Bytes)
    requires s.failed.Some?
    ensures Drain(me, s, buf, false).0.failed.Some?
    decreases |buf|
  {
    HandleFails(me, s, buf);
    HandleUses(me, s, buf, false);
    var (s1, used) := Handle(me, s, buf, false);
    if 0 < used < |buf| { DrainFails(me, s1, buf[used..]); }
  }

  lemma {:induction false} MoreGranted(heard: Bytes, rest: Bytes, more: Bytes)
    requires Granted(heard, rest)
    ensures Granted(heard + more, rest + more)
  {
    var reply :| IsReply(reply) && heard == Welcome + reply + rest;
    assert heard + more == Welcome + reply + (rest + more);
  }

  lemma {:induction false} MoreAuthorized(heard: Bytes, rest: Bytes, more: Bytes)
    requires Authorized(heard, rest)
    ensures Authorized(heard + more, rest + more)
  {
    var auth :| IsAuthRequest(auth) && heard == auth + rest;
    assert heard + more == auth + (rest + more);
  }

  lemma {:induction false} MoreSpoken(
    me: Identity, target: bool, proxied: bool, s: Socks5, heard: Bytes, buf: Bytes, more: Bytes)
    requires Reads(s.phase) && Spoken(me, target, proxied, s, heard, buf)
    ensures Spoken(me, target, proxied, s, heard + more, buf + more)
  {
    var rest := if s.phase == Connected then s.log.emitted + buf else buf;
    assert s.log.emitted + buf + more == s.log.emitted + (buf + more);
    assert Welcome + buf + more == Welcome + (buf + more);
    if Granted(heard, rest) { MoreGranted(heard, rest, more); }
    if Authorized(heard, rest) { MoreAuthorized(heard, rest, more); }
    MoreAsked(heard, me.asInitiator, rest, more);
  }

  lemma {:induction false} MoreAsked(heard: Bytes, domain: Bytes, rest: Bytes, more: Bytes)
    ensures Asked(heard, domain, rest) ==> Asked(heard + more, domain, rest + more)
  {
    if Asked(heard, domain, rest) {
      MoreAuthorized(heard, Request(domain) + rest, more);
      assert Request(domain) + rest + more == Request(domain) + (rest + more);
    }
  }

  /** A stream of the model and what it heard. */
  ghost predicate StreamTold(me: Identity, st: Stream, heard: Bytes) {
    Told(me, st.target, st.proxied, st.s, heard, st.buf)
  }

  lemma {:induction false} DataTold(me: Identity, st: Stream, bytes: Bytes, heard: Bytes)
    requires StreamTold(me, st, heard) && Role(st.target, st.s) && Enabled(st, Data(bytes))
    ensures var st' := Apply(me, st, Data(bytes)); StreamTold(me, st', HeardOn(st.s, st'.s, heard + bytes))
  {
    if Reads(st.s.phase) {
      MoreSpoken(me, st.target, st.proxied, st.s, heard, st.buf, bytes);
      DrainSpoken(me, st.target, st.proxied, st.s, heard + bytes, st.buf + bytes);
    } else {
      assert Handle(me, st.s, st.buf + bytes, false).0.failed.Some?;
    }
  }

  lemma {:induction false} QueryTries(s: Socks5, hosts: seq<Streamhost>)
    requires s.log.emitted == []
    ensures GivenUp(s, ConnectToStreamhost(s, hosts))
  {
    var s0 := s.(hosts := s.hosts + hosts, query := true, phase := TargetTrying);
    if s0.hosts == [] {
      assert ConnectToStreamhost(s, hosts) == Fail(s0);
      FailGivesUp(s0);
    } else {
      assert ConnectToStreamhost(s, hosts) == TryHost(s0);
    }
  }

  lemma {:induction false} QueryTold(me: Identity, st: Stream, hosts: seq<Streamhost>, heard: Bytes)
    requires StreamTold(me, st, heard) && Enabled(st, Query(hosts))
    ensures var st' := Apply(me, st, Query(hosts)); StreamTold(me, st', HeardOn(st.s, st'.s, heard))
  {
    QueryTries(st.s, hosts);
  }

  lemma {:induction false} LostTold(me: Identity, st: Stream, ev: Event, heard: Bytes)
    requires StreamTold(me, st, heard) && Enabled(st, ev) && (ev.Lost? || ev.TimedOut?)
    ensures var st' := Apply(me, st, ev); StreamTold(me, st', HeardOn(st.s, st'.s, heard))
  {
    FailGivesUp(st.s);
    FailGivesUp(st.s.(timer := false));
  }

  /** Nothing is said. */
  predicate SameTalk(s: Socks5, s': Socks5) {
    && s'.phase == s.phase && s'.log.written == s.log.written && s'.log.emitted == s.log.emitted
    && s'.link.serial == s.link.serial && s'.failed == s.failed && (Emits(s) ==> Emits(s'))
  }

  lemma {:induction false} SameTold(
    me: Identity, target: bool, proxied: bool, proxied': bool, s: Socks5, s': Socks5, heard: Bytes, buf: Bytes)
    requires Told(me, target, proxied, s, heard, buf) && SameTalk(s, s') && (proxied ==> proxied')
    ensures Told(me, target, proxied', s', HeardOn(s, s', heard), buf)
  {
  }

  lemma {:induction false} AnswerTold(me: Identity, st: Stream, reply: InitReply, heard: Bytes)
    requires StreamTold(me, st, heard) && Enabled(st, Answered(reply))
    ensures var st' := Apply(me, st, Answered(reply)); StreamTold(me, st', HeardOn(st.s, st'.s, heard))
  {
    var s' := InitReplied(st.s, reply);
    if reply.ByProxy? && st.s.phase == OfferSent && reply.known {
      assert s'.phase == ProxyTrying && s'.log.written == [] && s'.link.serial != st.s.link.serial;
    } else {
      assert SameTalk(st.s, s');
      SameTold(me, st.target, st.proxied, st.proxied || reply.ByProxy?, st.s, s', heard, st.buf);
    }
  }

  lemma {:induction false} ActivationTold(me: Identity, st: Stream, good: bool, heard: Bytes)
    requires StreamTold(me, st, heard) && Enabled(st, Activated(good))
    ensures var st' := Apply(me, st, Activated(good)); StreamTold(me, st', HeardOn(st.s, st'.s, heard))
  {
    var s' := ActivationReplied(st.s, good);
    if good && st.s.phase == ActivationSent {
      assert st.s.log.emitted + st.buf == st.buf;
      assert ByStreamhost(st.s, heard, me.asInitiator, st.buf);
      assert ByStreamhost(s', heard, me.asInitiator, st.buf);
    } else {
      assert SameTalk(st.s, s');
      SameTold(me, st.target, st.proxied, st.proxied, st.s, s', heard, st.buf);
    }
  }

  lemma {:induction false} NewTold(me: Identity, st: Stream, ev: Event, heard: Bytes)
    requires StreamTold(me, st, heard) && Enabled(st, ev) && (ev.Offer? || ev.Incoming?)
    ensures var st' := Apply(me, st, ev); StreamTold(me, st', HeardOn(st.s, st'.s, heard))
  {
  }

  lemma {:induction false} EstablishedTold(me: Identity, st: Stream, heard: Bytes)
    requires StreamTold(me, st, heard) && Enabled(st, Established)
    ensures var st' := Apply(me, st, Established); StreamTold(me, st', HeardOn(st.s, st'.s, heard))
  {
    assert [] + Hello == Greeting;
  }

  lemma {:induction false} PlainTold(me: Identity, st: Stream, ev: Event, heard: Bytes)
    requires StreamTold(me, st, heard) && Enabled(st, ev)
    requires ev.UserClose? || ev.UserBlock? || ev.Unsent? || ev.Flushed?
    ensures var st' := Apply(me, st, ev); StreamTold(me, st', HeardOn(st.s, st'.s, heard))
  {
    var s' := Apply(me, st, ev).s;
    assert SameTalk(st.s, s');
    SameTold(me, st.target, st.proxied, st.proxied, st.s, s', heard, st.buf);
  }

  lemma {:induction false} RoleRun(me: Identity, target: bool, evs: seq<Event>)
    ensures var st := Run(me, target, evs); st.target == target && (st.s.failed.None? ==> Role(target, st.s))
  {
    if target { TargetRun(me, evs); } else { InitiatorRun(me, evs); }
  }

  lemma {:induction false} StepTold(me: Identity, st: Stream, ev: Event, heard: Bytes)
    requires StreamTold(me, st, heard) && (st.s.failed.None? ==> Role(st.target, st.s)) && Enabled(st, ev)
    ensures var st' := Apply(me, st, ev);
            StreamTold(me, st', HeardOn(st.s, st'.s, if ev.Data? then heard + ev.bytes else heard))
  {
    match ev
    case Query(hosts) => QueryTold(me, st, hosts, heard);
    case Offer(_) => NewTold(me, st, ev, heard);
    case Incoming => NewTold(me, st, ev, heard);
    case Answered(reply) => AnswerTold(me, st, reply, heard);
    case Activated(good) => ActivationTold(me, st, good, heard);
    case Established => EstablishedTold(me, st, heard);
    case Lost => LostTold(me, st, ev, heard);
    case TimedOut => LostTold(me, st, ev, heard);
    case Data(bytes) => DataTold(me, st, bytes, heard);
    case _ => PlainTold(me, st, ev, heard);
  }

  lemma {:induction false} RunTold(me: Identity, target: bool, evs: seq<Event>)
    ensures StreamTold(me, Run(me, target, evs), Heard(me, target, evs))
    decreases |evs|
  {
    if evs != [] {
      var front, ev := evs[..|evs| - 1], evs[|evs| - 1];
      var st := Run(me, target, front);
      RunTold(me, target, front);
      RoleRun(me, target, front);
      if Enabled(st, ev) { StepTold(me, st, ev, Heard(me, target, front)); }
    }
  }

  // ---- What every run guarantees ----

  /** An initiator that is connected, and not by a proxy, was sent an authentication request and then
      the CONNECT to sha1(sid + initiator + target) on its connection, and answered both; what came
      behind these, and nothing else, has been given to the user. */
  lemma {:induction false} ListenerConnected(
    sha1: string -> Bytes, sid: string, self: string, peer: string, evs: seq<Event>)
    ensures var me, domain := IdentityOf(sha1, sid, self, peer), sha1(sid + self + peer);
            var st, heard := Run(me, false, evs), Heard(me, false, evs);
            st.s.phase == Connected && !st.proxied && st.s.failed.None? ==>
              && |domain| == 40 && st.s.log.written == [5, 0] + [5, 0, 0, 3, 40] + domain + [0, 0]
              && exists auth :: IsAuthRequest(auth) && heard == auth + Request(domain) + st.s.log.emitted
  {
    var me, domain := IdentityOf(sha1, sid, self, peer), sha1(sid + self + peer);
    RunTold(me, false, evs);
    RoleRun(me, false, evs);
    var st, heard := Run(me, false, evs), Heard(me, false, evs);
    if st.s.phase == Connected && !st.proxied && st.s.failed.None? {
      var rest := st.s.log.emitted;
      assert rest + [] == rest;
      var auth :| IsAuthRequest(auth) && heard == auth + (Request(domain) + rest);
      assert heard == auth + Request(domain) + rest;
    }
  }

  /** A target that is connected greeted the streamhost and asked it for sha1(sid + initiator + target);
      it was made welcome and given a positive reply, and what came behind that, and nothing else, has
      been given to the user. While it waits for the reply it has sent the same. */
  lemma {:induction false} TargetConnected(
    sha1: string -> Bytes, sid: string, self: string, peer: string, evs: seq<Event>)
    ensures var me, domain := IdentityOf(sha1, sid, self, peer), sha1(sid + peer + self);
            var s, heard := Run(me, true, evs).s, Heard(me, true, evs);
            && (s.phase == TargetRequested || s.phase == Connected ==>
                  s.log.written == [5, 1, 0] + [5, 1, 0, 3, 40] + domain + [0, 0])
            && (s.phase == Connected ==>
                  exists reply :: IsReply(reply) && heard == [5, 0] + reply + s.log.emitted)
  {
    var me := IdentityOf(sha1, sid, self, peer);
    RunTold(me, true, evs);
    TargetRun(me, evs);
    var s := Run(me, true, evs).s;
    assert s.log.emitted + [] == s.log.emitted;
  }

  /** The same of an initiator connected through a proxy, which asks for the domain in its own role. */
  lemma {:induction false} ProxyConnected(
    sha1: string -> Bytes, sid: string, self: string, peer: string, evs: seq<Event>)
    ensures var me, domain := IdentityOf(sha1, sid, self, peer), sha1(sid + self + peer);
            var s, heard := Run(me, false, evs).s, Heard(me, false, evs);
            s.phase == ActivationSent && s.failed.None? ==>
              && s.log.written == [5, 1, 0] + [5, 1, 0, 3, 40] + domain + [0, 0]
              && exists reply :: IsReply(reply) && heard == [5, 0] + reply
  {
    var me := IdentityOf(sha1, sid, self, peer);
    RunTold(me, false, evs);
    var s, heard := Run(me, false, evs).s, Heard(me, false, evs);
    if s.phase == ActivationSent && s.failed.None? {
      var reply :| IsReply(reply) && heard == Welcome + reply + [];
      assert heard == [5, 0] + reply;
    }
  }
}
