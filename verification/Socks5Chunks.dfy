/** How the bytes of a SOCKS5 connection are cut into chunks does not matter, as long as at most 255
    of them are buffered during the negotiation. */
module Socks5Chunks {
  import opened Common
  import opened Socks5Spec

  /** The phases in which a target or a listening initiator reads from its connection. */
  predicate Reading(p: Phase) {
    || p == TargetAuthSent || p == TargetRequested || p == AwaitingAuth || p == AwaitingCommand
    || p == Connected || p == Error
  }

  predicate Negotiating(p: Phase) { p != Connected && p != Error }

  /** A target or a listening initiator with a connection. */
  predicate Active(s: Socks5) {
    Reading(s.phase) && s.link.live && (TargetPhase(s.phase) ==> s.hosts != [])
  }

  /** The connection of `s` is still the one in use in `s'`. */
  predicate SameLink(s: Socks5, s': Socks5) {
    s'.link.live && s'.link.serial == s.link.serial
  }

  /** The chunks read from one connection, until it is closed or replaced. */
  function Feed(me: Identity, s: Socks5, buf: Bytes, chunks: seq<Bytes>, full: bool): (Socks5, Bytes)
    decreases |chunks|
  {
    if chunks == [] then (s, buf)
    else
      var (s1, buf1) := Received(me, s, buf, chunks[0], full);
      if SameLink(s, s1) then Feed(me, s1, buf1, chunks[1..], full) else (s1, buf1)
  }

  function Concat(chunks: seq<Bytes>): Bytes {
    if chunks == [] then [] else chunks[0] + Concat(chunks[1..])
  }

  /** Nothing can be done with what is buffered. */
  predicate Settled(me: Identity, s: Socks5, buf: Bytes) {
    Active(s) && if Negotiating(s.phase) then Handle(me, s, buf, true) == (s, 0) else buf == []
  }

  // ---- One call of the handler ----

  /** The effect of `Fail` on the connection. */
  lemma FailLink(s: Socks5)
    requires Reading(s.phase) && Negotiating(s.phase)
    ensures var s' := Fail(s);
            if !TargetPhase(s.phase) then s'.phase == Error && s'.link == s.link
            else if |s.hosts| > 1 then s'.phase == TargetTrying && s'.link.serial == s.link.serial + 1
            else s'.phase == Error && !s'.link.live
  {
    if TargetPhase(s.phase) { FailIsNext(s); }
  }

  /** More bytes behind those that settle the matter change nothing. */
  lemma AuthReplyMore(me: Identity, s: Socks5, b: Bytes, c: Bytes)
    requires HandleAuthReply(me, s, b).1 != 0
    ensures HandleAuthReply(me, s, b + c) == HandleAuthReply(me, s, b)
  {
    assert (b + c)[0] == b[0] && (b + c)[1] == b[1];
  }

  lemma ConnectReplyMore(s: Socks5, b: Bytes, c: Bytes)
    requires HandleConnectReply(s, b, true).1 != 0
    ensures HandleConnectReply(s, b + c, true) == HandleConnectReply(s, b, true)
  {
    var d := b + c;
    assert d[0] == b[0] && d[1] == b[1] && d[2] == b[2] && d[3] == b[3] && d[4] == b[4];
    assert ReplyAddrLen(d) == ReplyAddrLen(b);
  }

  lemma AuthRequestMore(s: Socks5, b: Bytes, c: Bytes)
    requires HandleAuthRequest(s, b).1 != 0
    ensures HandleAuthRequest(s, b + c) == HandleAuthRequest(s, b)
  {
    var d := b + c;
    assert d[0] == b[0] && d[1] == b[1];
    var n := AuthLen(b[1]);
    if 2 <= n <= |b| { assert d[2..n] == b[2..n]; }
  }

  lemma CommandMore(me: Identity, s: Socks5, b: Bytes, c: Bytes)
    requires HandleCommand(me, s, b, true).1 != 0
    ensures HandleCommand(me, s, b + c, true) == HandleCommand(me, s, b, true)
  {
    var d := b + c;
    var n := AddrLen(b[4]);
    assert d[4] == b[4];
    assert GoodCommand(d, n) == GoodCommand(b, n);
    if n >= 1 { assert d[5..4 + n] == b[5..4 + n]; }
  }

  lemma {:induction false} HandleMore(me: Identity, s: Socks5, b: Bytes, c: Bytes)
    requires Reading(s.phase) && Negotiating(s.phase) && Handle(me, s, b, true).1 != 0
    ensures Handle(me, s, b + c, true) == Handle(me, s, b, true)
  {
    if s.phase == TargetAuthSent { AuthReplyMore(me, s, b, c); }
    else if s.phase == TargetRequested { ConnectReplyMore(s, b, c); }
    else if s.phase == AwaitingAuth { AuthRequestMore(s, b, c); }
    else { CommandMore(me, s, b, c); }
  }

  /** `s1` is what using bytes, or waiting for more, makes of `s`: the connection and the role are
      left alone, and waiting changes nothing. */
  predicate Advanced(s: Socks5, s1: Socks5, used: int) {
    && Active(s1) && s1.link == s.link.(held := s1.link.held)
    && (used == 0 && Negotiating(s.phase) ==> s1 == s)
  }

  lemma TargetUsed(me: Identity, s: Socks5, b: Bytes, full: bool)
    requires Active(s) && TargetPhase(s.phase) && Handle(me, s, b, full).1 >= 0
    ensures Advanced(s, Handle(me, s, b, full).0, Handle(me, s, b, full).1)
  {
  }

  lemma InitiatorUsed(me: Identity, s: Socks5, b: Bytes, full: bool)
    requires Active(s) && !TargetPhase(s.phase) && Handle(me, s, b, full).1 >= 0
    ensures Advanced(s, Handle(me, s, b, full).0, Handle(me, s, b, full).1)
  {
  }

  lemma HandleUsed(me: Identity, s: Socks5, b: Bytes, full: bool)
    requires Active(s) && Handle(me, s, b, full).1 >= 0
    ensures Advanced(s, Handle(me, s, b, full).0, Handle(me, s, b, full).1)
  {
    if TargetPhase(s.phase) { TargetUsed(me, s, b, full); } else { InitiatorUsed(me, s, b, full); }
  }

  /** After an error a connection that survives is one whose bytes are thrown away. */
  lemma HandleFailed(me: Identity, s: Socks5, b: Bytes, full: bool)
    requires Active(s) && Handle(me, s, b, full).1 < 0
    ensures var s1 := Handle(me, s, b, full).0; SameLink(s, s1) ==> s1.phase == Error && Active(s1)
  {
    if s.phase == TargetAuthSent { FailLink(s); }
    else if s.phase == TargetRequested { FailedReply(s, b, full); }
  }

  lemma FailedReply(s: Socks5, b: Bytes, full: bool)
    requires Active(s) && s.phase == TargetRequested && HandleConnectReply(s, b, full).1 < 0
    ensures !SameLink(s, HandleConnectReply(s, b, full).0)
  {
    FailLink(s);
    FailLink(s.(timer := false));
  }

  lemma HandleNone(me: Identity, s: Socks5, full: bool)
    requires Active(s)
    ensures Handle(me, s, [], full) == (s, 0)
  {
    assert s.log.emitted + [] == s.log.emitted;
  }

  // ---- The loop ----

  /** What follows a drained buffer is handled as if it had been there from the start. */
  lemma {:induction false} DrainSplit(me: Identity, s: Socks5, b: Bytes, c: Bytes)
    requires Active(s)
    ensures var (r, rest) := Drain(me, s, b, true);
            if SameLink(s, r) then Settled(me, r, rest) && Drain(me, r, rest + c, true) == Drain(me, s, b + c, true)
            else rest == [] && Drain(me, s, b + c, true) == (r, [])
    decreases |b|
  {
    var (s1, used) := Handle(me, s, b, true);
    if !Negotiating(s.phase) {
      DrainData(me, s, b, c);
    } else if used < 0 {
      HandleMore(me, s, b, c);
      HandleFailed(me, s, b, true);
      if SameLink(s, s1) { DrainAll(me, s1, [] + c, true); }
    } else if used == 0 {
      HandleUsed(me, s, b, true);
      assert b[0..] == b;
    } else {
      HandleMore(me, s, b, c);
      HandleUsed(me, s, b, true);
      HandleUses(me, s, b, true);
      if used < |b| {
        DrainSplit(me, s1, b[used..], c);
        assert (b + c)[used..] == b[used..] + c;
      } else {
        HandleNone(me, s1, true);
        assert b[used..] == [] && (b + c)[used..] == c && [] + c == c;
      }
    }
  }

  /** Data and discarded bytes go at once. */
  function Swallow(s: Socks5, b: Bytes): Socks5 {
    if s.phase == Connected then s.(log := s.log.(emitted := s.log.emitted + b)) else s
  }

  lemma DrainAll(me: Identity, s: Socks5, b: Bytes, full: bool)
    requires Active(s) && !Negotiating(s.phase)
    ensures Drain(me, s, b, full) == (Swallow(s, b), [])
  {
    assert b[|b|..] == [];
  }

  lemma DrainData(me: Identity, s: Socks5, b: Bytes, c: Bytes)
    requires Active(s) && !Negotiating(s.phase)
    ensures Drain(me, s, b, true) == (Swallow(s, b), [])
    ensures Drain(me, Swallow(s, b), [] + c, true) == Drain(me, s, b + c, true)
  {
    DrainAll(me, s, b, true);
    DrainAll(me, s, b + c, true);
    DrainAll(me, Swallow(s, b), [] + c, true);
    assert s.log.emitted + b + ([] + c) == s.log.emitted + (b + c);
  }

  lemma SettledDrain(me: Identity, s: Socks5, buf: Bytes)
    requires Settled(me, s, buf)
    ensures Drain(me, s, buf, true) == (s, buf)
  {
    if !Negotiating(s.phase) { HandleNone(me, s, true); }
    assert buf[0..] == buf;
  }

  /** The whole is what is buffered, one chunk and the rest. */
  lemma ConcatStep(buf: Bytes, chunks: seq<Bytes>)
    requires chunks != []
    ensures buf + Concat(chunks) == buf + chunks[0] + Concat(chunks[1..])
  {
  }

  /** Without the reduction to eight bits, only the bytes matter and not the chunks. */
  lemma {:induction false} FullFeed(me: Identity, s: Socks5, buf: Bytes, chunks: seq<Bytes>, all: Bytes)
    requires Settled(me, s, buf) && all == buf + Concat(chunks)
    ensures Feed(me, s, buf, chunks, true) == Drain(me, s, all, true)
    decreases |chunks|
  {
    if chunks == [] {
      assert all == buf;
      SettledDrain(me, s, buf);
    } else {
      ConcatStep(buf, chunks);
      DrainSplit(me, s, buf + chunks[0], Concat(chunks[1..]));
      var (s1, buf1) := Received(me, s, buf, chunks[0], true);
      if SameLink(s, s1) {
        FullFeed(me, s1, buf1, chunks[1..], buf1 + Concat(chunks[1..]));
      }
    }
  }

  // ---- The reduction to eight bits ----

  /** The address length announced in the packet that the end is waiting for. */
  function Announced(s: Socks5, buf: Bytes): nat
    requires |buf| >= MIN_LENGTH
  {
    if s.phase == TargetRequested then ReplyAddrLen(buf) else AddrLen(buf[4])
  }

  /** The packet is complete and not refused on account of its first bytes. */
  predicate Complete(s: Socks5, buf: Bytes) {
    && (s.phase == TargetRequested || s.phase == AwaitingCommand)
    && |buf| >= MIN_LENGTH && |buf| >= MIN_LENGTH + Announced(s, buf)
    && (s.phase == TargetRequested ==>
          && buf[0] == VERSION && buf[1] == STATUS_OK && buf[2] == RESERVED
          && (buf[3] == ATYP_DOMAIN || buf[3] == 0))
  }

  /** The buffer's length, in eight bits, is below that of the complete packet it holds. */
  predicate Misses(s: Socks5, buf: Bytes) {
    Complete(s, buf) && |buf| % 256 < MIN_LENGTH + Announced(s, buf)
  }

  /** The handler misses a complete packet exactly then, and waits. Otherwise the reduction makes no
      difference. */
  lemma CastMisses(me: Identity, s: Socks5, buf: Bytes)
    requires Active(s)
    ensures Handle(me, s, buf, false) == Handle(me, s, buf, true) <==> !Misses(s, buf)
    ensures Misses(s, buf) ==> Handle(me, s, buf, false) == (s, 0)
  {
  }

  /** Of the code as it is: bytes behind those that settle the matter change nothing if and only if the
      packet is not missed on account of them. */
  lemma {:induction false} MoreBytesIff(me: Identity, s: Socks5, b: Bytes, c: Bytes)
    requires Active(s) && Negotiating(s.phase) && Handle(me, s, b, false).1 != 0
    ensures Handle(me, s, b + c, false) == Handle(me, s, b, false) <==> !Misses(s, b + c)
  {
    CastMisses(me, s, b);
    CastMisses(me, s, b + c);
    HandleMore(me, s, b, c);
  }

  /** A reply that arrives together with 209 bytes of data is not noticed. */
  lemma {:induction false} CastCounterexample(me: Identity, s: Socks5)
    requires Active(s) && s.phase == TargetRequested && me.Valid()
    ensures var reply := ConnectPacket(STATUS_OK, me.asTarget); var more := seq(209, i => 0 as Byte);
            && Drain(me, s, reply + more, false) == (s, reply + more)
            && Feed(me, s, [], [reply, more], false).0.log.emitted == s.log.emitted + more
            && Feed(me, s, [], [reply, more], false).0.phase == Connected
  {
    var reply, more := ConnectPacket(STATUS_OK, me.asTarget), seq(209, i => 0 as Byte);
    var buf := reply + more;
    assert |reply| == 47 && |buf| == 256;
    assert buf[0] == 5 && buf[1] == 0 && buf[2] == 0 && buf[3] == 3 && buf[4] == 40;
    assert buf[0..] == buf;
    var (s1, used) := Handle(me, s, reply, false);
    assert reply[45] == 0 && reply[46] == 0;
    assert used == 47 && s1.phase == Connected;
    assert [] + reply == reply && reply[47..] == [] && [] + more == more && more[209..] == [];
    assert Received(me, s, [], reply, false) == (s1, []);
    DrainAll(me, s1, [] + more, false);
    assert [reply, more][1..] == [more];
    assert Feed(me, s1, [], [more], false) == Feed(me, Swallow(s1, more), [], [more][1..], false);
  }

  /** No call of the handler misses a packet. */
  predicate Unmissed(me: Identity, s: Socks5, buf: Bytes)
    decreases |buf|
  {
    HandleUses(me, s, buf, true);
    var (s1, used) := Handle(me, s, buf, true);
    !Misses(s, buf) && (0 < used < |buf| ==> Unmissed(me, s1, buf[used..]))
  }

  predicate UnmissedFeed(me: Identity, s: Socks5, buf: Bytes, chunks: seq<Bytes>)
    decreases |chunks|
  {
    chunks == [] ||
    (&& Unmissed(me, s, buf + chunks[0])
     && var (s1, buf1) := Received(me, s, buf, chunks[0], true);
        SameLink(s, s1) ==> UnmissedFeed(me, s1, buf1, chunks[1..]))
  }

  lemma {:induction false} UnmissedUncast(me: Identity, s: Socks5, buf: Bytes)
    requires Active(s) && Unmissed(me, s, buf)
    ensures Drain(me, s, buf, false) == Drain(me, s, buf, true)
    decreases |buf|
  {
    CastMisses(me, s, buf);
    var (s1, used) := Handle(me, s, buf, true);
    if 0 < used < |buf| {
      HandleUsed(me, s, buf, true);
      UnmissedUncast(me, s1, buf[used..]);
    }
  }

  lemma {:induction false} UnmissedFeedUncast(me: Identity, s: Socks5, buf: Bytes, chunks: seq<Bytes>)
    requires Settled(me, s, buf) && UnmissedFeed(me, s, buf, chunks)
    ensures Feed(me, s, buf, chunks, false) == Feed(me, s, buf, chunks, true)
    decreases |chunks|
  {
    if chunks != [] {
      UnmissedUncast(me, s, buf + chunks[0]);
      var (s1, buf1) := Received(me, s, buf, chunks[0], true);
      DrainSplit(me, s, buf + chunks[0], []);
      if SameLink(s, s1) { UnmissedFeedUncast(me, s1, buf1, chunks[1..]); }
    }
  }

  /** Chunks in which no packet is missed come to what their bytes come to with full lengths. */
  lemma {:induction false} FeedIsOneChunk(me: Identity, s: Socks5, buf: Bytes, chunks: seq<Bytes>)
    requires Settled(me, s, buf) && UnmissedFeed(me, s, buf, chunks)
    ensures Feed(me, s, buf, chunks, false) == Drain(me, s, buf + Concat(chunks), true)
  {
    UnmissedFeedUncast(me, s, buf, chunks);
    FullFeed(me, s, buf, chunks, buf + Concat(chunks));
  }

  /** Two ways of cutting the same bytes in which no packet is missed give the same state, the same
      bytes written, the same data and the same remainder. */
  lemma {:induction false} ChunkIndependence(
    me: Identity, s: Socks5, buf: Bytes, chunks: seq<Bytes>, chunks': seq<Bytes>)
    requires Settled(me, s, buf) && Concat(chunks) == Concat(chunks')
    requires UnmissedFeed(me, s, buf, chunks) && UnmissedFeed(me, s, buf, chunks')
    ensures Feed(me, s, buf, chunks, false) == Feed(me, s, buf, chunks', false)
  {
    FeedIsOneChunk(me, s, buf, chunks);
    FeedIsOneChunk(me, s, buf, chunks');
  }

  // ---- At most 255 bytes ----

  /** At most 255 bytes are ever buffered before the negotiation is over. */
  predicate SmallDrain(me: Identity, s: Socks5, buf: Bytes)
    decreases |buf|
  {
    HandleUses(me, s, buf, true);
    var (s1, used) := Handle(me, s, buf, true);
    && (Negotiating(s.phase) ==> |buf| <= 255)
    && (0 < used < |buf| ==> SmallDrain(me, s1, buf[used..]))
  }

  predicate SmallFeed(me: Identity, s: Socks5, buf: Bytes, chunks: seq<Bytes>)
    decreases |chunks|
  {
    chunks == [] ||
    (&& SmallDrain(me, s, buf + chunks[0])
     && var (s1, buf1) := Received(me, s, buf, chunks[0], true);
        SameLink(s, s1) ==> SmallFeed(me, s1, buf1, chunks[1..]))
  }

  lemma {:induction false} SmallUnmissed(me: Identity, s: Socks5, buf: Bytes)
    requires SmallDrain(me, s, buf)
    ensures Unmissed(me, s, buf)
    decreases |buf|
  {
    var (s1, used) := Handle(me, s, buf, true);
    if 0 < used < |buf| { SmallUnmissed(me, s1, buf[used..]); }
  }

  /** Then no packet is missed. */
  lemma {:induction false} SmallFeedUnmissed(me: Identity, s: Socks5, buf: Bytes, chunks: seq<Bytes>)
    requires SmallFeed(me, s, buf, chunks)
    ensures UnmissedFeed(me, s, buf, chunks)
    decreases |chunks|
  {
    if chunks != [] {
      SmallUnmissed(me, s, buf + chunks[0]);
      var (s1, buf1) := Received(me, s, buf, chunks[0], true);
      if SameLink(s, s1) { SmallFeedUnmissed(me, s1, buf1, chunks[1..]); }
    }
  }
}
