/** When a SOCKS5 stream is opened and closed, and whether a user who has blocked reading is left alone,
    in every run of an initiator or a target. */
module Socks5Opening {
  import opened Common
  import opened Socks5Spec
  import opened Socks5Fallback
  import Peers = Socks5Peers

  // ---- Bytes and failures signal nothing at an initiator ----

  /** Neither signals nor opening. */
  predicate Silent(s: Socks5, s': Socks5) {
    && s'.log.effects == s.log.effects && (s'.state == s.state || s'.state == Closing || s'.state == Closed)
    && !TargetPhase(s'.phase) && s'.state != LocalPending
    && s'.readBlocked == s.readBlocked
    && (s'.phase == Error || s'.link.live == s.link.live) && (s.phase == Error ==> s'.phase == Error)
  }

  lemma {:induction false} FailSilent(s: Socks5)
    requires !TargetPhase(s.phase) && s.state != LocalPending
    ensures Silent(s, Fail(s)) && Fail(s).link.held == s.link.held && Fail(s).phase == Error
  {
  }

  lemma {:induction false} GreetingSilent(me: Identity, s: Socks5, buf: Bytes)
    requires s.state != LocalPending && s.phase == ProxyAuthSent
    ensures Silent(s, HandleAuthReply(me, s, buf).0)
  {
    FailSilent(s);
  }

  lemma {:induction false} ReplySilent(s: Socks5, buf: Bytes)
    requires s.state != LocalPending && s.phase == ProxyRequested
    ensures Silent(s, HandleConnectReply(s, buf, false).0)
  {
    Peers.ReplyIff(s, buf);
    FailSilent(s);
    FailSilent(s.(timer := false));
  }

  lemma {:induction false} AuthSilent(s: Socks5, buf: Bytes)
    requires s.state != LocalPending && s.phase == AwaitingAuth
    ensures Silent(s, HandleAuthRequest(s, buf).0)
  {
    FailSilent(s);
  }

  lemma {:induction false} CommandSilent(me: Identity, s: Socks5, buf: Bytes)
    requires s.state != LocalPending && s.phase == AwaitingCommand
    ensures Silent(s, HandleCommand(me, s, buf, false).0)
  {
    FailSilent(s);
    FailSilent(CloseTransport(s));
  }

  lemma {:induction false} HandleSilent(me: Identity, s: Socks5, buf: Bytes)
    requires !TargetPhase(s.phase) && s.state != LocalPending
    ensures Silent(s, Handle(me, s, buf, false).0)
  {
    if s.phase == ProxyAuthSent { GreetingSilent(me, s, buf); }
    else if s.phase == ProxyRequested { ReplySilent(s, buf); }
    else if s.phase == AwaitingAuth { AuthSilent(s, buf); }
    else if s.phase == AwaitingCommand { CommandSilent(me, s, buf); }
  }

  lemma {:induction false} DrainSilent(me: Identity, s: Socks5, buf: Bytes)
    requires !TargetPhase(s.phase) && s.state != LocalPending
    ensures Silent(s, Drain(me, s, buf, false).0)
    decreases |buf|
  {
    HandleSilent(me, s, buf);
    HandleUses(me, s, buf, false);
    var (s1, used) := Handle(me, s, buf, false);
    if 0 < used < |buf| { DrainSilent(me, s1, buf[used..]); }
  }

  // ---- The signals of an initiator ----

  /** The target's answer or the proxy's makes the stream usable. */
  predicate OpensNow(st: Stream, ev: Event) {
    && Enabled(st, ev)
    && (|| (ev == Answered(Direct) && st.s.phase == Connected)
        || (ev == Activated(true) && st.s.phase == ActivationSent))
  }

  /** It goes on to the proxy that the target has used. */
  predicate TurnsToProxy(st: Stream, ev: Event) {
    Enabled(st, ev) && ev == Answered(ByProxy(true)) && st.s.phase == OfferSent
  }

  predicate FailsNow(st: Stream, ev: Event) {
    Enabled(st, ev) && (ev.Answered? || ev.Activated?) && !OpensNow(st, ev) && !TurnsToProxy(st, ev)
  }

  function SignalsOf(st: Stream, ev: Event): seq<Effect> {
    if OpensNow(st, ev) then [OpenSignal] else if FailsNow(st, ev) then [ErrorSignal] else []
  }

  lemma {:induction false} AnswerSignals(me: Identity, st: Stream, ev: Event)
    requires Enabled(st, ev) && (ev.Answered? || ev.Activated?)
    ensures var s, s' := st.s, Apply(me, st, ev).s;
            && s'.log.effects == s.log.effects + SignalsOf(st, ev)
            && (s'.state == Open <==> OpensNow(st, ev) || (s.state == Open && !FailsNow(st, ev)))
            && (FailsNow(st, ev) ==> s'.state == Closed)
  {
    assert st.s.log.effects + [] == st.s.log.effects;
  }

  lemma {:induction false} OtherSignals(me: Identity, st: Stream, ev: Event)
    requires !st.target && InitiatorLive(st.s, st.proxied) && Enabled(st, ev) && !ev.Answered? && !ev.Activated?
    ensures var s, s' := st.s, Apply(me, st, ev).s;
            s'.log.effects == s.log.effects && (s'.state == Open ==> s.state == Open)
  {
    if ev.Data? { DrainSilent(me, st.s, st.buf + ev.bytes); }
    else if ev.Lost? || ev.TimedOut? { FailSilent(st.s); FailSilent(st.s.(timer := false)); }
  }

  /** In every run of an initiator, the next event signals success if and only if it is the target's
      word that the connection which stands is the one, or the proxy's that it is activated; failure
      if and only if it is any other answer, but for that which sends the initiator to a proxy. It is
      open only if it was or success is signalled. */
  lemma {:induction false} SignalsIff(me: Identity, evs: seq<Event>, ev: Event)
    requires Run(me, false, evs).s.failed.None?
    ensures var st := Run(me, false, evs); var s, s' := st.s, Run(me, false, evs + [ev]).s;
            && s'.log.effects == s.log.effects + SignalsOf(st, ev)
            && (OpensNow(st, ev) ==> s'.state == Open)
            && (FailsNow(st, ev) ==> s'.state == Closed)
            && (s'.state == Open ==> s.state == Open || OpensNow(st, ev))
  {
    RunSnoc(me, false, evs, ev);
    InitiatorRun(me, evs);
    var st := Run(me, false, evs);
    assert st.s.log.effects + [] == st.s.log.effects;
    if Enabled(st, ev) {
      if ev.Answered? || ev.Activated? { AnswerSignals(me, st, ev); } else { OtherSignals(me, st, ev); }
    }
  }

  // ---- Closing by the user ----

  lemma {:induction false} CloseStep(me: Identity, st: Stream)
    requires st.s.failed.None? && st.s.state != Closed && st.s.state != LocalPending && st.s.link.live
    ensures var s, s' := st.s, Step(me, st, UserClose).s;
            s'.state == (if s.link.unsent then Closing else Closed) && (s'.link.live <==> s.link.unsent)
  {
  }

  lemma {:induction false} FlushStep(me: Identity, st: Stream)
    requires st.s.failed.None? && st.s.state != Closed && st.s.link.live
    ensures var s, s' := st.s, Step(me, st, Flushed).s;
            s'.state == (if s.state == Closing then Closed else s.state) && (s'.link.live <==> s.state != Closing)
  {
  }

  /** A stream that its user closes is closed at once if nothing is left to send, and otherwise when
      everything has been sent. */
  lemma {:induction false} ClosesWhenSent(me: Identity, target: bool, evs: seq<Event>)
    requires var s := Run(me, target, evs).s; s.failed.None? && s.state != Closed && s.link.live
    ensures var s, s' := Run(me, target, evs).s, Run(me, target, evs + [UserClose]).s;
            s'.state == (if s.link.unsent then Closing else Closed) && (s'.link.live <==> s.link.unsent)
    ensures var s, s' := Run(me, target, evs).s, Run(me, target, evs + [Flushed]).s;
            s'.state == (if s.state == Closing then Closed else s.state) && (s'.link.live <==> s.state != Closing)
  {
    RunSnoc(me, target, evs, UserClose);
    RunSnoc(me, target, evs, Flushed);
    if target { TargetRun(me, evs); } else { InitiatorRun(me, evs); }
    CloseStep(me, Run(me, target, evs));
    FlushStep(me, Run(me, target, evs));
  }

  /** Closing a stream that has not been accepted declines the offer, and nothing else does. */
  lemma {:induction false} DeclinesIff(s: Socks5)
    ensures Close(s).log.effects == (if s.state == LocalPending then s.log.effects + [OfferDeclined] else s.log.effects)
    ensures s.state == LocalPending ==> Close(s).state == Closed
  {
  }

  // ---- Lost connections ----

  /** What becomes of a stream whose connection is lost, or whose time is up. */
  ghost predicate GoesOn(s: Socks5, s': Socks5) {
    if TargetPhase(s.phase) then
      if |s.hosts| > 1 then
        && s'.phase == TargetTrying && s'.hosts == s.hosts[1..] && s'.link.live && s'.link.serial != s.link.serial
        && s'.log.tried == s.log.tried + [s.hosts[1]] && s'.log.effects == s.log.effects
      else
        && s'.phase == Error && !s'.link.live && s'.log.tried == s.log.tried
        && s'.log.effects == s.log.effects + [ErrorSignal, QueryReply(NotFound)]
    else
      && s'.phase == Error && s'.log.effects == s.log.effects
      && if s.phase == AwaitingAuth || s.phase == AwaitingCommand then s'.state == s.state && s'.link == s.link
         else if s.link.live && s.link.unsent then s'.state == Closing
         else s'.state == Closed && !s'.link.live
  }

  lemma {:induction false} FailGoesOn(s: Socks5)
    requires s.state != LocalPending && s.state != Closed && (TargetPhase(s.phase) ==> s.hosts != [])
    ensures GoesOn(s, Fail(s)) && GoesOn(s, Fail(s.(timer := false)))
  {
    if TargetPhase(s.phase) {
      FailIsNext(s);
      FailIsNext(s.(timer := false));
    }
  }

  /** In every run, when the connection is lost or the time is up: a target that was connecting goes on to
      the next streamhost, or signals failure and refuses the query if there is none; an initiator that
      listens waits for another connection; a stream that was connected closes, when it has sent
      everything. */
  lemma {:induction false} LostGoesOn(me: Identity, target: bool, evs: seq<Event>, ev: Event)
    requires (ev.Lost? || ev.TimedOut?) && Enabled(Run(me, target, evs), ev)
    ensures GoesOn(Run(me, target, evs).s, Run(me, target, evs + [ev]).s)
  {
    RunSnoc(me, target, evs, ev);
    if target { TargetRun(me, evs); } else { InitiatorRun(me, evs); }
    FailGoesOn(Run(me, target, evs).s);
  }

  // ---- Blocked reading: the target ----

  /** The user's word is taken in every state. */
  lemma {:induction false} BlockTakes(me: Identity, target: bool, evs: seq<Event>, block: bool)
    requires var s := Run(me, target, evs).s; s.failed.None? && s.state != Closed
    ensures var s, s' := Run(me, target, evs).s, Run(me, target, evs + [UserBlock(block)]).s;
            && s'.readBlocked == block && s'.link.live == s.link.live
            && (s.link.live && s.readBlocked != block ==> s'.link.held == block)
  {
    RunSnoc(me, target, evs, UserBlock(block));
  }

  /** Receiving is held back only if the user wants it, and on a stream that is connected if so. */
  predicate TargetHolds(s: Socks5) {
    s.link.live ==> (s.link.held ==> s.readBlocked) && (s.phase == Connected && s.readBlocked ==> s.link.held)
  }

  lemma {:induction false} FailHolds(s: Socks5)
    requires TargetHolds(s)
    ensures TargetHolds(Fail(s))
  {
    if TargetPhase(s.phase) { FailIsNext(s); }
  }

  lemma {:induction false} HandleHolds(me: Identity, s: Socks5, buf: Bytes)
    requires TargetHolds(s) && TargetReads(s.phase)
    ensures TargetHolds(Handle(me, s, buf, false).0)
  {
    FailHolds(s);
    FailHolds(s.(timer := false));
    if s.phase == TargetAuthSent { Peers.WelcomeIff(me, s, buf); }
    else if s.phase == TargetRequested { Peers.ReplyIff(s, buf); }
  }

  lemma {:induction false} DrainHolds(me: Identity, s: Socks5, buf: Bytes, offered: seq<Streamhost>)
    requires TargetHolds(s) && TargetInv(s, offered) && TargetReads(s.phase)
    ensures TargetHolds(Drain(me, s, buf, false).0)
    decreases |buf|
  {
    HandleHolds(me, s, buf);
    HandleTarget(me, s, buf, offered);
    HandleUses(me, s, buf, false);
    var (s1, used) := Handle(me, s, buf, false);
    if 0 < used < |buf| { DrainHolds(me, s1, buf[used..], offered); }
  }

  lemma {:induction false} QueryHolds(s: Socks5, hosts: seq<Streamhost>)
    requires !s.link.live
    ensures TargetHolds(ConnectToStreamhost(s, hosts))
  {
    var s0 := s.(hosts := s.hosts + hosts, query := true, phase := TargetTrying);
    if s0.hosts == [] {
      assert ConnectToStreamhost(s, hosts) == Fail(s0);
      FailHolds(s0);
    }
  }

  lemma {:induction false} StepHolds(me: Identity, st: Stream, ev: Event)
    requires st.target && TargetInv(st.s, st.offered) && TargetHolds(st.s) && Enabled(st, ev)
    ensures TargetHolds(Apply(me, st, ev).s)
  {
    if ev.Query? { QueryHolds(st.s, ev.hosts); }
    else if ev.Data? { DrainHolds(me, st.s, st.buf + ev.bytes, st.offered); }
    else if ev.Lost? || ev.TimedOut? { FailHolds(st.s); FailHolds(st.s.(timer := false)); }
  }

  /** In every run of a target that is connected, receiving is held back exactly while its user has
      blocked reading. */
  lemma {:induction false} TargetHeld(me: Identity, evs: seq<Event>)
    ensures var s := Run(me, true, evs).s;
            && TargetHolds(s)
            && (s.phase == Connected && s.link.live ==> (s.link.held <==> s.readBlocked))
    decreases |evs|
  {
    if evs != [] {
      var front, ev := evs[..|evs| - 1], evs[|evs| - 1];
      TargetHeld(me, front);
      TargetRun(me, front);
      var st := Run(me, true, front);
      if Enabled(st, ev) { StepHolds(me, st, ev); }
    }
  }

  // ---- Blocked reading: the initiator ----

  /** The stream was opened when its user had blocked reading, and the user has said nothing since. */
  predicate Forgotten(me: Identity, evs: seq<Event>) {
    evs != [] &&
    var front, ev := evs[..|evs| - 1], evs[|evs| - 1];
    var st := Run(me, false, front);
    if OpensNow(st, ev) then st.s.readBlocked
    else Forgotten(me, front) && !(Enabled(st, ev) && ev.UserBlock? && ev.block != st.s.readBlocked)
  }

  /** An open initiator is connected. */
  predicate InitiatorHolds(s: Socks5, forgotten: bool) {
    && (s.phase == Connected && s.state != Closed ==> s.link.live)
    && (s.state == Open ==> s.phase == Connected && (s.link.held <==> s.readBlocked && !forgotten))
  }

  lemma {:induction false} DrainConnected(me: Identity, s: Socks5, buf: Bytes)
    requires s.phase == Connected
    ensures var s' := Drain(me, s, buf, false).0;
            s'.link == s.link && s'.state == s.state && s'.phase == s.phase && s'.readBlocked == s.readBlocked
  {
  }

  lemma {:induction false} FailCloses(s: Socks5)
    requires s.phase == Connected && s.state == Open
    ensures Fail(s).state != Open
  {
  }

  lemma {:induction false} OpeningHolds(me: Identity, st: Stream, ev: Event, forgotten: bool)
    requires !st.target && InitiatorLive(st.s, st.proxied) && OpensNow(st, ev) && InitiatorHolds(st.s, forgotten)
    ensures InitiatorHolds(Apply(me, st, ev).s, st.s.readBlocked)
  {
  }

  lemma {:induction false} LostForgets(me: Identity, st: Stream, ev: Event, forgotten: bool)
    requires !st.target && InitiatorLive(st.s, st.proxied) && InitiatorHolds(st.s, forgotten)
    requires Enabled(st, ev) && (ev.Lost? || ev.TimedOut?)
    ensures InitiatorHolds(Apply(me, st, ev).s, forgotten)
  {
    FailSilent(st.s);
    FailSilent(st.s.(timer := false));
    if st.s.state == Open { FailCloses(st.s); FailCloses(st.s.(timer := false)); }
  }

  lemma {:induction false} StepForgets(me: Identity, st: Stream, ev: Event, forgotten: bool)
    requires !st.target && InitiatorLive(st.s, st.proxied) && InitiatorHolds(st.s, forgotten)
    requires Enabled(st, ev) && !OpensNow(st, ev)
    ensures InitiatorHolds(Apply(me, st, ev).s, forgotten && !(ev.UserBlock? && ev.block != st.s.readBlocked))
  {
    if ev.Data? {
      DrainSilent(me, st.s, st.buf + ev.bytes);
      if st.s.state == Open { DrainConnected(me, st.s, st.buf + ev.bytes); }
    } else if ev.Lost? || ev.TimedOut? {
      LostForgets(me, st, ev, forgotten);
    }
  }

  /** In every run of an initiator that is open, receiving is held back exactly while its user has
      blocked reading, unless the stream was opened when reading was blocked already and the user has
      not changed that since. */
  lemma {:induction false} InitiatorHeld(me: Identity, evs: seq<Event>)
    ensures var s := Run(me, false, evs).s;
            s.failed.None? ==>
              && InitiatorHolds(s, Forgotten(me, evs))
              && (s.state == Open ==> (s.link.held <==> s.readBlocked && !Forgotten(me, evs)))
    decreases |evs|
  {
    if evs != [] {
      var front, ev := evs[..|evs| - 1], evs[|evs| - 1];
      InitiatorHeld(me, front);
      InitiatorRun(me, front);
      var st := Run(me, false, front);
      if Enabled(st, ev) {
        if OpensNow(st, ev) { OpeningHolds(me, st, ev, Forgotten(me, front)); }
        else { StepForgets(me, st, ev, Forgotten(me, front)); }
      }
    }
  }

  /** An initiator that a proxy will serve and whose user has blocked reading, in a phase. */
  predicate Waiting(st: Stream, phase: Phase) {
    && !st.target && st.s.phase == phase && st.buf == [] && st.s.failed.None? && st.s.readBlocked
    && st.s.state == Initiating && (st.s.timer <==> phase == ProxyRequested)
    && (phase == OfferSent ==> st.awaiting && !st.s.link.live)
    && (phase != OfferSent ==> st.proxied && st.s.link.live && (phase == ActivationSent || !st.s.link.held))
  }

  /** Reading is blocked from the start, and there is no address to listen on. */
  lemma {:induction false} BlockedOffer(me: Identity) returns (evs: seq<Event>)
    ensures Waiting(Run(me, false, evs), OfferSent)
  {
    evs := [];
    RunSnoc(me, false, evs, UserBlock(true));
    evs := evs + [UserBlock(true)];
    RunSnoc(me, false, evs, Offer(false));
    evs := evs + [Offer(false)];
  }

  lemma {:induction false} ProxyChosen(me: Identity, st: Stream)
    requires Waiting(st, OfferSent)
    ensures Waiting(Step(me, st, Answered(ByProxy(true))), ProxyTrying)
  {
  }

  lemma {:induction false} ProxyThere(me: Identity, st: Stream)
    requires Waiting(st, ProxyTrying)
    ensures Waiting(Step(me, st, Established), ProxyAuthSent)
  {
  }

  lemma {:induction false} ProxyWelcomes(me: Identity, st: Stream)
    requires Waiting(st, ProxyAuthSent)
    ensures Waiting(Step(me, st, Data(AuthReply)), ProxyRequested)
  {
    assert [] + AuthReply == AuthReply && AuthReply[2..] == [];
    assert HandleAuthReply(me, st.s, AuthReply).1 == 2;
    assert Drain(me, st.s, AuthReply, false) == (HandleAuthReply(me, st.s, AuthReply).0, []);
  }

  lemma {:induction false} ShortGrant(me: Identity, s: Socks5)
    requires s.phase == ProxyRequested
    ensures Drain(me, s, ShortReply, false) == (ProxyGotReply(s.(timer := false)), [])
  {
    Peers.ReplyIff(s, ShortReply);
    assert ShortReply[6..] == [];
    assert Handle(me, s, ShortReply, false) == (ProxyGotReply(s.(timer := false)), 6);
  }

  lemma {:induction false} DataStep(me: Identity, st: Stream, bytes: Bytes, s': Socks5)
    requires Enabled(st, Data(bytes)) && st.buf == [] && Drain(me, st.s, bytes, false) == (s', [])
    ensures Step(me, st, Data(bytes)) == st.(s := s', buf := [])
  {
    assert [] + bytes == bytes;
  }

  lemma {:induction false} ProxyGrants(me: Identity, st: Stream)
    requires Waiting(st, ProxyRequested)
    ensures Waiting(Step(me, st, Data(ShortReply)), ActivationSent)
  {
    ShortGrant(me, st.s);
    DataStep(me, st, ShortReply, ProxyGotReply(st.s.(timer := false)));
  }

  /** A run in which bytes are received although their user has blocked reading. */
  lemma {:induction false} ForgottenRun(me: Identity) returns (evs: seq<Event>)
    ensures var s := Run(me, false, evs).s; s.state == Open && s.readBlocked && s.link.live && !s.link.held
  {
    evs := BlockedOffer(me);
    ProxyChosen(me, Run(me, false, evs));
    RunSnoc(me, false, evs, Answered(ByProxy(true)));
    evs := evs + [Answered(ByProxy(true))];
    ProxyThere(me, Run(me, false, evs));
    RunSnoc(me, false, evs, Established);
    evs := evs + [Established];
    ProxyWelcomes(me, Run(me, false, evs));
    RunSnoc(me, false, evs, Data(AuthReply));
    evs := evs + [Data(AuthReply)];
    ProxyGrants(me, Run(me, false, evs));
    RunSnoc(me, false, evs, Data(ShortReply));
    evs := evs + [Data(ShortReply)];
    RunSnoc(me, false, evs, Activated(true));
    evs := evs + [Activated(true)];
  }
}
