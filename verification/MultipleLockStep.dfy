/** The two ends of a bytestream with fallback methods move through the same list of methods
    together, in every run over a connection that keeps the order of stanzas. The target's SOCKS5
    streams are those of Socks5Fallback. */
module MultipleLockStep {
  import opened Common
  import opened MultipleSpec
  import Socks = Socks5Spec
  import Fallback = Socks5Fallback

  datatype Msg =
    | Request(methods: seq<Method>) | Agree(methods: seq<Method>) | Decline
    | Query(hosts: seq<Socks.Streamhost>) | QueryOk | QueryError
    | OpenIbb | OpenOk | OpenError

  /** What the initiator offers: methods, and streamhosts for SOCKS5; and who the target is. */
  datatype Env = Env(offer: seq<Method>, hosts: seq<Socks.Streamhost>, me: Socks.Identity)

  /** The two ends, the stanzas on their way to each, the target's latest SOCKS5 stream and how many of
      its effects have been passed on. */
  datatype System = System(
    i: Option<Multiple>, t: Option<Multiple>, toT: seq<Msg>, toI: seq<Msg>,
    stream: Option<Fallback.Stream>, done: nat)

  /** The target's user accepts or declines; something happens to the connection of the target's SOCKS5
      stream, or the next of its effects is passed on; a stanza arrives at either end. */
  datatype Action =
    | Accept | Refuse | Socket(event: Fallback.Event) | Effect | ToTarget | ToInitiator

  function Initiate(env: Env, m: Method): Msg { if m == Socks5 then Query(env.hosts) else OpenIbb }

  /** A target's stream that is asked to connect to streamhosts. */
  function Asked(env: Env, hosts: seq<Socks.Streamhost>): Fallback.Stream {
    Fallback.Step(env.me, Fallback.Init(true), Fallback.Query(hosts))
  }

  function TargetGets(env: Env, s: System, msg: Msg): System {
    match msg
    case Request(methods) =>
      var t := AddMethods(NewMultiple(LocalPending), methods);
      if t.active.None? then s.(toI := s.toI + [Decline]) else s.(t := Some(t))
    case Query(hosts) =>
      if s.t.Some? && Socks5 in s.t.value.registered then s.(stream := Some(Asked(env, hosts)), done := 0)
      else s.(toI := s.toI + [QueryError])
    case OpenIbb =>
      if s.t.Some? && Ibb in s.t.value.registered && s.t.value.registered[Ibb] == Accepted then
        var t := s.t.value;
        s.(t := Some(if t.active == Some(Ibb) then SetState(t, Open)
                     else t.(registered := t.registered[Ibb := Open])),
           toI := s.toI + [OpenOk])
      else s.(toI := s.toI + [OpenError])
    case _ => s
  }

  /** Events of a connection that is being established. */
  predicate Negotiation(ev: Fallback.Event) {
    ev.Established? || ev.Lost? || ev.TimedOut? || ev.Data?
  }

  predicate Negotiating(st: Fallback.Stream) { Socks.TargetPhase(st.s.phase) }

  predicate HasLive(m: Option<Multiple>) { m.Some? && Live(m.value) }

  /** The stream whose kind is given is active and alive, so that the reply to its stanza is heard. */
  predicate Hears(m: Option<Multiple>, x: Method) { HasLive(m) && m.value.active == Some(x) }

  /** A connection error at the target. */
  function TargetFails(t: Multiple): Multiple { SignalHandled(ConnectionError(t), Socks5) }

  /** An effect of the SOCKS5 stream: a signal reaches the target's multiple stream, a reply leaves. */
  function PassOn(s: System, effect: Socks.Effect): System {
    match effect
    case OpenSignal => if Hears(s.t, Socks5) then s.(t := Some(SetState(s.t.value, Open))) else s
    case ErrorSignal => if Hears(s.t, Socks5) then s.(t := Some(TargetFails(s.t.value))) else s
    case QueryReply(reply) => s.(toI := s.toI + [if reply.Used? then QueryOk else QueryError])
    case OfferDeclined => s
  }

  /** The next method is initiated, then the stream that failed closes and is removed. */
  function InitiatorFails(env: Env, s: System): System
    requires HasLive(s.i)
  {
    var failed, i := s.i.value.active.value, ConnectionError(s.i.value);
    s.(i := Some(RemoveByKey(i, failed)),
       toT := if i.active.Some? then s.toT + [Initiate(env, i.active.value)] else s.toT)
  }

  /** A reply to a stream that is gone is ignored. A failed IBB open closes the stream without a
      connection error. */
  function InitiatorGets(env: Env, s: System, msg: Msg): System {
    match msg
    case Agree(methods) =>
      var i := AddMethods(NewMultiple(Initiating), methods);
      if i.active.None? then s else s.(i := Some(i), toT := s.toT + [Initiate(env, i.active.value)])
    case QueryOk => if Hears(s.i, Socks5) then s.(i := Some(SetState(s.i.value, Open))) else s
    case OpenOk => if Hears(s.i, Ibb) then s.(i := Some(SetState(s.i.value, Open))) else s
    case QueryError => if Hears(s.i, Socks5) then InitiatorFails(env, s) else s
    case OpenError => if Hears(s.i, Ibb) then s.(i := Some(SetState(s.i.value, Closed))) else s
    case _ => s
  }

  function Step(env: Env, s: System, act: Action): System {
    match act
    case Accept =>
      if !HasLive(s.t) || s.t.value.state != LocalPending then s
      else s.(t := Some(SetState(s.t.value, Accepted)), toI := s.toI + [Agree(AllMethods(s.t.value))])
    case Refuse =>
      if s.t.None? || s.t.value.state != LocalPending then s else s.(t := None, toI := s.toI + [Decline])
    case Socket(ev) =>
      if s.stream.Some? && Negotiating(s.stream.value) && Negotiation(ev)
      then s.(stream := Some(Fallback.Step(env.me, s.stream.value, ev))) else s
    case Effect =>
      if s.stream.Some? && s.done < |s.stream.value.s.log.effects|
      then PassOn(s, s.stream.value.s.log.effects[s.done]).(done := s.done + 1) else s
    case ToTarget => if s.toT == [] then s else TargetGets(env, s.(toT := s.toT[1..]), s.toT[0])
    case ToInitiator => if s.toI == [] then s else InitiatorGets(env, s.(toI := s.toI[1..]), s.toI[0])
  }

  function Run(env: Env, acts: seq<Action>): System {
    if acts == [] then System(None, None, [Request(env.offer)], [], None, 0)
    else Step(env, Run(env, acts[..|acts| - 1]), acts[|acts| - 1])
  }

  // ---- The list of methods ----

  /** The supported part of an offer. */
  function Usable(methods: seq<Method>): (r: seq<Method>)
    ensures forall k :: 0 <= k < |r| ==> Supported(r[k])
    ensures forall x :: x in r ==> x in methods
    decreases |methods|
  {
    if methods == [] then []
    else if Supported(methods[0]) then [methods[0]] + Usable(methods[1..])
    else Usable(methods[1..])
  }

  lemma {:induction false} UsableAgain(methods: seq<Method>)
    requires forall k :: 0 <= k < |methods| ==> Supported(methods[k])
    ensures Usable(methods) == methods
    decreases |methods|
  {
    if methods != [] {
      UsableAgain(methods[1..]);
    }
  }

  lemma {:induction false} UsableHas(offer: seq<Method>, m: Method)
    ensures m in Usable(offer) <==> m in offer && (m == Ibb || m == Socks5)
    decreases |offer|
  {
    if offer != [] { UsableHas(offer[1..], m); }
  }

  /** A stream with a list of usable methods: the first is active, the others are for later. */
  function Started(state: StreamState, methods: seq<Method>): Multiple {
    if methods == [] then NewMultiple(state)
    else Multiple(state, Some(methods[0]), methods[1..], map[methods[0] := state], [methods[0]], false)
  }

  lemma {:induction false} AddedMethods(m: Multiple, methods: seq<Method>)
    requires m.active.Some?
    ensures AddMethods(m, methods) == m.(fallback := m.fallback + Usable(methods))
    decreases |methods|
  {
    if methods == [] {
      assert m.fallback + [] == m.fallback;
    } else if Supported(methods[0]) {
      AddedMethods(AddMethod(m, methods[0]), methods[1..]);
      assert m.fallback + [methods[0]] + Usable(methods[1..]) == m.fallback + Usable(methods);
    } else {
      AddedMethods(m, methods[1..]);
    }
  }

  lemma {:induction false} NewMethods(state: StreamState, methods: seq<Method>)
    ensures AddMethods(NewMultiple(state), methods) == Started(state, Usable(methods))
    decreases |methods|
  {
    if methods != [] {
      if Supported(methods[0]) {
        var m := AddMethod(NewMultiple(state), methods[0]);
        AddedMethods(m, methods[1..]);
        assert [methods[0]][1..] + Usable(methods[1..]) == Usable(methods)[1..];
      } else {
        NewMethods(state, methods[1..]);
      }
    }
  }

  // ---- How far the negotiation is ----

  /** Where the two ends are in the list; `k` counts the methods the initiator has activated. A target
      that fails has to signal it, then to reply; one that succeeds likewise. When a second SOCKS5 stream
      went with the first at both ends, its query is still on the way, then the refusal. */
  datatype Stage =
    | Requested | Undecided | Agreed
    | Trying(k: nat)
    | Connecting | Failing | Replying | Refused
    | Opening | Acking | Won(k: nat) | Done(k: nat)
    | Spent | Astray | Returned | Shut | Over

  /** The `k`-th method of the list is active and its stream registered. */
  predicate At(m: Multiple, all: seq<Method>, k: nat, state: StreamState) {
    && 1 <= k <= |all| && m.activated == all[..k] && m.fallback == all[k..] && m.active == Some(all[k - 1])
    && m.state == state && all[k - 1] in m.registered && m.registered[all[k - 1]] == state && !m.failed
  }

  /** The first two methods are both SOCKS5. */
  predicate TwoSocks(all: seq<Method>) { |all| >= 2 && all[0] == Socks5 && all[1] == Socks5 }

  /** The second SOCKS5 stream was active when it was removed with the first. */
  predicate ShutAt(m: Multiple, all: seq<Method>) {
    && TwoSocks(all) && m.activated == all[..2] && m.fallback == all[2..] && m.active == Some(Socks5)
    && m.state == Closed && Socks5 !in m.registered && !m.failed
  }

  /** Every method has been tried. */
  predicate Exhausted(m: Multiple, all: seq<Method>, state: StreamState) {
    all != [] && m.activated == all && m.fallback == [] && m.active.None? && m.state == state && !m.failed
  }

  /** The target has moved on from its first method. */
  predicate MovedOn(m: Multiple, all: seq<Method>) {
    if TwoSocks(all) then ShutAt(m, all)
    else if |all| >= 2 then At(m, all, 2, Accepted)
    else Exhausted(m, all, Accepted)
  }

  /** Both ends are at the first method, or at IBB after a SOCKS5 stream that failed. */
  predicate Both(s: System, all: seq<Method>, k: nat, iState: StreamState, tState: StreamState) {
    && s.i.Some? && s.t.Some? && At(s.i.value, all, k, iState) && At(s.t.value, all, k, tState)
    && (k == 1 || (k == 2 && all[0] == Socks5 && all[1] == Ibb))
  }

  predicate BothShut(s: System, all: seq<Method>) {
    s.i.Some? && s.t.Some? && ShutAt(s.i.value, all) && ShutAt(s.t.value, all)
  }

  predicate Neither(s: System) { s.i.None? && s.t.None? }

  /** Nothing is left to happen to the target's SOCKS5 stream. */
  predicate Idle(s: System) {
    s.stream.Some? ==> !Negotiating(s.stream.value) && s.done == |s.stream.value.s.log.effects|
  }

  const FailEffects := [Socks.ErrorSignal, Socks.QueryReply(Socks.NotFound)]

  ghost predicate SuccessEffects(effects: seq<Socks.Effect>) {
    |effects| == 2 && effects[0] == Socks.OpenSignal && effects[1].QueryReply? && effects[1].reply.Used?
  }

  /** The target's stream has come to an end and `done` of its two effects have been passed on. */
  ghost predicate Ended(s: System, good: bool, done: nat) {
    && s.stream.Some? && !Negotiating(s.stream.value) && s.done == done
    && var effects := s.stream.value.s.log.effects;
       if good then SuccessEffects(effects) else effects == FailEffects
  }

  ghost predicate Connects(s: System) {
    && s.stream.Some? && Negotiating(s.stream.value) && s.done == 0
    && s.stream.value.target && Fallback.TargetInv(s.stream.value.s, s.stream.value.offered)
  }

  predicate NoStanza(s: System) { s.toT == [] && s.toI == [] }

  /** Both ends are at their first method, a SOCKS5 stream. */
  predicate BothFirst(s: System, all: seq<Method>, tState: StreamState) {
    Both(s, all, 1, Initiating, tState) && all[0] == Socks5
  }

  /** The target has failed to connect, and the initiator does not know. */
  predicate Ahead(s: System, all: seq<Method>) {
    && s.i.Some? && s.t.Some? && At(s.i.value, all, 1, Initiating) && all[0] == Socks5
    && MovedOn(s.t.value, all)
  }

  ghost predicate InStage(env: Env, s: System, stage: Stage) {
    var all := Usable(env.offer);
    match stage
    case Requested => Neither(s) && s.toT == [Request(env.offer)] && s.toI == [] && Idle(s)
    case Undecided => s.i.None? && s.t == Some(Started(LocalPending, all)) && all != [] && NoStanza(s) && Idle(s)
    case Agreed =>
      && s.i.None? && s.t.Some? && At(s.t.value, all, 1, Accepted)
      && s.toT == [] && s.toI == [Agree(all)] && Idle(s)
    case Trying(k) =>
      Both(s, all, k, Initiating, Accepted) && s.toT == [Initiate(env, all[k - 1])] && s.toI == [] && Idle(s)
    case Connecting => BothFirst(s, all, Accepted) && NoStanza(s) && Connects(s)
    case Failing => BothFirst(s, all, Accepted) && NoStanza(s) && Ended(s, false, 0)
    case Replying => Ahead(s, all) && NoStanza(s) && Ended(s, false, 1)
    case Refused => Ahead(s, all) && s.toT == [] && s.toI == [QueryError] && Idle(s)
    case Opening => BothFirst(s, all, Accepted) && NoStanza(s) && Ended(s, true, 0)
    case Acking => BothFirst(s, all, Open) && NoStanza(s) && Ended(s, true, 1)
    case Won(k) =>
      && Both(s, all, k, Initiating, Open) && s.toT == []
      && s.toI == [if all[k - 1] == Socks5 then QueryOk else OpenOk] && Idle(s)
    case Done(k) => Both(s, all, k, Open, Open) && NoStanza(s) && Idle(s)
    case Spent =>
      && s.i.Some? && s.t.Some? && Exhausted(s.i.value, all, Initiating) && Exhausted(s.t.value, all, Accepted)
      && all == [Socks5] && NoStanza(s) && Idle(s)
    case Astray => BothShut(s, all) && s.toT == [Query(env.hosts)] && s.toI == [] && Idle(s)
    case Returned => BothShut(s, all) && s.toT == [] && s.toI == [QueryError] && Idle(s)
    case Shut => BothShut(s, all) && NoStanza(s) && Idle(s)
    case Over => Neither(s) && s.toT == [] && (s.toI == [] || s.toI == [Decline]) && Idle(s)
  }

  // ---- Each step leads from stage to stage ----

  lemma {:induction false} NextAt(m: Multiple, all: seq<Method>, state: StreamState)
    requires At(m, all, 1, state) && (state == Initiating || state == Accepted) && Supported(all[0])
    ensures var m' := ConnectionError(m);
            if |all| >= 2
            then At(m', all, 2, state) && m'.registered == m.registered[all[1] := state]
            else Exhausted(m', all, state)
  {
    if |all| >= 2 {
      assert all[1..][1..] == all[2..];
      assert all[..1] + [all[1]] == all[..2];
    } else {
      assert all[..1] == all && all[1..] == [];
    }
  }

  /** A second SOCKS5 stream is removed with the first. */
  lemma {:induction false} RemovedAt(m: Multiple, all: seq<Method>, state: StreamState)
    requires At(m, all, 2, state) && all[0] == Socks5 && Supported(all[1])
    ensures if TwoSocks(all) then ShutAt(RemoveByKey(m, Socks5), all) else At(RemoveByKey(m, Socks5), all, 2, state)
  {
  }

  lemma StartedAt(state: StreamState, all: seq<Method>)
    requires all != []
    ensures At(Started(state, all), all, 1, state)
  {
  }

  lemma {:induction false} RequestStep(env: Env, s: System) returns (next: Stage)
    requires InStage(env, s, Requested)
    ensures next == (if Usable(env.offer) == [] then Over else Undecided) && InStage(env, Step(env, s, ToTarget), next)
  {
    NewMethods(LocalPending, env.offer);
    next := if Usable(env.offer) == [] then Over else Undecided;
  }

  lemma {:induction false} AcceptStep(env: Env, s: System)
    requires InStage(env, s, Undecided)
    ensures InStage(env, Step(env, s, Accept), Agreed)
  {
    var all := Usable(env.offer);
    StartedAt(LocalPending, all);
    assert [all[0]] + all[1..] == all;
  }

  lemma {:induction false} AgreeStep(env: Env, s: System)
    requires InStage(env, s, Agreed)
    ensures InStage(env, Step(env, s, ToInitiator), Trying(1))
  {
    var all := Usable(env.offer);
    UsableAgain(all);
    NewMethods(Initiating, all);
    StartedAt(Initiating, all);
  }

  /** A query starts the target's stream, which has failed at once if it lists no streamhost. */
  lemma {:induction false} AskedStream(env: Env, hosts: seq<Socks.Streamhost>)
    ensures var st := Asked(env, hosts);
            && st.target && Fallback.TargetInv(st.s, st.offered) && st.s.phase != Socks.Invalid
            && (hosts != [] ==> st.s.phase == Socks.TargetTrying && st.s.state == Accepted && st.s.hosts == hosts)
            && (hosts == [] ==> !Negotiating(st) && st.s.log.effects == FailEffects)
  {
    Fallback.QueryKeeps(Socks.NewSocks5(Accepted), hosts);
    if hosts == [] {
      var s0 := Socks.NewSocks5(Accepted).(query := true, phase := Socks.TargetTrying);
      var none: seq<Socks.Streamhost> := [];
      assert none + hosts == [];
      assert Asked(env, hosts).s == Socks.Fail(s0);
      Socks.FailIsNext(s0);
    }
  }

  /** Where a target's stream stands, once it has been asked. */
  lemma {:induction false} StreamStands(st: Fallback.Stream)
    requires st.target && Fallback.TargetInv(st.s, st.offered) && st.s.phase != Socks.Invalid
    ensures Negotiating(st) ==> st.s.log.effects == []
    ensures !Negotiating(st) ==> st.s.log.effects == FailEffects || SuccessEffects(st.s.log.effects)
  {
  }

  lemma {:induction false} TrySocks(env: Env, s: System, st: Fallback.Stream)
    requires InStage(env, s, Trying(1)) && Usable(env.offer)[0] == Socks5
    requires st.target && Fallback.TargetInv(st.s, st.offered)
    requires if env.hosts == [] then !Negotiating(st) && st.s.log.effects == FailEffects else Negotiating(st)
    ensures InStage(env, s.(toT := [], stream := Some(st), done := 0), AfterQuery(env))
  {
  }

  lemma {:induction false} QueryArrives(env: Env, s: System)
    requires InStage(env, s, Trying(1)) && Usable(env.offer)[0] == Socks5
    ensures Step(env, s, ToTarget) == s.(toT := [], stream := Some(Asked(env, env.hosts)), done := 0)
  {
  }

  /** Opening keeps a stream in its place. */
  lemma {:induction false} OpenedAt(m: Multiple, all: seq<Method>, k: nat, state: StreamState)
    requires At(m, all, k, state)
    ensures At(SetState(m, Open), all, k, Open)
  {
  }

  lemma {:induction false} OpenArrives(env: Env, s: System, k: nat)
    requires InStage(env, s, Trying(k)) && Usable(env.offer)[k - 1] == Ibb
    ensures Step(env, s, ToTarget) == s.(t := Some(SetState(s.t.value, Open)), toT := [], toI := [OpenOk])
  {
    var none: seq<Msg> := [];
    assert none + [OpenOk] == [OpenOk];
  }

  lemma {:induction false} TryIbb(env: Env, s: System, k: nat)
    requires InStage(env, s, Trying(k)) && Usable(env.offer)[k - 1] == Ibb
    ensures InStage(env, Step(env, s, ToTarget), Won(k))
  {
    OpenArrives(env, s, k);
    OpenedAt(s.t.value, Usable(env.offer), k, Accepted);
  }

  /** The stage after a query has arrived. */
  function AfterQuery(env: Env): Stage { if env.hosts == [] then Failing else Connecting }

  lemma {:induction false} TryQuery(env: Env, s: System)
    requires InStage(env, s, Trying(1)) && Usable(env.offer)[0] == Socks5
    ensures InStage(env, Step(env, s, ToTarget), AfterQuery(env))
  {
    AskedStream(env, env.hosts);
    QueryArrives(env, s);
    TrySocks(env, s, Asked(env, env.hosts));
  }

  lemma {:induction false} TryStep(env: Env, s: System, k: nat) returns (next: Stage)
    requires InStage(env, s, Trying(k))
    ensures InStage(env, Step(env, s, ToTarget), next)
  {
    if Usable(env.offer)[k - 1] == Socks5 {
      TryQuery(env, s);
      next := AfterQuery(env);
    } else {
      TryIbb(env, s, k);
      next := Won(k);
    }
  }

  /** The stage that belongs to a target's stream. */
  function StandsAt(st: Fallback.Stream): Stage {
    if Negotiating(st) then Connecting else if st.s.log.effects == FailEffects then Failing else Opening
  }

  lemma {:induction false} SocketLeads(env: Env, s: System, st: Fallback.Stream)
    requires InStage(env, s, Connecting)
    requires st.target && Fallback.TargetInv(st.s, st.offered) && st.s.phase != Socks.Invalid
    ensures InStage(env, s.(stream := Some(st)), StandsAt(st))
  {
    StreamStands(st);
  }

  lemma {:induction false} SocketStep(env: Env, s: System, ev: Fallback.Event) returns (st: Fallback.Stream)
    requires InStage(env, s, Connecting) && Negotiation(ev)
    ensures st == Fallback.Step(env.me, s.stream.value, ev)
    ensures InStage(env, Step(env, s, Socket(ev)), StandsAt(st)) && Step(env, s, Socket(ev)) == s.(stream := Some(st))
  {
    Fallback.TargetStep(env.me, s.stream.value, ev);
    st := Fallback.Step(env.me, s.stream.value, ev);
    SocketLeads(env, s, st);
  }

  lemma {:induction false} TargetMovesOn(t: Multiple, all: seq<Method>)
    requires At(t, all, 1, Accepted) && all[0] == Socks5 && (|all| >= 2 ==> Supported(all[1]))
    ensures MovedOn(TargetFails(t), all)
  {
    NextAt(t, all, Accepted);
    if |all| >= 2 { RemovedAt(ConnectionError(t), all, Accepted); }
  }

  lemma {:induction false} FailingStep(env: Env, s: System)
    requires InStage(env, s, Failing)
    ensures InStage(env, Step(env, s, Effect), Replying)
  {
    var s' := s.(t := Some(TargetFails(s.t.value)), done := 1);
    assert Step(env, s, Effect) == s';
    TargetMovesOn(s.t.value, Usable(env.offer));
  }

  lemma {:induction false} ReplyingStep(env: Env, s: System)
    requires InStage(env, s, Replying)
    ensures InStage(env, Step(env, s, Effect), Refused)
  {
  }

  lemma {:induction false} OpenSignalled(env: Env, s: System)
    requires InStage(env, s, Opening)
    ensures HasLive(s.t) && Step(env, s, Effect) == s.(t := Some(SetState(s.t.value, Open)), done := 1)
  {
  }

  lemma {:induction false} OpeningStep(env: Env, s: System)
    requires InStage(env, s, Opening)
    ensures InStage(env, Step(env, s, Effect), Acking)
  {
    OpenSignalled(env, s);
    OpenedAt(s.t.value, Usable(env.offer), 1, Accepted);
  }

  lemma {:induction false} AckingStep(env: Env, s: System)
    requires InStage(env, s, Acking)
    ensures InStage(env, Step(env, s, Effect), Won(1))
  {
  }

  /** What a refusal of the first method leads to. */
  function AfterRefusal(all: seq<Method>): Stage {
    if TwoSocks(all) then Astray else if |all| >= 2 then Trying(2) else Spent
  }

  lemma {:induction false} RefusedStep(env: Env, s: System)
    requires InStage(env, s, Refused)
    ensures InStage(env, Step(env, s, ToInitiator), AfterRefusal(Usable(env.offer)))
  {
    var all := Usable(env.offer);
    NextAt(s.i.value, all, Initiating);
    if |all| >= 2 {
      RemovedAt(ConnectionError(s.i.value), all, Initiating);
    } else {
      assert all == [Socks5];
    }
  }

  lemma {:induction false} SuccessArrives(env: Env, s: System, k: nat)
    requires InStage(env, s, Won(k))
    ensures HasLive(s.i) && Step(env, s, ToInitiator) == s.(i := Some(SetState(s.i.value, Open)), toI := [])
  {
  }

  lemma {:induction false} WonStep(env: Env, s: System, k: nat)
    requires InStage(env, s, Won(k))
    ensures InStage(env, Step(env, s, ToInitiator), Done(k))
  {
    SuccessArrives(env, s, k);
    OpenedAt(s.i.value, Usable(env.offer), k, Initiating);
  }

  lemma {:induction false} EffectStep(env: Env, s: System, stage: Stage) returns (next: Stage)
    requires InStage(env, s, stage) && Effective(stage)
    ensures InStage(env, Step(env, s, Effect), next)
  {
    match stage
    case Failing => FailingStep(env, s); next := Replying;
    case Replying => ReplyingStep(env, s); next := Refused;
    case Opening => OpeningStep(env, s); next := Acking;
    case Acking => AckingStep(env, s); next := Won(1);
  }

  /** The actions that lead on from a stage. */
  predicate Moves(stage: Stage, act: Action) {
    match stage
    case Requested => act.ToTarget?
    case Undecided => act.Accept? || act.Refuse?
    case Agreed => act.ToInitiator?
    case Trying(_) => act.ToTarget?
    case Connecting => act.Socket? && Negotiation(act.event)
    case Refused => act.ToInitiator?
    case Astray => act.ToTarget?
    case Returned => act.ToInitiator?
    case Shut => false
    case Won(_) => act.ToInitiator?
    case Over => act.ToInitiator?
    case Done(_) => false
    case Spent => false
    case _ => act.Effect?
  }

  lemma {:induction false} MoveFirst(env: Env, s: System, stage: Stage, act: Action) returns (next: Stage)
    requires InStage(env, s, stage) && Moves(stage, act)
    requires stage.Requested? || stage.Undecided? || stage.Agreed? || stage.Over?
    ensures InStage(env, Step(env, s, act), next)
  {
    if stage.Requested? { next := RequestStep(env, s); }
    else if stage.Agreed? { AgreeStep(env, s); next := Trying(1); }
    else if stage.Over? { OverStep(env, s); next := Over; }
    else if act.Accept? { AcceptStep(env, s); next := Agreed; }
    else { RefuseStep(env, s); next := Over; }
  }

  /** The query of a stream that is gone finds none at the target, and its refusal is ignored. */
  lemma {:induction false} AstrayStep(env: Env, s: System)
    requires InStage(env, s, Astray)
    ensures InStage(env, Step(env, s, ToTarget), Returned)
  {
  }

  lemma {:induction false} ReturnedStep(env: Env, s: System)
    requires InStage(env, s, Returned)
    ensures InStage(env, Step(env, s, ToInitiator), Shut)
  {
  }

  predicate Later(stage: Stage) {
    stage.Trying? || stage.Connecting? || stage.Refused? || stage.Won? || stage.Astray? || stage.Returned?
  }

  lemma {:induction false} MoveLater(env: Env, s: System, stage: Stage, act: Action) returns (next: Stage)
    requires InStage(env, s, stage) && Moves(stage, act) && Later(stage)
    ensures InStage(env, Step(env, s, act), next)
  {
    if stage.Trying? { next := TryStep(env, s, stage.k); }
    else if stage.Connecting? { var st := SocketStep(env, s, act.event); next := StandsAt(st); }
    else if stage.Won? { WonStep(env, s, stage.k); next := Done(stage.k); }
    else if stage.Astray? { AstrayStep(env, s); next := Returned; }
    else if stage.Returned? { ReturnedStep(env, s); next := Shut; }
    else { RefusedStep(env, s); next := AfterRefusal(Usable(env.offer)); }
  }

  lemma {:induction false} MoveOn(env: Env, s: System, stage: Stage, act: Action) returns (next: Stage)
    requires InStage(env, s, stage) && Moves(stage, act)
    ensures InStage(env, Step(env, s, act), next)
  {
    if Effective(stage) {
      assert act == Effect;
      next := EffectStep(env, s, stage);
    } else if Later(stage) {
      next := MoveLater(env, s, stage, act);
    } else {
      next := MoveFirst(env, s, stage, act);
    }
  }

  lemma {:induction false} StepStage(env: Env, s: System, stage: Stage, act: Action) returns (next: Stage)
    requires InStage(env, s, stage)
    ensures InStage(env, Step(env, s, act), next)
  {
    if Moves(stage, act) {
      next := MoveOn(env, s, stage, act);
    } else {
      StutterStep(env, s, stage, act);
      next := stage;
    }
  }

  predicate Effective(stage: Stage) { stage.Failing? || stage.Replying? || stage.Opening? || stage.Acking? }

  lemma {:induction false} RefuseStep(env: Env, s: System)
    requires InStage(env, s, Undecided)
    ensures InStage(env, Step(env, s, Refuse), Over)
  {
  }

  lemma {:induction false} OverStep(env: Env, s: System)
    requires InStage(env, s, Over)
    ensures InStage(env, Step(env, s, ToInitiator), Over)
  {
  }

  /** Nothing else happens in any stage. */
  lemma {:induction false} StutterStep(env: Env, s: System, stage: Stage, act: Action)
    requires InStage(env, s, stage)
    requires !Moves(stage, act)
    ensures Step(env, s, act) == s
  {
    if stage.Connecting? { StreamStands(s.stream.value); }
  }

  lemma {:induction false} RunStage(env: Env, acts: seq<Action>) returns (stage: Stage)
    ensures InStage(env, Run(env, acts), stage)
    decreases |acts|
  {
    if acts == [] {
      stage := Requested;
    } else {
      stage := RunStage(env, acts[..|acts| - 1]);
      stage := StepStage(env, Run(env, acts[..|acts| - 1]), stage, acts[|acts| - 1]);
    }
  }

  // ---- What every run guarantees ----

  /** Both ends hold the same list, the supported part of the offer; activated and remaining methods
      always make up that list; the target is never behind and at most one method ahead; and no
      assertion of either end fails. */
  lemma {:induction false} LockStep(env: Env, acts: seq<Action>)
    ensures var s := Run(env, acts);
            && (s.t.Some? ==> s.t.value.activated + s.t.value.fallback == Usable(env.offer) && !s.t.value.failed)
            && (s.i.Some? ==> s.i.value.activated + s.i.value.fallback == Usable(env.offer) && !s.i.value.failed)
            && (s.i.Some? ==>
                  && s.t.Some?
                  && s.i.value.activated <= s.t.value.activated
                  && |s.t.value.activated| <= |s.i.value.activated| + 1)
  {
    var stage := RunStage(env, acts);
    Halves(env, Run(env, acts), stage);
  }

  lemma {:induction false} Halves(env: Env, s: System, stage: Stage)
    requires InStage(env, s, stage)
    ensures s.t.Some? ==> s.t.value.activated + s.t.value.fallback == Usable(env.offer) && !s.t.value.failed
    ensures s.i.Some? ==> s.i.value.activated + s.i.value.fallback == Usable(env.offer) && !s.i.value.failed
    ensures s.i.Some? ==> s.t.Some? && s.i.value.activated <= s.t.value.activated
    ensures s.i.Some? ==> |s.t.value.activated| <= |s.i.value.activated| + 1
  {
    var all := Usable(env.offer);
    assert forall k :: 0 <= k <= |all| ==> all[..k] + all[k..] == all;
    if stage.Undecided? { assert [all[0]] + all[1..] == all; }
  }

  /** The reply that refuses a query leaves next. */
  ghost predicate RefusalDue(s: System) {
    && s.stream.Some? && s.done < |s.stream.value.s.log.effects|
    && s.stream.value.s.log.effects[s.done] == Socks.QueryReply(Socks.NotFound)
  }

  /** What the stanzas on their way meet. An IBB open finds the target's stream registered and accepted,
      so it is never refused. A query finds a stream if and only if it is the initiator's first. When a
      refusal of that query is on its way, or about to leave, the target has moved on already: to the
      stream the initiator will turn to, registered and accepted, unless that is a second SOCKS5 stream;
      in that case the target is closed. */
  ghost predicate StanzasMeet(env: Env, s: System) {
    && (OpenIbb in s.toT ==>
          s.t.Some? && s.t.value.active == Some(Ibb) && Ibb in s.t.value.registered && s.t.value.registered[Ibb] == Accepted)
    && OpenError !in s.toI
    && (Query(env.hosts) in s.toT ==>
          s.i.Some? && s.t.Some? && (Socks5 in s.t.value.registered <==> s.i.value.activated == [Socks5]))
    && (QueryError in s.toI || RefusalDue(s) ==>
          && s.i.Some? && s.t.Some? && s.i.value.active == Some(Socks5)
          && (s.i.value.state == Initiating && s.i.value.fallback != [] ==>
                var next, t := s.i.value.fallback[0], s.t.value;
                && t.active == Some(next)
                && if next == Socks5 then t.state == Closed && next !in t.registered
                   else t.state == Accepted && next in t.registered && t.registered[next] == Accepted))
  }

  lemma {:induction false} OpenAccepted(env: Env, acts: seq<Action>)
    ensures StanzasMeet(env, Run(env, acts))
  {
    var stage := RunStage(env, acts);
    StageOpens(env, Run(env, acts), stage);
  }

  lemma {:induction false} StageOpens(env: Env, s: System, stage: Stage)
    requires InStage(env, s, stage)
    ensures StanzasMeet(env, s)
  {
    if stage.Connecting? { StreamStands(s.stream.value); }
  }

  /** Nothing is under way: no stanza, nothing at the target's SOCKS5 stream and no question to the
      user. */
  predicate Quiet(s: System) {
    NoStanza(s) && Idle(s) && (s.t.Some? ==> s.t.value.state != LocalPending)
  }

  /** Both ends are open with the same method. */
  predicate BothOpen(s: System) {
    && s.i.Some? && s.t.Some? && s.i.value.state == Open && s.t.value.state == Open
    && s.i.value.active.Some? && s.i.value.active == s.t.value.active
  }

  /** Both ends have run out of methods, and remain in the state they were in. */
  predicate BothOut(s: System) {
    && s.i.Some? && s.i.value.active.None? && s.i.value.state == Initiating
    && s.t.Some? && s.t.value.active.None? && s.t.value.state == Accepted
  }

  /** Both ends closed on their second method, and have methods they did not try. */
  predicate BothClosed(s: System) {
    && s.i.Some? && s.i.value.state == Closed && |s.i.value.activated| == 2
    && s.t.Some? && s.t.value.state == Closed && |s.t.value.activated| == 2
  }

  /** Once all is quiet there is no stream, because the offer was declined; or both ends are open with
      the same method; or both have run out of methods, SOCKS5 being the only one usable; or both are
      closed, which takes an offer whose usable methods begin with SOCKS5 twice. */
  lemma {:induction false} Settles(env: Env, acts: seq<Action>)
    requires Quiet(Run(env, acts))
    ensures var s, all := Run(env, acts), Usable(env.offer);
            || Neither(s)
            || BothOpen(s)
            || (BothOut(s) && all == [Socks5])
            || (BothClosed(s) && TwoSocks(all))
  {
    var stage := RunStage(env, acts);
  }

  /** IBB is usable, and is not preceded by two SOCKS5 streams. */
  predicate Opens(offer: seq<Method>) { Ibb in offer && !TwoSocks(Usable(offer)) }

  /** Such an offer, once accepted, always ends with both ends open. */
  lemma {:induction false} AcceptedOpens(env: Env, acts: seq<Action>)
    requires Opens(env.offer) && Quiet(Run(env, acts)) && Run(env, acts).t.Some?
    ensures BothOpen(Run(env, acts))
  {
    UsableHas(env.offer, Ibb);
    Settles(env, acts);
  }
}
