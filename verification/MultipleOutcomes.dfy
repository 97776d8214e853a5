/** Runs that show what becomes of particular offers, and for exactly which offers it does. */
module MultipleOutcomes {
  import opened Common
  import opened MultipleSpec
  import opened MultipleLockStep
  import Socks = Socks5Spec
  import Fallback = Socks5Fallback

  lemma {:induction false} RunSnoc(env: Env, acts: seq<Action>, act: Action)
    ensures Run(env, acts + [act]) == Step(env, Run(env, acts), act)
  {
    assert (acts + [act])[..|acts|] == acts;
  }

  // ---- Making streamhosts fail ----

  /** A target's stream that is waiting for a connection. */
  ghost predicate Waits(st: Fallback.Stream) {
    && st.target && Fallback.TargetInv(st.s, st.offered)
    && st.s.phase == Socks.TargetTrying && st.s.state == Accepted
  }

  lemma {:induction false} TimeOut(env: Env, st: Fallback.Stream) returns (st': Fallback.Stream)
    requires Waits(st)
    ensures st' == Fallback.Step(env.me, st, Fallback.TimedOut)
    ensures if |st.s.hosts| > 1 then Waits(st') && |st'.s.hosts| < |st.s.hosts|
            else !Negotiating(st') && st'.s.log.effects == FailEffects
  {
    Fallback.TargetStep(env.me, st, Fallback.TimedOut);
    Socks.FailIsNext(st.s);
    st' := Fallback.Step(env.me, st, Fallback.TimedOut);
    var none: seq<Socks.Effect> := [];
    assert none + FailEffects == FailEffects;
  }

  lemma {:induction false} TimeAllOut(env: Env, acts: seq<Action>) returns (acts': seq<Action>)
    requires InStage(env, Run(env, acts), Connecting) && Waits(Run(env, acts).stream.value)
    ensures InStage(env, Run(env, acts'), Failing)
    decreases |Run(env, acts).stream.value.s.hosts|
  {
    var s := Run(env, acts);
    var st := TimeOut(env, s.stream.value);
    var st' := SocketStep(env, s, Fallback.TimedOut);
    RunSnoc(env, acts, Socket(Fallback.TimedOut));
    acts' := acts + [Socket(Fallback.TimedOut)];
    if |s.stream.value.s.hosts| > 1 { acts' := TimeAllOut(env, acts'); }
  }

  /** A SOCKS5 method can always be made to fail. */
  lemma {:induction false} ReachFailing(env: Env, acts: seq<Action>) returns (acts': seq<Action>)
    requires InStage(env, Run(env, acts), Trying(1)) && Usable(env.offer)[0] == Socks5
    ensures InStage(env, Run(env, acts'), Failing)
  {
    var s := Run(env, acts);
    TryQuery(env, s);
    QueryArrives(env, s);
    RunSnoc(env, acts, ToTarget);
    acts' := acts + [ToTarget];
    if env.hosts != [] {
      AskedStream(env, env.hosts);
      acts' := TimeAllOut(env, acts');
    }
  }

  /** ... and the initiator gets to know. */
  lemma {:induction false} ReachNext(env: Env, acts: seq<Action>) returns (acts': seq<Action>)
    requires InStage(env, Run(env, acts), Trying(1)) && Usable(env.offer)[0] == Socks5
    ensures InStage(env, Run(env, acts'), AfterRefusal(Usable(env.offer)))
  {
    acts' := ReachFailing(env, acts);
    FailingStep(env, Run(env, acts'));
    RunSnoc(env, acts', Effect);
    acts' := acts' + [Effect];
    ReplyingStep(env, Run(env, acts'));
    RunSnoc(env, acts', Effect);
    acts' := acts' + [Effect];
    RefusedStep(env, Run(env, acts'));
    RunSnoc(env, acts', ToInitiator);
    acts' := acts' + [ToInitiator];
  }

  lemma {:induction false} ReachTrying(env: Env) returns (acts: seq<Action>)
    requires Usable(env.offer) != []
    ensures InStage(env, Run(env, acts), Trying(1))
  {
    acts := [];
    var next := RequestStep(env, Run(env, acts));
    RunSnoc(env, acts, ToTarget);
    acts := acts + [ToTarget];
    AcceptStep(env, Run(env, acts));
    RunSnoc(env, acts, Accept);
    acts := acts + [Accept];
    AgreeStep(env, Run(env, acts));
    RunSnoc(env, acts, ToInitiator);
    acts := acts + [ToInitiator];
  }

  // ---- Two streams of the same kind ----

  /** The active stream of either end can be found in the factory's table. */
  predicate ActiveRegistered(s: System) {
    && (s.i.Some? && s.i.value.active.Some? ==> s.i.value.active.value in s.i.value.registered)
    && (s.t.Some? && s.t.value.active.Some? ==> s.t.value.active.value in s.t.value.registered)
  }

  lemma {:induction false} StageRegistered(env: Env, s: System, stage: Stage)
    requires InStage(env, s, stage) && !TwoSocks(Usable(env.offer))
    ensures ActiveRegistered(s)
  {
  }

  /** Removing the stream that failed takes the next one of its kind with it, at both ends, while the
      query of the initiator's is on its way. */
  lemma {:induction false} RepeatedMethod(env: Env) returns (acts: seq<Action>)
    requires TwoSocks(Usable(env.offer))
    ensures var s := Run(env, acts);
            && InStage(env, s, Astray)
            && HasActive(s.i, Socks5) && Socks5 !in s.i.value.registered
            && HasActive(s.t, Socks5) && Socks5 !in s.t.value.registered
            && s.toT == [Query(env.hosts)]
  {
    acts := ReachTrying(env);
    acts := ReachNext(env, acts);
  }

  predicate HasActive(m: Option<Multiple>, x: Method) { m.Some? && m.value.active == Some(x) }

  /** The active streams are registered in every run if and only if the methods usable in the offer do
      not begin with SOCKS5 twice. */
  lemma {:induction false} RegisteredIff(env: Env)
    ensures (forall acts :: ActiveRegistered(Run(env, acts))) <==> !TwoSocks(Usable(env.offer))
  {
    if TwoSocks(Usable(env.offer)) {
      var acts := RepeatedMethod(env);
      assert !ActiveRegistered(Run(env, acts));
    } else {
      forall acts ensures ActiveRegistered(Run(env, acts)) {
        var stage := RunStage(env, acts);
        StageRegistered(env, Run(env, acts), stage);
      }
    }
  }

  /** Nothing is under way and both ends are closed. */
  predicate Closes(env: Env, acts: seq<Action>) { Quiet(Run(env, acts)) && BothClosed(Run(env, acts)) }

  lemma {:induction false} ShutCloses(env: Env, s: System)
    requires InStage(env, s, Shut)
    ensures Quiet(s) && BothClosed(s)
  {
  }

  /** The query finds no stream, the refusal is ignored, and whatever methods are left are not tried. */
  lemma {:induction false} RepeatedCloses(env: Env) returns (acts: seq<Action>)
    requires TwoSocks(Usable(env.offer))
    ensures Closes(env, acts)
  {
    acts := RepeatedMethod(env);
    AstrayStep(env, Run(env, acts));
    RunSnoc(env, acts, ToTarget);
    acts := acts + [ToTarget];
    ReturnedStep(env, Run(env, acts));
    RunSnoc(env, acts, ToInitiator);
    acts := acts + [ToInitiator];
    ShutCloses(env, Run(env, acts));
  }

  /** Both ends can end up closed if and only if the usable methods begin so. */
  lemma {:induction false} ClosedIff(env: Env)
    ensures (exists acts :: Closes(env, acts)) <==> TwoSocks(Usable(env.offer))
  {
    if TwoSocks(Usable(env.offer)) {
      var acts := RepeatedCloses(env);
    } else {
      forall acts ensures !Closes(env, acts) {
        if Closes(env, acts) { Settles(env, acts); }
      }
    }
  }

  // ---- No methods left ----

  /** Nothing is under way and both ends are left without a method, in the state they were in. */
  predicate Strands(env: Env, acts: seq<Action>) { Quiet(Run(env, acts)) && BothOut(Run(env, acts)) }

  lemma {:induction false} SpentStranded(env: Env, s: System)
    requires InStage(env, s, Spent)
    ensures Quiet(s) && BothOut(s)
  {
  }

  lemma {:induction false} OutOfMethods(env: Env) returns (acts: seq<Action>)
    requires Usable(env.offer) == [Socks5]
    ensures Strands(env, acts)
  {
    acts := ReachTrying(env);
    acts := ReachNext(env, acts);
    SpentStranded(env, Run(env, acts));
  }

  /** Both ends can be left so if and only if the one usable method is SOCKS5. */
  lemma {:induction false} StrandedIff(env: Env)
    ensures (exists acts :: Strands(env, acts)) <==> Usable(env.offer) == [Socks5]
  {
    if Usable(env.offer) == [Socks5] {
      var acts := OutOfMethods(env);
    } else {
      forall acts ensures !Strands(env, acts) {
        if Strands(env, acts) { Settles(env, acts); }
      }
    }
  }

  // ---- Which offers always work ----

  /** If anything came of the offer, both ends are open once all is quiet. */
  predicate Works(env: Env, acts: seq<Action>) {
    Quiet(Run(env, acts)) && Run(env, acts).t.Some? ==> BothOpen(Run(env, acts))
  }

  /** Without IBB in reach, SOCKS5 is usable once, or at least twice at the beginning. */
  lemma {:induction false} DoesNotOpen(offer: seq<Method>)
    requires !Opens(offer) && Usable(offer) != []
    ensures Usable(offer) == [Socks5] || TwoSocks(Usable(offer))
  {
    UsableHas(offer, Ibb);
    var all := Usable(offer);
    assert all[0] in all;
    if |all| >= 2 { assert all[1] in all; }
  }

  /** An offer works in every run if and only if it has no usable method or has IBB with at most one
      SOCKS5 stream before it. */
  lemma {:induction false} OpensIff(env: Env)
    ensures (forall acts :: Works(env, acts)) <==> Usable(env.offer) == [] || Opens(env.offer)
  {
    if Usable(env.offer) == [] {
      forall acts ensures Works(env, acts) {
        if Quiet(Run(env, acts)) { Settles(env, acts); LockStep(env, acts); }
      }
    } else if Opens(env.offer) {
      forall acts ensures Works(env, acts) {
        if Quiet(Run(env, acts)) && Run(env, acts).t.Some? { AcceptedOpens(env, acts); }
      }
    } else {
      DoesNotOpen(env.offer);
      var acts;
      if TwoSocks(Usable(env.offer)) { acts := RepeatedCloses(env); } else { acts := OutOfMethods(env); }
      assert !Works(env, acts);
    }
  }

  // ---- Who is asked and who is refused ----

  /** The target declines: its user refuses the offer, or the offer arrives and has nothing usable. */
  predicate DeclinesNow(env: Env, s: System, act: Action) {
    || (act.Refuse? && s.t.Some? && s.t.value.state == LocalPending)
    || (act.ToTarget? && s.toT == [Request(env.offer)] && Ibb !in env.offer && Socks5 !in env.offer)
  }

  lemma {:induction false} NothingUsable(offer: seq<Method>)
    ensures Usable(offer) == [] <==> Ibb !in offer && Socks5 !in offer
  {
    UsableHas(offer, Ibb);
    UsableHas(offer, Socks5);
    if Usable(offer) != [] { assert Usable(offer)[0] in Usable(offer); }
  }

  lemma {:induction false} RequestDeclines(env: Env, s: System)
    requires InStage(env, s, Requested)
    ensures Step(env, s, ToTarget).toI == if Usable(env.offer) == [] then [Decline] else []
  {
    NewMethods(LocalPending, env.offer);
    assert [] + [Decline] == [Decline];
  }

  /** No stanza but a refusal of the offer says so. */
  lemma {:induction false} OthersDoNot(env: Env, s: System, stage: Stage)
    requires InStage(env, s, stage) && !stage.Over?
    ensures Decline !in s.toI
  {
  }

  lemma {:induction false} StepDeclines(env: Env, s: System, stage: Stage, act: Action)
    requires InStage(env, s, stage)
    ensures Decline in Step(env, s, act).toI && Decline !in s.toI <==> DeclinesNow(env, s, act)
  {
    NothingUsable(env.offer);
    if !Moves(stage, act) {
      StutterStep(env, s, stage, act);
    } else if stage.Requested? {
      RequestDeclines(env, s);
    } else if stage.Over? {
      OverStep(env, s);
    } else if !(stage.Undecided? && act.Refuse?) {
      var next := MoveOn(env, s, stage, act);
      OthersDoNot(env, s, stage);
      NotOver(env, Step(env, s, act), stage, act, s);
    }
  }

  lemma {:induction false} NotOver(env: Env, s': System, stage: Stage, act: Action, s: System)
    requires InStage(env, s, stage) && Moves(stage, act) && s' == Step(env, s, act)
    requires !stage.Requested? && !stage.Over? && !(stage.Undecided? && act.Refuse?)
    ensures Decline !in s'.toI
  {
  }

  /** In every run, the target declines exactly in these two cases. */
  lemma {:induction false} DeclinedIff(env: Env, acts: seq<Action>, act: Action)
    ensures var s := Run(env, acts);
            Decline in Run(env, acts + [act]).toI && Decline !in s.toI <==> DeclinesNow(env, s, act)
  {
    var stage := RunStage(env, acts);
    RunSnoc(env, acts, act);
    StepDeclines(env, Run(env, acts), stage, act);
  }

  /** Whatever state the target is in, an IBB open is granted if and only if a stream is registered and
      accepted; otherwise it is refused and changes nothing. */
  lemma {:induction false} OpenGrantedIff(env: Env, s: System)
    ensures var granted := s.t.Some? && Ibb in s.t.value.registered && s.t.value.registered[Ibb] == Accepted;
            var s' := TargetGets(env, s, OpenIbb);
            && s'.toI == s.toI + [if granted then OpenOk else OpenError]
            && (granted ==> s'.t.Some? && Ibb in s'.t.value.registered && s'.t.value.registered[Ibb] == Open)
            && (!granted ==> s'.t == s.t)
            && (s'.t.Some? && s'.t.value.state == Open ==> s.t.value.state == Open || (granted && s.t.value.active == Some(Ibb)))
  {
  }
}
