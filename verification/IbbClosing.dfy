/** When an end of an in-band bytestream never gets to close: a refusal while there is more to send than
    the window allows leaves it waiting for answers that do not come. */
module IbbClosing {
  import opened Common
  import opened IbbSpec
  import opened IbbEnd
  import opened IbbLink

  predicate Leaving(state: StreamState) { state == Closing || state == Closed }

  /** An end one of whose stanzas was refused is closing or closed, and so is one that is not open. */
  predicate RefusedLeaves(e: Ibb) { e.w.refused > 0 || e.state != Open ==> Leaving(e.state) }

  // ---- How an end changes its state ----

  lemma {:induction false} SendDataSame(e: Ibb, data: Bytes)
    ensures var e' := SendData(e, data).0;
            e'.state == e.state && e'.w.refused == e.w.refused && e'.r == e.r && e'.closeToAck == e.closeToAck
    decreases WINDOW_SIZE - |e.w.unacked|
  {
    if data != [] && |e.w.unacked| < WINDOW_SIZE {
      var n := BlockOf(e, data);
      SendDataSame(SendBlock(e, data[..n]), data[n..]);
    }
  }

  lemma {:induction false} CloseLeaves(e: Ibb)
    ensures Leaving(CloseStream(e).state) && CloseStream(e).w == e.w
  {
    AnswerPendingOut(e, false);
  }

  lemma {:induction false} ReceiveLeaves(e: Ibb, id: nat, payload: Bytes)
    requires RefusedLeaves(e)
    ensures RefusedLeaves(Receive(e, Some(id), payload))
  {
    CloseLeaves(Refuse(e.(r := Record(e.r, Some(id), payload)), Some(id)));
  }

  lemma {:induction false} FlushLeaves(e: Ibb)
    requires RefusedLeaves(e) && e.w.buffer.Some?
    ensures RefusedLeaves(Flush(e))
  {
    SendDataSame(e, e.w.buffer.value);
  }

  lemma {:induction false} DeliverLeaves(e: Ibb, s: Stanza)
    requires RefusedLeaves(e)
    ensures RefusedLeaves(Deliver(e, s))
  {
    match s
    case Data(id, _, payload) => ReceiveLeaves(e, id, payload);
    case Close(id) => CloseLeaves(e.(closeToAck := Some(id)));
    case Ack(id) => if e.w.buffer.Some? { FlushLeaves(Answered(e, id)); }
    case Nack(id) => CloseLeaves(Refused(e, id));
    case CloseAck(_) =>
    case Decline =>
  }

  lemma {:induction false} SendLeaves(e: Ibb, data: Bytes)
    requires RefusedLeaves(e)
    ensures RefusedLeaves(Send(e, data).0)
  {
    SendDataSame(e.(w := e.w.(accepted := e.w.accepted + data)), data);
  }

  lemma {:induction false} BlockLeaves(e: Ibb, block: bool)
    requires RefusedLeaves(e)
    ensures RefusedLeaves(BlockReading(e, block))
  {
    if e.r.buffer.Some? {
      AnswerPendingOut(
        e.(r := e.r.(blocked := block, delivered := e.r.delivered + e.r.buffer.value, buffer := None)), true);
    }
  }

  lemma {:induction false} StepLeaves(l: Link, event: Event)
    requires RefusedLeaves(l.a)
    ensures RefusedLeaves(StepA(l, event).a) && StepA(l, event).b == l.b
  {
    match event
    case UserSend(data) => SendLeaves(l.a, data);
    case UserClose => CloseLeaves(l.a);
    case UserBlock(block) => BlockLeaves(l.a, block);
    case Transfer => if l.bGot < |l.b.out| { DeliverLeaves(l.a, l.b.out[l.bGot]); }
  }

  // ---- After its first refusal an end acknowledges nothing ----

  /** An end that has refused a data IQ is closing or closed, and has acknowledged none since. */
  predicate RefusesOn(out: seq<Stanza>, state: StreamState) {
    && (forall i :: 0 <= i < |out| && out[i].Nack? ==> Leaving(state))
    && (forall i, j :: 0 <= i < j < |out| && out[i].Nack? ==> !out[j].Ack?)
  }

  /** `more` can follow what an end in this state has sent. */
  predicate MayFollow(state: StreamState, more: seq<Stanza>) {
    || (forall i :: 0 <= i < |more| ==> !more[i].Ack? && !more[i].Nack?)
    || (state == Open && forall i :: 0 <= i < |more| ==> !more[i].Nack?)
  }

  lemma {:induction false} RefusesMore(out: seq<Stanza>, state: StreamState, more: seq<Stanza>, state': StreamState)
    requires RefusesOn(out, state) && (Leaving(state) ==> Leaving(state'))
    requires MayFollow(state, more) || (Leaving(state') && forall i :: 0 <= i < |more| ==> !more[i].Ack?)
    ensures RefusesOn(out + more, state')
  {
  }

  lemma {:induction false} SendDataMore(e: Ibb, data: Bytes) returns (more: seq<Stanza>)
    ensures SendData(e, data).0.out == e.out + more && forall i :: 0 <= i < |more| ==> more[i].Data?
    decreases WINDOW_SIZE - |e.w.unacked|
  {
    more := [];
    if data != [] && |e.w.unacked| < WINDOW_SIZE {
      var n := BlockOf(e, data);
      var e1 := SendBlock(e, data[..n]);
      var rest := SendDataMore(e1, data[n..]);
      var s := Data(e.nextId, e.w.seqNo, data[..n]);
      more := [s] + rest;
      assert e.out + more == e1.out + rest;
    } else {
      assert e.out + more == e.out;
    }
  }

  lemma {:induction false} SendCloseMore(e: Ibb) returns (more: seq<Stanza>)
    ensures SendCloseStanza(e).out == e.out + more && forall i :: 0 <= i < |more| ==> !more[i].Ack? && !more[i].Nack?
  {
    if e.closeToAck.Some? {
      more := [CloseAck(e.closeToAck.value), Close(e.nextId)];
    } else {
      more := [Close(e.nextId)];
    }
  }

  lemma {:induction false} CloseRefuses(e: Ibb)
    requires RefusesOn(e.out, e.state)
    ensures RefusesOn(CloseStream(e).out, CloseStream(e).state)
  {
    if e.state != Closed {
      AnswerPendingOut(e, false);
      AnswersAre(e.r.pending, false);
      var e1 := AnswerPending(e, false);
      var more: seq<Stanza> := [];
      if e.state == LocalPending { more := [Decline]; } else if e.w.buffer.None? { more := SendCloseMore(e1); }
      var all := AnswersFor(e.r.pending, false) + more;
      assert CloseStream(e).out == e.out + all;
      CloseLeaves(e);
      RefusesMore(e.out, e.state, all, CloseStream(e).state);
    }
  }

  lemma {:induction false} AnswersAre(ids: seq<nat>, good: bool)
    ensures forall i :: 0 <= i < |AnswersFor(ids, good)| ==>
              if good then AnswersFor(ids, good)[i].Ack? else AnswersFor(ids, good)[i].Nack?
    decreases |ids|
  {
    if ids != [] { AnswersAre(ids[..|ids| - 1], good); }
  }

  /** A refusal and the close that comes with it. */
  lemma {:induction false} OverflowRefuses(e: Ibb, id: nat)
    requires RefusesOn(e.out, e.state) && e.state == Open
    ensures var e' := CloseStream(Refuse(e, Some(id))); RefusesOn(e'.out, e'.state)
  {
    var e1 := Refuse(e, Some(id));
    AnswerPendingOut(e1, false);
    AnswersAre(e.r.pending, false);
    var more: seq<Stanza> := [];
    if e.w.buffer.None? { more := SendCloseMore(AnswerPending(e1, false)); }
    var all := [Nack(id)] + AnswersFor(e.r.pending, false) + more;
    assert CloseStream(e1).out == e.out + all;
    CloseLeaves(e1);
    RefusesMore(e.out, e.state, all, CloseStream(e1).state);
  }

  lemma {:induction false} ReceiveRefuses(e: Ibb, id: nat, payload: Bytes)
    requires RefusesOn(e.out, e.state) && RefusedLeaves(e)
    ensures var e' := Receive(e, Some(id), payload); RefusesOn(e'.out, e'.state)
  {
    if e.state != Open {
      RefusesMore(e.out, e.state, [Nack(id)], e.state);
    } else if e.r.blocked {
      OverflowRefuses(e.(r := Record(e.r, Some(id), payload)), id);
    } else {
      RefusesMore(e.out, e.state, [Ack(id)], e.state);
    }
  }

  lemma {:induction false} FlushRefuses(e: Ibb)
    requires RefusesOn(e.out, e.state) && e.w.buffer.Some?
    ensures RefusesOn(Flush(e).out, Flush(e).state)
  {
    var data := SendDataMore(e, e.w.buffer.value);
    SendDataSame(e, e.w.buffer.value);
    var (e1, sent) := SendData(e, e.w.buffer.value);
    RefusesMore(e.out, e.state, data, e.state);
    if sent == |e.w.buffer.value| && e.state == Closing {
      var more := SendCloseMore(e1.(w := e1.w.(buffer := None, blocked := false)));
      RefusesMore(e1.out, e.state, more, Closed);
    }
  }

  lemma {:induction false} DeliverRefuses(e: Ibb, s: Stanza)
    requires RefusesOn(e.out, e.state) && RefusedLeaves(e)
    ensures RefusesOn(Deliver(e, s).out, Deliver(e, s).state)
  {
    match s
    case Data(id, _, payload) => ReceiveRefuses(e, id, payload);
    case Close(id) => CloseRefuses(e.(closeToAck := Some(id)));
    case Ack(id) => if e.w.buffer.Some? { FlushRefuses(Answered(e, id)); }
    case Nack(id) => CloseRefuses(Refused(e, id));
    case CloseAck(_) =>
    case Decline =>
  }

  lemma {:induction false} SendRefuses(e: Ibb, data: Bytes)
    requires RefusesOn(e.out, e.state)
    ensures RefusesOn(Send(e, data).0.out, Send(e, data).0.state)
  {
    if e.state == Open && e.w.buffer.None? {
      var e1 := e.(w := e.w.(accepted := e.w.accepted + data));
      var more := SendDataMore(e1, data);
      SendDataSame(e1, data);
      RefusesMore(e.out, e.state, more, e.state);
    }
  }

  lemma {:induction false} BlockRefuses(e: Ibb, block: bool)
    requires RefusesOn(e.out, e.state) && (e.r.pending != [] ==> e.state == Open)
    ensures RefusesOn(BlockReading(e, block).out, BlockReading(e, block).state)
  {
    if e.r.buffer.Some? {
      AnswerPendingOut(
        e.(r := e.r.(blocked := block, delivered := e.r.delivered + e.r.buffer.value, buffer := None)), true);
      AnswersAre(e.r.pending, true);
      RefusesMore(e.out, e.state, AnswersFor(e.r.pending, true), e.state);
    }
  }

  lemma {:induction false} StepRefuses(l: Link, event: Event)
    requires Inv(l) && RefusesOn(l.a.out, l.a.state) && RefusedLeaves(l.a)
    ensures RefusesOn(StepA(l, event).a.out, StepA(l, event).a.state)
  {
    match event
    case UserSend(data) => SendRefuses(l.a, data);
    case UserClose => CloseRefuses(l.a);
    case UserBlock(block) => BlockRefuses(l.a, block);
    case Transfer => if l.bGot < |l.b.out| { DeliverRefuses(l.a, l.b.out[l.bGot]); }
  }

  /** What runs keep besides the invariant of the link. */
  ghost predicate Refusing(l: Link) {
    && RefusedLeaves(l.a) && RefusesOn(l.a.out, l.a.state)
    && RefusedLeaves(l.b) && RefusesOn(l.b.out, l.b.state)
  }

  lemma {:induction false} RunRefuses(sizeA: nat, sizeB: nat, acts: seq<Action>)
    ensures Refusing(Run(sizeA, sizeB, acts)) && Inv(Run(sizeA, sizeB, acts))
    decreases |acts|
  {
    RunKeeps(sizeA, sizeB, acts);
    if acts != [] {
      var act := acts[|acts| - 1];
      var l := Run(sizeA, sizeB, acts[..|acts| - 1]);
      RunRefuses(sizeA, sizeB, acts[..|acts| - 1]);
      FlipKeeps(l);
      StepLeaves(if act.atA then l else Flip(l), act.event);
      StepRefuses(if act.atA then l else Flip(l), act.event);
    }
  }

  // ---- The refusal that hits ----

  /** The branch in which a refusal does harm: `a` is handed a refusal of a stanza it has outstanding
      while its spill buffer holds bytes. */
  predicate Hits(l: Link, act: Action) {
    && act == Action(true, Transfer) && l.bGot < |l.b.out| && l.b.out[l.bGot].Nack?
    && l.b.out[l.bGot].id in l.a.w.unacked && l.a.w.buffer.Some?
  }

  /** This happened at some step of the run. */
  predicate Hit(sizeA: nat, sizeB: nat, acts: seq<Action>) {
    acts != [] &&
    var front := acts[..|acts| - 1];
    Hit(sizeA, sizeB, front) || Hits(Run(sizeA, sizeB, front), acts[|acts| - 1])
  }

  /** `a` has been handed a refusal and waits with bytes to send. */
  ghost predicate Wounded(l: Link) {
    && Holding(l.a)
    && exists i :: 0 <= i < l.bGot <= |l.b.out| && l.b.out[i].Nack?
  }

  /** An end that waits with bytes to send. */
  predicate Holding(e: Ibb) { e.state == Closing && e.w.buffer.Some? }

  lemma {:induction false} NackHolds(e: Ibb, id: nat)
    requires e.w.buffer.Some? && (e.state == Open || e.state == Closing)
    ensures Holding(IqReply(e, id, false))
  {
    AnswerPendingOut(Refused(e, id), false);
  }

  lemma {:induction false} TakesHit(l: Link, e: Ibb)
    requires l.bGot < |l.b.out| && l.b.out[l.bGot].Nack? && Holding(e)
    ensures Wounded(Taken(l, e))
  {
    assert Taken(l, e).b.out[l.bGot].Nack?;
  }

  lemma {:induction false} HitWounds(l: Link, act: Action)
    requires Writer(l.a) && Hits(l, act)
    ensures Wounded(Step(l, act))
  {
    var id := l.b.out[l.bGot].id;
    NackHolds(l.a, id);
    TakesHit(l, IqReply(l.a, id, false));
  }

  lemma {:induction false} HoldingDelivered(e: Ibb, s: Stanza)
    requires Holding(e) && e.r.pending == [] && !s.Ack?
    ensures Holding(Deliver(e, s))
  {
  }

  lemma {:induction false} HoldingBlocks(e: Ibb, block: bool)
    requires Holding(e)
    ensures Holding(BlockReading(e, block))
  {
    if e.r.buffer.Some? {
      AnswerPendingOut(
        e.(r := e.r.(blocked := block, delivered := e.r.delivered + e.r.buffer.value, buffer := None)), true);
    }
  }

  lemma {:induction false} HoldingStep(l: Link, event: Event)
    requires Holding(l.a) && l.a.r.pending == []
    requires event.Transfer? && l.bGot < |l.b.out| ==> !l.b.out[l.bGot].Ack?
    ensures Holding(StepA(l, event).a)
  {
    match event
    case UserSend(data) =>
    case UserClose =>
    case UserBlock(block) => HoldingBlocks(l.a, block);
    case Transfer => if l.bGot < |l.b.out| { HoldingDelivered(l.a, l.b.out[l.bGot]); }
  }

  /** No acknowledgement comes after a refusal, so the spill buffer stays as it is. */
  lemma {:induction false} WoundedA(l: Link, event: Event)
    requires EndInv(l.a) && RefusesOn(l.b.out, l.b.state) && Wounded(l)
    ensures Wounded(StepA(l, event))
  {
    var i :| 0 <= i < l.bGot <= |l.b.out| && l.b.out[i].Nack?;
    HoldingStep(l, event);
    var l' := StepA(l, event);
    assert l'.b == l.b && l.bGot <= l'.bGot <= |l.b.out|;
    assert l'.b.out[i].Nack?;
  }

  lemma {:induction false} WoundedB(l: Link, event: Event)
    requires Inv(l) && Wounded(Flip(l))
    ensures Wounded(Flip(StepA(l, event)))
  {
    var i :| 0 <= i < l.aGot <= |l.a.out| && l.a.out[i].Nack?;
    StepBlockSize(l, event);
    StepGrows(l, event);
    assert StepA(l, event).a.out[i].Nack?;
  }

  lemma {:induction false} StepGrows(l: Link, event: Event)
    requires Inv(l)
    ensures l.a.out <= StepA(l, event).a.out && StepA(l, event).aGot == l.aGot
  {
    match event
    case UserSend(data) => SendKeeps(l.a, data);
    case UserClose => CloseKeeps(l.a);
    case UserBlock(block) => BlockKeeps(l.a, block);
    case Transfer => if l.bGot < |l.b.out| { DeliverGrows(l.a, l.b.out[l.bGot]); }
  }

  lemma {:induction false} DeliverGrows(e: Ibb, s: Stanza)
    requires EndInv(e)
    ensures e.out <= Deliver(e, s).out
  {
    match s
    case Data(id, _, payload) => ReceiveKeeps(e, Some(id), payload);
    case Close(id) => CloseReceivedKeeps(e, id);
    case Ack(id) => if id in e.w.unacked { AckKeeps(e, id); }
    case Nack(id) => if id in e.w.unacked { NackKeeps(e, id); }
    case CloseAck(_) =>
    case Decline =>
  }

  lemma {:induction false} WoundedStays(l: Link, act: Action)
    requires Inv(l) && Refusing(l) && Wounded(l)
    ensures Wounded(Step(l, act))
  {
    if act.atA {
      WoundedA(l, act.event);
    } else {
      FlipKeeps(l);
      assert Flip(Flip(l)) == l;
      WoundedB(Flip(l), act.event);
    }
  }

  lemma {:induction false} HitRun(sizeA: nat, sizeB: nat, acts: seq<Action>)
    requires Hit(sizeA, sizeB, acts)
    ensures Wounded(Run(sizeA, sizeB, acts))
    decreases |acts|
  {
    var front, act := acts[..|acts| - 1], acts[|acts| - 1];
    RunRefuses(sizeA, sizeB, front);
    if Hit(sizeA, sizeB, front) {
      HitRun(sizeA, sizeB, front);
      WoundedStays(Run(sizeA, sizeB, front), act);
    } else {
      HitWounds(Run(sizeA, sizeB, front), act);
    }
  }

  /** Without a hit, an end with a refused stanza has nothing left to send. */
  predicate Unhurt(e: Ibb) { e.w.refused > 0 ==> e.w.buffer.None? }

  lemma {:induction false} UnhurtSend(e: Ibb, data: Bytes)
    requires RefusedLeaves(e) && Unhurt(e)
    ensures Unhurt(Send(e, data).0)
  {
    SendDataSame(e.(w := e.w.(accepted := e.w.accepted + data)), data);
  }

  lemma {:induction false} UnhurtBlock(e: Ibb, block: bool)
    requires Unhurt(e)
    ensures Unhurt(BlockReading(e, block))
  {
    if e.r.buffer.Some? {
      AnswerPendingOut(
        e.(r := e.r.(blocked := block, delivered := e.r.delivered + e.r.buffer.value, buffer := None)), true);
    }
  }

  lemma {:induction false} UnhurtDeliver(e: Ibb, s: Stanza)
    requires Unhurt(e) && !(s.Nack? && s.id in e.w.unacked && e.w.buffer.Some?)
    ensures Unhurt(Deliver(e, s))
  {
    match s
    case Data(id, _, payload) => CloseLeaves(Refuse(e.(r := Record(e.r, Some(id), payload)), Some(id)));
    case Close(id) => CloseLeaves(e.(closeToAck := Some(id)));
    case Ack(id) => if e.w.buffer.Some? { SendDataSame(Answered(e, id), e.w.buffer.value); }
    case Nack(id) => CloseLeaves(Refused(e, id));
    case CloseAck(_) =>
    case Decline =>
  }

  lemma {:induction false} UnhurtStep(l: Link, event: Event)
    requires RefusedLeaves(l.a) && Unhurt(l.a) && !Hits(l, Action(true, event))
    ensures Unhurt(StepA(l, event).a)
  {
    match event
    case UserSend(data) => UnhurtSend(l.a, data);
    case UserClose => CloseLeaves(l.a);
    case UserBlock(block) => UnhurtBlock(l.a, block);
    case Transfer => if l.bGot < |l.b.out| { UnhurtDeliver(l.a, l.b.out[l.bGot]); }
  }

  lemma {:induction false} UnhurtRun(sizeA: nat, sizeB: nat, acts: seq<Action>)
    requires !Hit(sizeA, sizeB, acts)
    ensures Unhurt(Run(sizeA, sizeB, acts).a)
    decreases |acts|
  {
    if acts != [] {
      var front, act := acts[..|acts| - 1], acts[|acts| - 1];
      var l := Run(sizeA, sizeB, front);
      UnhurtRun(sizeA, sizeB, front);
      RunRefuses(sizeA, sizeB, front);
      if act.atA {
        assert act == Action(true, act.event);
        UnhurtStep(l, act.event);
      } else {
        StepBlockSize(Flip(l), act.event);
      }
    }
  }

  // ---- Stuck ----

  /** All stanzas have arrived and `b`'s user is reading. */
  predicate Quiescent(l: Link) { l.aGot == |l.a.out| && l.bGot == |l.b.out| && !l.b.r.blocked }

  /** Closing, with bytes left to send and no answer to wait for. */
  predicate Stuck(e: Ibb) { e.state == Closing && e.w.unacked == [] && e.w.buffer.Some? }

  /** In every run, an end that took a refusal while its spill buffer held bytes is closing from then on.
      When nothing more is on its way, it is still closing if and only if that happened; then it is
      stuck, and it is so exactly if some byte that it accepted was never sent. */
  lemma {:induction false} ClosingIff(sizeA: nat, sizeB: nat, acts: seq<Action>)
    ensures var a, hit := Run(sizeA, sizeB, acts).a, Hit(sizeA, sizeB, acts);
            && (hit ==> a.state == Closing)
            && (Quiescent(Run(sizeA, sizeB, acts)) ==>
                  && (a.state == Closing <==> hit)
                  && (a.state == Closing <==> Stuck(a))
                  && (a.state == Closing <==> Payloads(a.out) != a.w.accepted))
  {
    RunRefuses(sizeA, sizeB, acts);
    if Hit(sizeA, sizeB, acts) { HitRun(sizeA, sizeB, acts); } else { UnhurtRun(sizeA, sizeB, acts); }
    if Quiescent(Run(sizeA, sizeB, acts)) { ClosingUnsent(Run(sizeA, sizeB, acts)); }
  }

  lemma {:induction false} ClosingUnsent(l: Link)
    requires Inv(l) && Quiescent(l) && RefusedLeaves(l.a)
    ensures l.a.state == Closing <==> Payloads(l.a.out) != l.a.w.accepted
    ensures l.a.state == Closing ==> Stuck(l.a) && l.a.w.refused > 0
  {
    assert l.a.w.unacked == [] by {
      if l.a.w.unacked != [] { OutstandingUnanswered(l, l.a.w.unacked[0]); }
    }
    UnsentIff(l.a);
  }

  lemma {:induction false} UnsentIff(e: Ibb)
    requires Writer(e)
    ensures e.w.buffer.Some? <==> Payloads(e.out) != e.w.accepted
  {
    assert e.w.buffer.None? ==> Payloads(e.out) + [] == Payloads(e.out);
  }

  // ---- For ever ----

  /** What a stuck end sends from now on are refusals and answers, but no close and no answer to one. */
  ghost predicate StaysStuck(e: Ibb, e': Ibb) {
    && Stuck(e') && e.out <= e'.out
    && forall i :: |e.out| <= i < |e'.out| ==> !e'.out[i].Close? && !e'.out[i].CloseAck?
  }

  lemma StaysTrans(e: Ibb, e': Ibb, e'': Ibb)
    requires StaysStuck(e, e') && StaysStuck(e', e'')
    ensures StaysStuck(e, e'')
  {
  }

  lemma {:induction false} CloseStays(e: Ibb)
    requires Stuck(e) && e.r.pending == []
    ensures CloseStream(e) == e
  {
  }

  lemma {:induction false} BlockStays(e: Ibb, block: bool)
    requires Stuck(e)
    ensures StaysStuck(e, BlockReading(e, block))
  {
    if e.r.buffer.Some? {
      AnswerPendingOut(
        e.(r := e.r.(blocked := block, delivered := e.r.delivered + e.r.buffer.value, buffer := None)), true);
      AnswersAre(e.r.pending, true);
    }
  }

  lemma {:induction false} StepStays(l: Link, event: Event)
    requires Stuck(l.a) && l.a.r.pending == []
    ensures StaysStuck(l.a, StepA(l, event).a)
  {
    match event
    case UserSend(data) =>
    case UserClose => CloseStays(l.a);
    case UserBlock(block) => BlockStays(l.a, block);
    case Transfer =>
      if l.bGot < |l.b.out| && l.b.out[l.bGot].Close? {
        CloseStays(l.a.(closeToAck := Some(l.b.out[l.bGot].id)));
      }
  }

  lemma {:induction false} ActionStays(l: Link, act: Action)
    requires Inv(l) && Stuck(l.a)
    ensures StaysStuck(l.a, Step(l, act).a)
  {
    if act.atA { StepStays(l, act.event); } else { StepBlockSize(Flip(l), act.event); }
  }

  /** A stuck end remains so whatever happens afterwards, and never answers a close. */
  lemma {:induction false} StuckForEver(sizeA: nat, sizeB: nat, acts: seq<Action>, more: seq<Action>)
    requires Stuck(Run(sizeA, sizeB, acts).a)
    ensures StaysStuck(Run(sizeA, sizeB, acts).a, Run(sizeA, sizeB, acts + more).a)
    decreases |more|
  {
    if more == [] {
      assert acts + more == acts;
    } else {
      var front, act := more[..|more| - 1], more[|more| - 1];
      var so := acts + front;
      assert acts + more == so + [act];
      StuckForEver(sizeA, sizeB, acts, front);
      RunKeeps(sizeA, sizeB, so);
      RunSnoc(sizeA, sizeB, so, act);
      ActionStays(Run(sizeA, sizeB, so), act);
      StaysTrans(Run(sizeA, sizeB, acts).a, Run(sizeA, sizeB, so).a, Run(sizeA, sizeB, so + [act]).a);
    }
  }

  /** An end that was hit is closing in every continuation of the run. */
  lemma {:induction false} HitForEver(sizeA: nat, sizeB: nat, acts: seq<Action>, more: seq<Action>)
    requires Hit(sizeA, sizeB, acts)
    ensures Hit(sizeA, sizeB, acts + more) && Run(sizeA, sizeB, acts + more).a.state == Closing
    decreases |more|
  {
    if more == [] {
      assert acts + more == acts;
    } else {
      HitForEver(sizeA, sizeB, acts, more[..|more| - 1]);
      assert (acts + more)[..|acts + more| - 1] == acts + more[..|more| - 1];
    }
    ClosingIff(sizeA, sizeB, acts + more);
  }

  lemma RunSnoc(sizeA: nat, sizeB: nat, acts: seq<Action>, act: Action)
    ensures Run(sizeA, sizeB, acts + [act]) == Step(Run(sizeA, sizeB, acts), act)
  {
    assert (acts + [act])[..|acts|] == acts;
  }

  // ---- A run that gets stuck ----

  const Eleven: Bytes := [0, 0, 0, 0, 0, 0, 0, 0, 0, 0, 0]

  /** Blocks are counted by the window, and hold no more than a block each. */
  lemma {:induction false} BlocksSent(e: Ibb, data: Bytes)
    requires e.blockSize == 1 && |e.w.unacked| <= WINDOW_SIZE
    ensures var (e', sent) := SendData(e, data);
            && |e'.w.unacked| <= WINDOW_SIZE && sent <= |e'.w.unacked| - |e.w.unacked|
            && e.out <= e'.out && forall i :: |e.out| <= i < |e'.out| ==> e'.out[i].Data?
    decreases WINDOW_SIZE - |e.w.unacked|
  {
    if data != [] && |e.w.unacked| < WINDOW_SIZE {
      var n := BlockOf(e, data);
      BlocksSent(SendBlock(e, data[..n]), data[n..]);
    }
  }

  /** An end that has sent nothing but data and has more to send. */
  ghost predicate Busy(e: Ibb) {
    && e.state == Open && e.w.buffer.Some? && e.r.pending == []
    && forall i :: 0 <= i < |e.out| ==> e.out[i].Data?
  }

  lemma {:induction false} ElevenSent()
    ensures Busy(Send(NewIbb(Open, 1), Eleven).0)
  {
    var e := NewIbb(Open, 1);
    var e1 := e.(w := e.w.(accepted := e.w.accepted + Eleven));
    BlocksSent(e1, Eleven);
    SendDataSame(e1, Eleven);
  }

  /** `b` has closed and `a`, which has not heard of it, is busy; `b` has refused what it got. */
  ghost predicate Crossing(l: Link) {
    && Busy(l.a) && l.b.state == Closed && !l.b.r.blocked && l.bGot == 0 && l.aGot <= |l.a.out|
    && |l.b.out| > 0 && l.b.out[0].Close?
    && forall i :: 1 <= i < |l.b.out| ==> l.b.out[i].Nack?
  }

  lemma {:induction false} ReachCrossing() returns (acts: seq<Action>)
    ensures Crossing(Run(1, 1, acts))
  {
    acts := [];
    RunSnoc(1, 1, acts, Action(true, UserSend(Eleven)));
    acts := acts + [Action(true, UserSend(Eleven))];
    ElevenSent();
    RunSnoc(1, 1, acts, Action(false, UserClose));
    acts := acts + [Action(false, UserClose)];
  }

  lemma {:induction false} RefusesOne(l: Link)
    requires Crossing(l) && l.aGot < |l.a.out|
    ensures var l' := Step(l, Action(false, Transfer)); Crossing(l') && l'.aGot == l.aGot + 1 && l'.a == l.a
  {
  }

  lemma {:induction false} RefuseAll(acts: seq<Action>) returns (acts': seq<Action>)
    requires Crossing(Run(1, 1, acts))
    ensures Crossing(Run(1, 1, acts')) && Run(1, 1, acts').aGot == |Run(1, 1, acts').a.out|
    decreases |Run(1, 1, acts).a.out| - Run(1, 1, acts).aGot
  {
    acts' := acts;
    var l := Run(1, 1, acts);
    if l.aGot < |l.a.out| {
      RefusesOne(l);
      RunSnoc(1, 1, acts, Action(false, Transfer));
      acts' := RefuseAll(acts + [Action(false, Transfer)]);
    }
  }

  /** `a` has heard of the close and hears the refusals. */
  ghost predicate Hearing(l: Link) {
    && l.a.state == Closing && l.a.w.buffer.Some? && l.a.closeToAck.Some? && l.a.r.pending == []
    && l.aGot == |l.a.out| && !l.b.r.blocked && 0 < l.bGot <= |l.b.out|
    && forall i :: 1 <= i < |l.b.out| ==> l.b.out[i].Nack?
  }

  lemma {:induction false} HearsClose(l: Link)
    requires Crossing(l) && l.aGot == |l.a.out|
    ensures Hearing(Step(l, Action(true, Transfer)))
  {
  }

  lemma {:induction false} HearsRefusal(l: Link)
    requires Hearing(l) && l.bGot < |l.b.out|
    ensures var l' := Step(l, Action(true, Transfer)); Hearing(l') && l'.bGot == l.bGot + 1 && l'.b == l.b
  {
  }

  lemma {:induction false} HearAll(acts: seq<Action>) returns (acts': seq<Action>)
    requires Hearing(Run(1, 1, acts))
    ensures Hearing(Run(1, 1, acts')) && Run(1, 1, acts').bGot == |Run(1, 1, acts').b.out|
    decreases |Run(1, 1, acts).b.out| - Run(1, 1, acts).bGot
  {
    acts' := acts;
    var l := Run(1, 1, acts);
    if l.bGot < |l.b.out| {
      HearsRefusal(l);
      RunSnoc(1, 1, acts, Action(true, Transfer));
      acts' := HearAll(acts + [Action(true, Transfer)]);
    }
  }

  /** One end sends eleven blocks while the other closes: every block is refused, and when all stanzas
      have arrived the first is closing for ever and owes an answer to the other's close. */
  lemma {:induction false} StuckRun() returns (acts: seq<Action>)
    ensures var l := Run(1, 1, acts); Quiescent(l) && Hit(1, 1, acts) && Stuck(l.a) && l.a.closeToAck.Some?
  {
    acts := ReachCrossing();
    acts := RefuseAll(acts);
    HearsClose(Run(1, 1, acts));
    RunSnoc(1, 1, acts, Action(true, Transfer));
    acts := HearAll(acts + [Action(true, Transfer)]);
    ClosingIff(1, 1, acts);
  }
}
