/** Closing handshakes of in-band bytestreams: each end sends at most one close, and a close is answered
    exactly if it arrives before the receiver has closed. */
module IbbCloses {
  import opened Common
  import opened IbbSpec
  import opened IbbEnd
  import opened IbbLink
  import opened IbbClosing

  // ---- What an operation adds to the stanzas sent ----

  predicate Plain(more: seq<Stanza>) {
    forall i :: 0 <= i < |more| ==> !more[i].Close? && !more[i].CloseAck?
  }

  /** The end of the stream: the answer to a close that is remembered, then a close. */
  function Farewell(e: Ibb, id: nat): seq<Stanza> {
    if e.closeToAck.Some? then [CloseAck(e.closeToAck.value), Close(id)] else [Close(id)]
  }

  ghost predicate Goes(e: Ibb, e': Ibb, front: seq<Stanza>, id: nat) {
    && Plain(front)
    && (|| (e'.out == e.out + front && e'.closeToAck == e.closeToAck && (e'.state == Closed <==> e.state == Closed))
        || (&& e.state != Closed && e'.state == Closed && e'.closeToAck.None?
            && e'.out == e.out + front + Farewell(e, id)))
  }

  ghost predicate Proceeds(e: Ibb, e': Ibb) { exists front, id :: Goes(e, e', front, id) }

  lemma {:induction false} Stays(e: Ibb, e': Ibb, front: seq<Stanza>)
    requires Plain(front) && e'.out == e.out + front && e'.closeToAck == e.closeToAck && e'.state == e.state
    ensures Proceeds(e, e')
  {
    assert Goes(e, e', front, 0);
  }

  lemma {:induction false} SendsClose(e: Ibb)
    ensures SendCloseStanza(e).out == e.out + Farewell(e, e.nextId) && SendCloseStanza(e).closeToAck.None?
  {
  }

  lemma {:induction false} CloseProceeds(e: Ibb)
    requires e.state != LocalPending
    ensures Proceeds(e, CloseStream(e))
  {
    if e.state == Closed {
      assert e.out + [] == e.out;
      Stays(e, e, []);
    } else {
      var e1 := AnswerPending(e, false);
      AnswerPendingOut(e, false);
      AnswersAre(e.r.pending, false);
      SendsClose(e1);
      var id := if e.w.buffer.Some? then 0 else e1.nextId;
      assert Farewell(e1, id) == Farewell(e, id);
      assert Goes(e, CloseStream(e), AnswersFor(e.r.pending, false), id);
    }
  }

  lemma {:induction false} SendProceeds(e: Ibb, data: Bytes)
    ensures Proceeds(e, Send(e, data).0)
  {
    var e1 := e.(w := e.w.(accepted := e.w.accepted + data));
    var front: seq<Stanza> := [];
    assert e.out + front == e.out;
    if e.state == Open && e.w.buffer.None? {
      front := SendDataMore(e1, data);
      SendDataSame(e1, data);
    }
    Stays(e, Send(e, data).0, front);
  }

  lemma {:induction false} BlockProceeds(e: Ibb, block: bool)
    ensures Proceeds(e, BlockReading(e, block))
  {
    var front: seq<Stanza> := [];
    assert e.out + front == e.out;
    if e.r.blocked != block && e.r.buffer.Some? && !block {
      AnswerPendingOut(
        e.(r := e.r.(blocked := block, delivered := e.r.delivered + e.r.buffer.value, buffer := None)), true);
      AnswersAre(e.r.pending, true);
      front := AnswersFor(e.r.pending, true);
    }
    Stays(e, BlockReading(e, block), front);
  }

  lemma {:induction false} FlushProceeds(e: Ibb)
    requires e.w.buffer.Some?
    ensures Proceeds(e, Flush(e))
  {
    var data := SendDataMore(e, e.w.buffer.value);
    SendDataSame(e, e.w.buffer.value);
    var (e1, sent) := SendData(e, e.w.buffer.value);
    var e2 := e1.(w := e1.w.(buffer := None, blocked := false));
    SendsClose(e2);
    assert Farewell(e2, e2.nextId) == Farewell(e, e2.nextId);
    assert Goes(e, Flush(e), data, e2.nextId);
  }

  lemma {:induction false} AckProceeds(e: Ibb, id: nat)
    ensures Proceeds(e, IqReply(e, id, true))
  {
    var e1 := Answered(e, id);
    if e.w.buffer.Some? {
      FlushProceeds(e1);
      var front, n :| Goes(e1, Flush(e1), front, n);
      assert Farewell(e1, n) == Farewell(e, n);
      assert Goes(e, Flush(e1), front, n);
    } else {
      assert e.out + [] == e.out;
      Stays(e, e1, []);
    }
  }

  lemma {:induction false} NackProceeds(e: Ibb, id: nat)
    requires e.state != LocalPending
    ensures Proceeds(e, IqReply(e, id, false))
  {
    var e1 := Refused(e, id);
    CloseProceeds(e1);
    var front, n :| Goes(e1, CloseStream(e1), front, n);
    assert Farewell(e1, n) == Farewell(e, n);
    assert Goes(e, CloseStream(e1), front, n);
  }

  lemma {:induction false} OverflowProceeds(e: Ibb, id: nat)
    requires e.state != LocalPending
    ensures Proceeds(e, CloseStream(Emit(e, Nack(id))))
  {
    var e1 := Emit(e, Nack(id));
    CloseProceeds(e1);
    var front, n :| Goes(e1, CloseStream(e1), front, n);
    assert Farewell(e1, n) == Farewell(e, n);
    var all := [Nack(id)] + front;
    assert e1.out + front == e.out + all;
    assert Goes(e, CloseStream(e1), all, n);
  }

  lemma {:induction false} ReceiveProceeds(e: Ibb, id: nat, payload: Bytes)
    requires e.state != LocalPending
    ensures Proceeds(e, Receive(e, Some(id), payload))
  {
    var e0 := e.(r := Record(e.r, Some(id), payload));
    if e.state != Open {
      Stays(e, Receive(e, Some(id), payload), [Nack(id)]);
    } else if !e.r.blocked {
      Stays(e, Receive(e, Some(id), payload), [Ack(id)]);
    } else if |Content(e.r.buffer)| + |payload| > READ_BUFFER_MAX_SIZE {
      OverflowProceeds(e0, id);
      var e' := CloseStream(Emit(e0, Nack(id)));
      var front, n :| Goes(e0, e', front, n);
      assert Farewell(e0, n) == Farewell(e, n);
      assert Goes(e, e', front, n);
    } else {
      assert e.out + [] == e.out;
      Stays(e, Receive(e, Some(id), payload), []);
    }
  }

  /** An end declines the offer, and does nothing else, if and only if it has not been accepted. */
  lemma {:induction false} DeclinesIff(e: Ibb)
    requires e.r.pending == []
    ensures CloseStream(e).out == e.out + [Decline] <==> e.state == LocalPending
    ensures e.state == LocalPending ==> CloseStream(e).state == Closed
  {
    if e.state != LocalPending {
      CloseProceeds(e);
      var front, id :| Goes(e, CloseStream(e), front, id);
      if e.state == Closed || e.w.buffer.Some? {
        assert |CloseStream(e).out| == |e.out|;
      } else {
        SendsClose(e);
        var out := e.out + Farewell(e, e.nextId);
        assert CloseStream(e).out == out && out[|out| - 1].Close?;
        assert (e.out + [Decline])[|e.out|] == Decline;
      }
    }
  }

  // ---- One direction of closing ----

  /** An end has sent a close if and only if it is closed, and then one only. */
  ghost predicate OneClose(e: Ibb) {
    && (e.state == Open || Leaving(e.state))
    && (e.state == Closed <==> exists i :: 0 <= i < |e.out| && e.out[i].Close?)
    && (forall i, j :: 0 <= i < j < |e.out| ==> !(e.out[i].Close? && e.out[j].Close?))
  }

  /** What `e` owes for the closes among the stanzas `got`: an answer that is remembered, until it
      closes; if it was closed already, for good. */
  ghost predicate Owes(e: Ibb, got: seq<Stanza>, late: bool) {
    && (late ==> e.state == Closed && e.closeToAck.Some?)
    && (e.state == Closed && !late ==> e.closeToAck.None?)
    && (forall id: nat :: e.closeToAck == Some(id) ==> Close(id) in got)
    && (forall id: nat :: CloseAck(id) in e.out ==> e.state == Closed && !late && Close(id) in got)
    && (forall id: nat :: Close(id) in got ==> e.closeToAck == Some(id) || CloseAck(id) in e.out)
  }

  lemma {:induction false} GoesOne(e: Ibb, e': Ibb, front: seq<Stanza>, id: nat)
    requires OneClose(e) && Goes(e, e', front, id) && (e'.state == Open || Leaving(e'.state))
    ensures OneClose(e')
  {
    if e'.out == e.out + front {
      forall i | 0 <= i < |e.out| && e.out[i].Close? ensures e'.out[i].Close? {}
      assert forall i :: 0 <= i < |front| ==> e'.out[|e.out| + i] == front[i];
    } else {
      var all := e.out + front + Farewell(e, id);
      assert all[|all| - 1] == Close(id);
    }
  }

  lemma {:induction false} GoesOwes(e: Ibb, e': Ibb, front: seq<Stanza>, id: nat, got: seq<Stanza>, late: bool)
    requires Owes(e, got, late) && Goes(e, e', front, id)
    ensures Owes(e', got, late)
  {
    if e'.out == e.out + front && e'.closeToAck == e.closeToAck && (e'.state == Closed <==> e.state == Closed) {
      assert forall n: nat :: CloseAck(n) in e'.out <==> CloseAck(n) in e.out;
    } else {
      assert forall n: nat :: CloseAck(n) in e'.out <==> CloseAck(n) in e.out || e.closeToAck == Some(n);
    }
  }

  /** Stanzas other than closes change nothing. */
  lemma {:induction false} OwesMore(e: Ibb, got: seq<Stanza>, s: Stanza, late: bool)
    requires Owes(e, got, late) && !s.Close?
    ensures Owes(e, got + [s], late)
  {
    assert forall id: nat :: Close(id) in got + [s] <==> Close(id) in got;
  }

  /** A close arrives, the only one. */
  lemma {:induction false} OwesClose(e: Ibb, got: seq<Stanza>, id: nat, late: bool)
    requires Owes(e, got, late) && forall n: nat :: Close(n) !in got
    ensures Owes(e.(closeToAck := Some(id)), got + [Close(id)], e.state == Closed)
  {
    assert forall n: nat :: Close(n) in got + [Close(id)] <==> n == id;
  }

  // ---- Every run ----

  /** A close reaches an end that is closed. */
  predicate LateStep(l: Link, act: Action) {
    act == Action(true, Transfer) && l.bGot < |l.b.out| && l.b.out[l.bGot].Close? && l.a.state == Closed
  }

  /** This happened at `a` at some step of the run. */
  predicate Late(sizeA: nat, sizeB: nat, acts: seq<Action>) {
    acts != [] &&
    var front := acts[..|acts| - 1];
    Late(sizeA, sizeB, front) || LateStep(Run(sizeA, sizeB, front), acts[|acts| - 1])
  }

  ghost predicate CloseInv(l: Link, late: bool) {
    OneClose(l.a) && OneClose(l.b) && l.bGot <= |l.b.out| && Owes(l.a, l.b.out[..l.bGot], late)
  }

  /** `e` after a close is remembered, before it is acted upon. */
  function Remembered(e: Ibb, s: Stanza): Ibb { if s.Close? then e.(closeToAck := Some(s.id)) else e }

  lemma {:induction false} DeliverProceeds(e: Ibb, s: Stanza)
    requires e.state != LocalPending
    ensures Proceeds(Remembered(e, s), Deliver(e, s))
  {
    assert e.out + [] == e.out;
    match s
    case Data(id, _, payload) => ReceiveProceeds(e, id, payload);
    case Close(id) => CloseProceeds(Remembered(e, s));
    case Ack(id) => if id in e.w.unacked { AckProceeds(e, id); } else { Stays(e, e, []); }
    case Nack(id) => if id in e.w.unacked { NackProceeds(e, id); } else { Stays(e, e, []); }
    case CloseAck(_) => Stays(e, e, []);
    case Decline => Stays(e, e, []);
  }

  lemma {:induction false} LocalProceeds(l: Link, event: Event)
    requires l.a.state != LocalPending && !(event.Transfer? && l.bGot < |l.b.out|)
    ensures Proceeds(l.a, StepA(l, event).a)
  {
    assert l.a.out + [] == l.a.out;
    match event
    case UserSend(data) => SendProceeds(l.a, data);
    case UserClose => CloseProceeds(l.a);
    case UserBlock(block) => BlockProceeds(l.a, block);
    case Transfer => Stays(l.a, l.a, []);
  }

  /** The other end has sent no close before the one that arrives. */
  lemma {:induction false} FirstClose(e: Ibb, n: nat)
    requires OneClose(e) && n < |e.out| && e.out[n].Close?
    ensures forall id: nat :: Close(id) !in e.out[..n]
  {
  }

  lemma {:induction false} ArrivalKeeps(l: Link, late: bool)
    requires CloseInv(l, late) && l.bGot < |l.b.out|
    requires var a' := Deliver(l.a, l.b.out[l.bGot]); a'.state == Open || Leaving(a'.state)
    ensures CloseInv(StepA(l, Transfer), late || LateStep(l, Action(true, Transfer)))
  {
    var s, got := l.b.out[l.bGot], l.b.out[..l.bGot];
    var e, a' := Remembered(l.a, s), Deliver(l.a, s);
    assert l.b.out[..l.bGot + 1] == got + [s];
    var late' := late || LateStep(l, Action(true, Transfer));
    if s.Close? { FirstClose(l.b, l.bGot); OwesClose(l.a, got, s.id, late); } else { OwesMore(l.a, got, s, late); }
    assert Owes(e, got + [s], late');
    DeliverProceeds(l.a, s);
    var front, id :| Goes(e, a', front, id);
    GoesOne(e, a', front, id);
    GoesOwes(e, a', front, id, got + [s], late');
  }

  lemma {:induction false} LocalKeeps(l: Link, event: Event, late: bool)
    requires CloseInv(l, late) && !(event.Transfer? && l.bGot < |l.b.out|)
    requires var a' := StepA(l, event).a; a'.state == Open || Leaving(a'.state)
    ensures CloseInv(StepA(l, event), late)
  {
    LocalProceeds(l, event);
    var a' := StepA(l, event).a;
    var front, id :| Goes(l.a, a', front, id);
    GoesOne(l.a, a', front, id);
    GoesOwes(l.a, a', front, id, l.b.out[..l.bGot], late);
  }

  /** A step of the other end. */
  lemma {:induction false} OtherKeeps(l: Link, event: Event, late: bool)
    requires CloseInv(Flip(l), late) && Inv(l)
    requires var a' := StepA(l, event).a; a'.state == Open || Leaving(a'.state)
    ensures CloseInv(Flip(StepA(l, event)), late)
  {
    var a' := StepA(l, event).a;
    StepGrows(l, event);
    StepBlockSize(l, event);
    if event.Transfer? && l.bGot < |l.b.out| {
      var s := l.b.out[l.bGot];
      DeliverProceeds(l.a, s);
      var front, id :| Goes(Remembered(l.a, s), a', front, id);
      GoesOne(Remembered(l.a, s), a', front, id);
    } else {
      LocalProceeds(l, event);
      var front, id :| Goes(l.a, a', front, id);
      GoesOne(l.a, a', front, id);
    }
    assert a'.out[..l.aGot] == l.a.out[..l.aGot];
  }

  lemma {:induction false} ActionCloses(l: Link, act: Action, late: bool)
    requires CloseInv(l, late) && Inv(l) && Refusing(Step(l, act))
    ensures CloseInv(Step(l, act), late || LateStep(l, act))
  {
    if !act.atA {
      FlipKeeps(l);
      assert Flip(Flip(l)) == l;
      OtherKeeps(Flip(l), act.event, late);
    } else if act.event.Transfer? && l.bGot < |l.b.out| {
      assert act == Action(true, Transfer);
      ArrivalKeeps(l, late);
    } else {
      LocalKeeps(l, act.event, late);
    }
  }

  lemma {:induction false} RunCloses(sizeA: nat, sizeB: nat, acts: seq<Action>)
    ensures CloseInv(Run(sizeA, sizeB, acts), Late(sizeA, sizeB, acts))
    decreases |acts|
  {
    if acts != [] {
      var front := acts[..|acts| - 1];
      RunCloses(sizeA, sizeB, front);
      RunKeeps(sizeA, sizeB, front);
      RunRefuses(sizeA, sizeB, acts);
      ActionCloses(Run(sizeA, sizeB, front), acts[|acts| - 1], Late(sizeA, sizeB, front));
    }
  }

  /** In every run: an end is closed if and only if it has sent a close, and it sends only one; of the
      closes that reached it, it has answered exactly those that came before it closed, once it is
      closed; and it answers no other. */
  lemma {:induction false} CloseAnswered(sizeA: nat, sizeB: nat, acts: seq<Action>)
    ensures var l := Run(sizeA, sizeB, acts);
            && l.bGot <= |l.b.out|
            && (l.a.state == Closed <==> exists i :: 0 <= i < |l.a.out| && l.a.out[i].Close?)
            && (forall i, j :: 0 <= i < j < |l.a.out| ==> !(l.a.out[i].Close? && l.a.out[j].Close?))
            && (forall id: nat :: Close(id) in l.b.out[..l.bGot] ==>
                  (CloseAck(id) in l.a.out <==> l.a.state == Closed && !Late(sizeA, sizeB, acts)))
            && (forall id: nat :: CloseAck(id) in l.a.out ==> Close(id) in l.b.out[..l.bGot])
  {
    RunCloses(sizeA, sizeB, acts);
  }
}
