/** When an end of an in-band bytestream refuses data, and that otherwise everything the users send is
    delivered; which closes are answered. */
module IbbDelivery {
  import opened Common
  import opened IbbSpec
  import opened IbbEnd
  import opened IbbLink
  import opened IbbClosing

  // ---- One stanza ----

  /** Reading is blocked and the bytes do not fit the buffer of 512 KiB. */
  predicate Overflow(r: Reading, payload: Bytes) {
    r.blocked && |Content(r.buffer)| + |payload| > 524288
  }

  lemma {:induction false} NackAt(out: seq<Stanza>, i: nat)
    requires i < |out| && out[i].Nack?
    ensures HasNack(out)
    decreases |out|
  {
    if i < |out| - 1 { NackAt(out[..|out| - 1], i); }
  }

  /** What closing adds to the refusals sent. */
  lemma {:induction false} CloseNack(e: Ibb)
    ensures HasNack(CloseStream(e).out) <==> HasNack(e.out) || (e.state != Closed && e.r.pending != [])
  {
    if e.state != Closed {
      AnswerPendingOut(e, false);
      AnswersForEffect(e.out, e.r.pending, false, AnswerPending(e, false).out);
      FinishCloseRest(AnswerPending(e, false));
    }
  }

  lemma {:induction false} OverflowNacks(e: Ibb, id: nat)
    ensures HasNack(CloseStream(Emit(e, Nack(id))).out)
  {
    OutSnoc(e.out, Nack(id));
    CloseNack(Emit(e, Nack(id)));
  }

  /** An open end refuses a data IQ if and only if reading is blocked and the buffer would overflow; it
      closes exactly then. Otherwise the bytes reach the user at once, or behind those buffered. */
  lemma {:induction false} RefusesIff(e: Ibb, id: nat, payload: Bytes)
    requires e.state == Open && (!e.r.blocked ==> e.r.buffer.None?)
    ensures var e', full := Receive(e, Some(id), payload), Overflow(e.r, payload);
            && (HasNack(e'.out) <==> HasNack(e.out) || full)
            && (e'.state == Open <==> !full)
            && (!full ==> e'.r.delivered + Content(e'.r.buffer) == e.r.delivered + Content(e.r.buffer) + payload)
  {
    var e0 := e.(r := Record(e.r, Some(id), payload));
    if Overflow(e.r, payload) {
      OverflowNacks(e0, id);
      CloseLeaves(Emit(e0, Nack(id)));
    } else if e.r.blocked {
      assert e.r.delivered + (Content(e.r.buffer) + payload) == e.r.delivered + Content(e.r.buffer) + payload;
    } else {
      OutSnoc(e.out, Ack(id));
    }
  }

  /** The same for a message, which has no answer: it is dropped if and only if the end is not open or
      the buffer would overflow, and nothing is sent unless that closes the stream. */
  lemma {:induction false} DropsIff(e: Ibb, payload: Bytes)
    requires !e.r.dropped
    ensures var e', full := Receive(e, None, payload), e.state == Open && Overflow(e.r, payload);
            && (e'.r.dropped <==> e.state != Open || full)
            && (!full ==> e'.out == e.out && e'.state == e.state)
            && (full ==> Leaving(e'.state))
  {
    var e0 := e.(r := Record(e.r, None, payload).(dropped := true));
    if e.state == Open && Overflow(e.r, payload) {
      CloseLeaves(e0);
      AnswerPendingOut(e0, false);
    }
  }

  /** Bytes are accepted if and only if the end is open; otherwise nothing happens. */
  lemma {:induction false} AcceptsIff(e: Ibb, data: Bytes)
    ensures var (e', taken) := Send(e, data);
            && (taken <==> e.state == Open)
            && e'.w.accepted == (if taken then e.w.accepted + data else e.w.accepted) && (!taken ==> e' == e)
  {
    SameAccepted(e.(w := e.w.(accepted := e.w.accepted + data)), data);
  }

  /** Blocking and unblocking always take effect. Unblocking gives the user what is buffered, in any state,
      and acknowledges the data IQs that waited, oldest first. */
  lemma {:induction false} UnblockingDelivers(e: Ibb, block: bool)
    requires EndInv(e)
    ensures var e' := BlockReading(e, block);
            && e'.r.blocked == block && e'.state == e.state
            && e'.r.delivered + Content(e'.r.buffer) == e.r.delivered + Content(e.r.buffer)
            && (!block ==> e'.r.buffer.None? && e'.r.pending == [] && e'.out == e.out + AnswersFor(e.r.pending, true))
            && (block ==> e'.r.delivered == e.r.delivered && e'.out == e.out)
  {
    assert e.out + [] == e.out;
    if e.r.blocked && !block && e.r.buffer.Some? {
      var delivered := e.r.delivered + e.r.buffer.value;
      AnswerPendingOut(e.(r := e.r.(blocked := block, delivered := delivered, buffer := None)), true);
      assert delivered + [] == delivered;
    }
  }

  /** The data stanzas among some. */
  predicate AllFull(more: seq<Stanza>, size: nat) {
    forall i :: 0 <= i < |more| ==> more[i].Data? && |more[i].payload| == size
  }

  /** Data goes out in as few stanzas as there can be: all are full blocks, but for the last if it ends
      the data. */
  lemma {:induction false} FullBlocks(e: Ibb, data: Bytes) returns (more: seq<Stanza>)
    ensures var (e', sent) := SendData(e, data);
            && e'.out == e.out + more && (more == [] ==> sent == 0)
            && (sent < |data| ==> AllFull(more, e.blockSize))
            && (sent == |data| && more != [] ==> AllFull(more[..|more| - 1], e.blockSize))
    decreases WINDOW_SIZE - |e.w.unacked|
  {
    more := [];
    assert e.out + more == e.out;
    if data != [] && |e.w.unacked| < WINDOW_SIZE {
      var n := BlockOf(e, data);
      var s := Data(e.nextId, e.w.seqNo, data[..n]);
      var e1 := SendBlock(e, data[..n]);
      var rest := FullBlocks(e1, data[n..]);
      more := [s] + rest;
      assert e.out + more == e1.out + rest;
      var sent := SendData(e1, data[n..]).1;
      if n == |data| {
        assert rest == [] by { assert SendData(e1, data[n..]) == (e1, 0); assert e1.out + rest == e1.out; }
      } else if n + sent == |data| {
        assert rest != [];
        assert more[..|more| - 1] == [s] + rest[..|rest| - 1];
      }
    }
  }

  // ---- Which steps refuse ----

  predicate Arrives(l: Link, event: Event) { event.Transfer? && l.bGot < |l.b.out| }

  /** A data stanza reaches an end that is not open, or one that is blocked and full. */
  predicate RefusesData(l: Link, event: Event) {
    && Arrives(l, event) && l.b.out[l.bGot].Data?
    && (l.a.state != Open || Overflow(l.a.r, l.b.out[l.bGot].payload))
  }

  /** An end is closed with data IQs it has not answered. */
  predicate ClosesPending(l: Link, event: Event) {
    && l.a.r.pending != []
    && (|| event.UserClose?
        || (Arrives(l, event) &&
            var s := l.b.out[l.bGot]; s.Close? || (s.Nack? && s.id in l.a.w.unacked)))
  }

  lemma {:induction false} ReceiveNack(e: Ibb, id: nat, payload: Bytes)
    requires EndInv(e)
    ensures HasNack(Receive(e, Some(id), payload).out) <==> HasNack(e.out) || e.state != Open || Overflow(e.r, payload)
  {
    if e.state == Open { RefusesIff(e, id, payload); } else { OutSnoc(e.out, Nack(id)); }
  }

  lemma {:induction false} AckNack(e: Ibb, id: nat)
    requires EndInv(e)
    ensures HasNack(IqReply(e, id, true).out) <==> HasNack(e.out)
  {
    var e1 := Answered(e, id);
    AnsweredWriter(e, id);
    if e1.w.buffer.Some? {
      SendDataEffect(e1, e1.w.buffer.value);
      var (e', sent) := SendData(e1, e1.w.buffer.value);
      FlushedRest(e1, e', sent);
    }
  }

  lemma {:induction false} SendNack(e: Ibb, data: Bytes)
    requires EndInv(e)
    ensures HasNack(Send(e, data).0.out) <==> HasNack(e.out)
  {
    if e.state == Open && e.w.buffer.None? {
      OpenNotClosed(e);
      SendDataEffect(e.(w := e.w.(accepted := e.w.accepted + data)), data);
    }
  }

  lemma {:induction false} BlockNack(e: Ibb, block: bool)
    ensures HasNack(BlockReading(e, block).out) <==> HasNack(e.out)
  {
    if e.r.blocked != block && e.r.buffer.Some? {
      var e1 := e.(r := e.r.(blocked := false, delivered := e.r.delivered + e.r.buffer.value, buffer := None));
      AnswerPendingOut(e1, true);
      AnswersForEffect(e1.out, e1.r.pending, true, AnswerPending(e1, true).out);
    }
  }

  lemma {:induction false} DeliverNack(e: Ibb, s: Stanza)
    requires EndInv(e)
    ensures HasNack(Deliver(e, s).out) <==>
              || HasNack(e.out)
              || (s.Data? && (e.state != Open || Overflow(e.r, s.payload)))
              || (e.r.pending != [] && (s.Close? || (s.Nack? && s.id in e.w.unacked)))
  {
    match s
    case Data(id, _, payload) => ReceiveNack(e, id, payload);
    case Close(id) => CloseNack(e.(closeToAck := Some(id)));
    case Ack(id) => if id in e.w.unacked { AckNack(e, id); }
    case Nack(id) => if id in e.w.unacked { CloseNack(Refused(e, id)); }
    case CloseAck(_) =>
    case Decline =>
  }

  /** A step of a run makes an end refuse in exactly these two cases. */
  lemma {:induction false} RefusalStep(l: Link, event: Event)
    requires Inv(l)
    ensures HasNack(StepA(l, event).a.out) <==> HasNack(l.a.out) || RefusesData(l, event) || ClosesPending(l, event)
  {
    match event
    case UserSend(data) => SendNack(l.a, data);
    case UserClose => CloseNack(l.a);
    case UserBlock(block) => BlockNack(l.a, block);
    case Transfer => if l.bGot < |l.b.out| { DeliverNack(l.a, l.b.out[l.bGot]); }
  }

  /** What closes an end: its user, the other end's close, the refusal of a stanza it has outstanding, or
      data that overfills its buffer. */
  predicate MustClose(l: Link, event: Event) {
    || event.UserClose?
    || (Arrives(l, event) &&
        var s := l.b.out[l.bGot];
        s.Close? || (s.Nack? && s.id in l.a.w.unacked) || (s.Data? && l.a.state == Open && Overflow(l.a.r, s.payload)))
  }

  lemma {:induction false} CloseState(e: Ibb)
    requires e.state == Open || Leaving(e.state)
    ensures CloseStream(e).state == if e.w.buffer.Some? && e.state != Closed then Closing else Closed
  {
    if e.state != Closed { AnswerPendingOut(e, false); }
  }

  lemma {:induction false} DeliverCloses(e: Ibb, s: Stanza)
    requires e.state == Open || Leaving(e.state)
    requires s.Close? || (s.Nack? && s.id in e.w.unacked) || (s.Data? && e.state == Open && Overflow(e.r, s.payload))
    ensures Deliver(e, s).state == if e.w.buffer.Some? && e.state != Closed then Closing else Closed
  {
    match s
    case Close(id) => CloseState(e.(closeToAck := Some(id)));
    case Nack(id) => CloseState(Refused(e, id));
    case Data(id, _, payload) => CloseState(Emit(e.(r := Record(e.r, Some(id), payload)), Nack(id)));
  }

  /** In every run, each of these closes an end at once, or as soon as its spill buffer is empty. */
  lemma {:induction false} ClosesNow(sizeA: nat, sizeB: nat, acts: seq<Action>, event: Event)
    requires MustClose(Run(sizeA, sizeB, acts), event)
    ensures var a := Run(sizeA, sizeB, acts).a;
            Run(sizeA, sizeB, acts + [Action(true, event)]).a.state
            == if a.w.buffer.Some? && a.state != Closed then Closing else Closed
  {
    RunRefuses(sizeA, sizeB, acts);
    RunSnoc(sizeA, sizeB, acts, Action(true, event));
    var l := Run(sizeA, sizeB, acts);
    if event.UserClose? { CloseState(l.a); } else { DeliverCloses(l.a, l.b.out[l.bGot]); }
  }

  // ---- Runs in which nothing is refused ----

  /** The step neither closes an end nor overfills a blocked one. */
  predicate CalmStep(l: Link, event: Event) {
    && !event.UserClose?
    && (Arrives(l, event) && l.b.out[l.bGot].Data? ==> !Overflow(l.a.r, l.b.out[l.bGot].payload))
  }

  predicate Calm(sizeA: nat, sizeB: nat, acts: seq<Action>) {
    acts == [] ||
    var front, act := acts[..|acts| - 1], acts[|acts| - 1];
    var l := Run(sizeA, sizeB, front);
    Calm(sizeA, sizeB, front) && CalmStep(if act.atA then l else Flip(l), act.event)
  }

  /** All that the user of one end sends, in order. */
  function SentBy(acts: seq<Action>, atA: bool): Bytes {
    if acts == [] then []
    else
      var act := acts[|acts| - 1];
      SentBy(acts[..|acts| - 1], atA) + if act.atA == atA && act.event.UserSend? then act.event.data else []
  }

  ghost predicate Flowing(e: Ibb) { e.state == Open && !HasNack(e.out) }

  function Adds(event: Event): Bytes { if event.UserSend? then event.data else [] }

  lemma {:induction false} OpenStays(e: Ibb, s: Stanza)
    requires EndInv(e) && e.state == Open && !s.Nack? && !s.Close? && (s.Data? ==> !Overflow(e.r, s.payload))
    ensures Deliver(e, s).state == Open && Deliver(e, s).w.accepted == e.w.accepted
  {
    match s
    case Data(id, _, payload) => RefusesIff(e, id, payload);
    case Ack(id) => if e.w.buffer.Some? { SendDataSame(Answered(e, id), e.w.buffer.value); SameAccepted(Answered(e, id), e.w.buffer.value); }
    case CloseAck(_) =>
    case Decline =>
  }

  lemma {:induction false} SameAccepted(e: Ibb, data: Bytes)
    ensures SendData(e, data).0.w.accepted == e.w.accepted
    decreases WINDOW_SIZE - |e.w.unacked|
  {
    if data != [] && |e.w.unacked| < WINDOW_SIZE {
      var n := BlockOf(e, data);
      SameAccepted(SendBlock(e, data[..n]), data[n..]);
    }
  }

  lemma {:induction false} OpenSends(e: Ibb, data: Bytes)
    requires e.state == Open
    ensures Send(e, data).0.state == Open && Send(e, data).0.w.accepted == e.w.accepted + data
  {
    var e1 := e.(w := e.w.(accepted := e.w.accepted + data));
    SendDataSame(e1, data);
    SameAccepted(e1, data);
  }

  lemma {:induction false} OpenBlocks(e: Ibb, block: bool)
    ensures BlockReading(e, block).state == e.state && BlockReading(e, block).w == e.w
  {
    if e.r.buffer.Some? {
      AnswerPendingOut(
        e.(r := e.r.(blocked := block, delivered := e.r.delivered + e.r.buffer.value, buffer := None)), true);
    }
  }

  lemma {:induction false} FlowingStep(l: Link, event: Event)
    requires Inv(l) && Flowing(l.a) && Flowing(l.b) && CalmStep(l, event)
    ensures Flowing(StepA(l, event).a) && StepA(l, event).b == l.b
    ensures StepA(l, event).a.w.accepted == l.a.w.accepted + Adds(event)
  {
    if Arrives(l, event) && l.b.out[l.bGot].Nack? { NackAt(l.b.out, l.bGot); }
    RefusalStep(l, event);
    assert l.a.w.accepted + [] == l.a.w.accepted;
    match event
    case UserSend(data) => OpenSends(l.a, data);
    case UserBlock(block) => OpenBlocks(l.a, block);
    case Transfer => if l.bGot < |l.b.out| { OpenStays(l.a, l.b.out[l.bGot]); }
  }

  /** Both ends are open, nothing was refused, and each has accepted the bytes given. */
  ghost predicate Carried(l: Link, byA: Bytes, byB: Bytes) {
    Flowing(l.a) && Flowing(l.b) && l.a.w.accepted == byA && l.b.w.accepted == byB
  }

  lemma {:induction false} FlowingAction(l: Link, act: Action, byA: Bytes, byB: Bytes)
    requires Inv(l) && Carried(l, byA, byB) && CalmStep(if act.atA then l else Flip(l), act.event)
    ensures Carried(Step(l, act), if act.atA then byA + Adds(act.event) else byA,
                    if act.atA then byB else byB + Adds(act.event))
  {
    FlipKeeps(l);
    FlowingStep(if act.atA then l else Flip(l), act.event);
  }

  lemma {:induction false} SentBySnoc(acts: seq<Action>, atA: bool)
    requires acts != []
    ensures var act := acts[|acts| - 1];
            SentBy(acts, atA)
            == if act.atA == atA then SentBy(acts[..|acts| - 1], atA) + Adds(act.event) else SentBy(acts[..|acts| - 1], atA)
  {
    assert SentBy(acts[..|acts| - 1], atA) + [] == SentBy(acts[..|acts| - 1], atA);
  }

  /** If nobody closes and no blocked reader is handed more than fits, both ends stay open and never
      refuse anything, and all that the users send is accepted. */
  lemma {:induction false} CalmRun(sizeA: nat, sizeB: nat, acts: seq<Action>)
    requires Calm(sizeA, sizeB, acts)
    ensures Carried(Run(sizeA, sizeB, acts), SentBy(acts, true), SentBy(acts, false))
    decreases |acts|
  {
    if acts != [] {
      var front, act := acts[..|acts| - 1], acts[|acts| - 1];
      CalmRun(sizeA, sizeB, front);
      RunKeeps(sizeA, sizeB, front);
      FlowingAction(Run(sizeA, sizeB, front), act, SentBy(front, true), SentBy(front, false));
      SentBySnoc(acts, true);
      SentBySnoc(acts, false);
    }
  }

  /** Then the two ends are a queue of bytes in both directions, into which everything the users send
      goes; and what the user of one end sent, the user of the other has received once all stanzas have
      arrived and that user is reading. */
  lemma {:induction false} CalmDelivery(sizeA: nat, sizeB: nat, acts: seq<Action>)
    requires Calm(sizeA, sizeB, acts)
    ensures var l := Run(sizeA, sizeB, acts);
            && IsByteQueue(l.a, l.b, l.aGot) && IsByteQueue(l.b, l.a, l.bGot)
            && l.a.w.accepted == SentBy(acts, true) && l.b.w.accepted == SentBy(acts, false)
            && (l.aGot == |l.a.out| && l.bGot == |l.b.out| && !l.b.r.blocked ==> l.b.r.delivered == SentBy(acts, true))
            && (l.aGot == |l.a.out| && l.bGot == |l.b.out| && !l.a.r.blocked ==> l.a.r.delivered == SentBy(acts, false))
  {
    CalmRun(sizeA, sizeB, acts);
    EndToEnd(sizeA, sizeB, acts);
    RunKeeps(sizeA, sizeB, acts);
    var l := Run(sizeA, sizeB, acts);
    FlipKeeps(l);
    if l.aGot == |l.a.out| && l.bGot == |l.b.out| {
      if !l.b.r.blocked { AllAnswered(l); }
      if !l.a.r.blocked { AllAnswered(Flip(l)); }
    }
  }
}
