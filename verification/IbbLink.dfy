/** Two IBB ends joined by a connection that delivers stanzas in order, in every possible run. */
module IbbLink {
  import opened Common
  import opened IbbSpec
  import opened IbbEnd

  /** Two open ends; `aGot` of the stanzas of `a` have reached `b`, and the other way round. */
  datatype Link = Link(a: Ibb, b: Ibb, aGot: nat, bGot: nat)

  datatype Event = UserSend(data: Bytes) | UserClose | UserBlock(block: bool) | Transfer

  /** Something happens at the end `atA`. */
  datatype Action = Action(atA: bool, event: Event)

  function Flip(l: Link): Link { Link(l.b, l.a, l.bGot, l.aGot) }

  /** A stanza reaches an end. The connection hands a reply to the request that waits for it. */
  function Deliver(e: Ibb, s: Stanza): Ibb {
    match s
    case Data(id, _, payload) => Receive(e, Some(id), payload)
    case Close(id) => CloseReceived(e, id)
    case Ack(id) => if id in e.w.unacked then IqReply(e, id, true) else e
    case Nack(id) => if id in e.w.unacked then IqReply(e, id, false) else e
    case CloseAck(_) => e
    case Decline => e
  }

  /** The next stanza from `b` turns `a` into `e`. */
  function Taken(l: Link, e: Ibb): Link { l.(a := e, bGot := l.bGot + 1) }

  function StepA(l: Link, event: Event): Link {
    match event
    case UserSend(data) => l.(a := Send(l.a, data).0)
    case UserClose => l.(a := CloseStream(l.a))
    case UserBlock(block) => l.(a := BlockReading(l.a, block))
    case Transfer => if l.bGot < |l.b.out| then Taken(l, Deliver(l.a, l.b.out[l.bGot])) else l
  }

  function Step(l: Link, act: Action): Link {
    if act.atA then StepA(l, act.event) else Flip(StepA(Flip(l), act.event))
  }

  function Run(sizeA: nat, sizeB: nat, acts: seq<Action>): Link {
    if acts == [] then Link(NewIbb(Open, sizeA), NewIbb(Open, sizeB), 0, 0)
    else Step(Run(sizeA, sizeB, acts[..|acts| - 1]), acts[|acts| - 1])
  }

  // ---- The invariant ----

  function Ids(d: seq<Stanza>): (r: seq<nat>)
    requires forall k :: 0 <= k < |d| ==> d[k].Data?
    ensures |r| == |d| && forall k :: 0 <= k < |d| ==> r[k] == d[k].id
  {
    if d == [] then [] else Ids(d[..|d| - 1]) + [d[|d| - 1].id]
  }

  /** What the receiver `r` has seen of the sender `s`. */
  ghost predicate Forward(s: Ibb, r: Reading, sGot: nat) {
    && sGot <= |s.out|
    && r.got == Payloads(s.out[..sGot])
    && r.received == Ids(DataOf(s.out[..sGot]))
    && !r.dropped
  }

  /** What the sender's window `w` has seen of the answers in `out`. */
  ghost predicate Backward(w: Writing, out: seq<Stanza>, got: nat) {
    && got <= |out|
    && (forall id :: id in w.unacked ==> id !in Answers(out[..got]))
    && (w.refused > 0 ==> HasNack(out[..got]))
  }

  ghost predicate Dir(s: Ibb, r: Ibb, sGot: nat, rGot: nat) {
    Forward(s, r.r, sGot) && Backward(s.w, r.out, rGot)
  }

  ghost predicate Inv(l: Link) {
    EndInv(l.a) && EndInv(l.b) && Dirs(l)
  }

  ghost predicate Dirs(l: Link) {
    Dir(l.a, l.b, l.aGot, l.bGot) && Dir(l.b, l.a, l.bGot, l.aGot)
  }

  // ---- Each step keeps it ----

  lemma PayloadsSnoc(front: seq<Stanza>, back: seq<Stanza>, all: seq<Stanza>, s: Stanza)
    requires Payloads(all) == Payloads(front) + Payloads(back)
    ensures Payloads(all + [s]) == Payloads(front) + Payloads(back + [s])
  {
    OutSnoc(all, s);
    OutSnoc(back, s);
    if s.Data? { Assoc(Payloads(front), Payloads(back), s.payload); }
  }

  lemma DataSnoc(front: seq<Stanza>, back: seq<Stanza>, all: seq<Stanza>, s: Stanza)
    requires DataOf(all) == DataOf(front) + DataOf(back)
    ensures DataOf(all + [s]) == DataOf(front) + DataOf(back + [s])
  {
    OutSnoc(all, s);
    OutSnoc(back, s);
    if s.Data? { Assoc(DataOf(front), DataOf(back), [s]); }
  }

  lemma AnswersSnoc(front: seq<Stanza>, back: seq<Stanza>, all: seq<Stanza>, s: Stanza)
    requires Answers(all) == Answers(front) + Answers(back)
    ensures Answers(all + [s]) == Answers(front) + Answers(back + [s])
  {
    OutSnoc(all, s);
    OutSnoc(back, s);
  }

  lemma Assoc<T>(x: seq<T>, y: seq<T>, z: seq<T>)
    ensures x + y + z == x + (y + z)
  {
  }

  lemma Unsnoc(front: seq<Stanza>, back: seq<Stanza>, all: seq<Stanza>)
    returns (back': seq<Stanza>, all': seq<Stanza>, s: Stanza)
    requires all == front + back && back != []
    ensures all' == front + back' && all == all' + [s] && back == back' + [s]
  {
    s := back[|back| - 1];
    back', all' := back[..|back| - 1], all[..|all| - 1];
  }

  lemma {:induction false} PayloadsConcat(front: seq<Stanza>, back: seq<Stanza>, all: seq<Stanza>)
    requires all == front + back
    ensures Payloads(all) == Payloads(front) + Payloads(back)
    decreases |back|
  {
    if back == [] {
      assert all == front;
    } else {
      var back', all', s := Unsnoc(front, back, all);
      PayloadsConcat(front, back', all');
      PayloadsSnoc(front, back', all', s);
    }
  }

  lemma {:induction false} DataConcat(front: seq<Stanza>, back: seq<Stanza>, all: seq<Stanza>)
    requires all == front + back
    ensures DataOf(all) == DataOf(front) + DataOf(back)
    decreases |back|
  {
    if back == [] {
      assert all == front;
    } else {
      var back', all', s := Unsnoc(front, back, all);
      DataConcat(front, back', all');
      DataSnoc(front, back', all', s);
    }
  }

  lemma {:induction false} AnswersConcat(front: seq<Stanza>, back: seq<Stanza>, all: seq<Stanza>)
    requires all == front + back
    ensures Answers(all) == Answers(front) + Answers(back)
    decreases |back|
  {
    if back == [] {
      assert all == front;
    } else {
      var back', all', s := Unsnoc(front, back, all);
      AnswersConcat(front, back', all');
      AnswersSnoc(front, back', all', s);
    }
  }

  lemma PrefixPayloads(out: seq<Stanza>, n: nat)
    requires n <= |out|
    ensures Payloads(out) == Payloads(out[..n]) + Payloads(out[n..])
  {
    assert out[..n] + out[n..] == out;
    PayloadsConcat(out[..n], out[n..], out);
  }

  lemma PrefixData(out: seq<Stanza>, front: seq<Stanza>)
    requires front <= out
    ensures DataOf(front) <= DataOf(out)
  {
    var back := out[|front|..];
    assert front + back == out;
    DataConcat(front, back, out);
    PrefixOf(DataOf(front), DataOf(back));
  }

  lemma PrefixOf<T>(x: seq<T>, y: seq<T>)
    ensures x <= x + y
  {
  }

  lemma {:induction false} PrefixNack(out: seq<Stanza>, n: nat)
    requires n <= |out|
    ensures HasNack(out[..n]) ==> HasNack(out)
    decreases |out|
  {
    if n == |out| {
      assert out[..n] == out;
    } else {
      PrefixNack(out[..|out| - 1], n);
      assert out[..|out| - 1][..n] == out[..n];
    }
  }

  lemma PrefixAnswers(out: seq<Stanza>, n: nat)
    requires n <= |out|
    ensures Answers(out[..n]) <= Answers(out)
  {
    assert out[..n] + out[n..] == out;
    AnswersConcat(out[..n], out[n..], out);
  }

  /** An end that does not touch what was received keeps its own sending in step, and one that
      only sends keeps the window behind the answers. */
  lemma Grows(e: Ibb, e': Ibb, l: Link)
    requires Dirs(l) && l.a == e && Extends(e, e')
    ensures Forward(e', l.b.r, l.aGot) && Backward(l.b.w, e'.out, l.aGot)
  {
    assert e'.out[..l.aGot] == e.out[..l.aGot];
  }

  ghost predicate Below(ids: multiset<nat>, bound: nat) {
    forall id :: id in ids ==> id < bound
  }

  /** Only ids of data stanzas sent are ever answered. */
  lemma AnsweredWereSent(l: Link, got: nat)
    requires Inv(l) && got <= |l.b.out|
    ensures Below(Answers(l.b.out[..got]), l.a.nextId)
  {
    PrefixAnswers(l.b.out, got);
    forall id | id in Answers(l.b.out[..got]) ensures id < l.a.nextId {
      assert id in multiset(l.b.r.received);
      ReceivedWereSent(l.a, l.b.r, l.aGot, id);
    }
  }

  lemma ReceivedWereSent(s: Ibb, r: Reading, sGot: nat, id: nat)
    requires Forward(s, r, sGot) && Ready(s) && id in r.received
    ensures id < s.nextId
  {
    PrefixData(s.out, s.out[..sGot]);
    var k :| 0 <= k < |r.received| && r.received[k] == id;
    assert DataOf(s.out)[k] == DataOf(s.out[..sGot])[k];
  }

  /** A step of the user at `a`. */
  lemma LocalDirs(l: Link, e': Ibb)
    requires Dirs(l) && Extends(l.a, e') && e'.w.refused == l.a.w.refused
    requires e'.r.got == l.a.r.got && e'.r.received == l.a.r.received && e'.r.dropped == l.a.r.dropped
    requires Below(Answers(l.b.out[..l.bGot]), l.a.nextId)
    ensures Dirs(l.(a := e'))
  {
    Grows(l.a, e', l);
  }

  lemma LocalStep(l: Link, e': Ibb)
    requires Inv(l) && EndInv(e') && Extends(l.a, e') && e'.w.refused == l.a.w.refused
    requires e'.r.got == l.a.r.got && e'.r.received == l.a.r.received && e'.r.dropped == l.a.r.dropped
    ensures Inv(l.(a := e'))
  {
    AnsweredWereSent(l, l.bGot);
    LocalDirs(l, e');
  }

  lemma TakeOne(out: seq<Stanza>, n: nat)
    requires n < |out|
    ensures out[..n + 1] == out[..n] + [out[n]]
    ensures var s := out[n];
            && Payloads(out[..n + 1]) == (if s.Data? then Payloads(out[..n]) + s.payload else Payloads(out[..n]))
            && DataOf(out[..n + 1]) == (if s.Data? then DataOf(out[..n]) + [s] else DataOf(out[..n]))
            && Answers(out[..n + 1])
               == (if s.Ack? || s.Nack? then Answers(out[..n]) + multiset{s.id} else Answers(out[..n]))
            && (HasNack(out[..n + 1]) <==> HasNack(out[..n]) || s.Nack?)
  {
    assert out[..n + 1] == out[..n] + [out[n]];
    OutSnoc(out[..n], out[n]);
  }

  lemma IdsSnoc(d: seq<Stanza>, s: Stanza)
    requires (forall k :: 0 <= k < |d| ==> d[k].Data?) && s.Data?
    ensures Ids(d + [s]) == Ids(d) + [s.id]
  {
    assert (d + [s])[..|d|] == d;
  }

  lemma SkipForward(s: Ibb, r: Reading, r': Reading, n: nat)
    requires Forward(s, r, n) && n < |s.out| && !s.out[n].Data?
    requires r' == r || r' == r.(pending := [])
    ensures Forward(s, r', n + 1)
  {
    TakeOne(s.out, n);
  }

  lemma AnswerBackward(w: Writing, w': Writing, nextId: nat, out: seq<Stanza>, n: nat)
    requires Backward(w, out, n) && n < |out|
    requires forall id :: id in w'.unacked ==> id in w.unacked || id >= nextId
    requires Below(Answers(out[..n + 1]), nextId)
    requires out[n].Ack? || out[n].Nack? ==> out[n].id in w'.unacked ==> out[n].id >= nextId
    requires w'.refused > w.refused ==> out[n].Nack?
    ensures Backward(w', out, n + 1)
  {
    TakeOne(out, n);
  }

  /** A stanza with no data reaches `a`, which becomes `e'`. */
  lemma OtherDirs(l: Link, e': Ibb)
    requires Dirs(l) && l.bGot < |l.b.out| && !l.b.out[l.bGot].Data? && Extends(l.a, e')
    requires Below(Answers(l.b.out[..l.bGot + 1]), l.a.nextId)
    requires e'.r == l.a.r || e'.r == l.a.r.(pending := [])
    requires var s := l.b.out[l.bGot];
             && (s.Ack? || s.Nack? ==> s.id in e'.w.unacked ==> s.id >= l.a.nextId)
             && (e'.w.refused > l.a.w.refused ==> s.Nack?)
    ensures Dirs(Taken(l, e'))
  {
    AnswerBackward(l.a.w, e'.w, l.a.nextId, l.b.out, l.bGot);
    SkipForward(l.b, l.a.r, e'.r, l.bGot);
    Grows(l.a, e', l);
  }

  lemma TakenForward(s: Ibb, r: Reading, r': Reading, n: nat)
    requires Forward(s, r, n) && n < |s.out| && s.out[n].Data? && !r'.dropped
    requires r'.got == r.got + s.out[n].payload && r'.received == r.received + [s.out[n].id]
    ensures Forward(s, r', n + 1)
  {
    TakeOne(s.out, n);
    IdsSnoc(DataOf(s.out[..n]), s.out[n]);
  }

  lemma TakenBackward(w: Writing, out: seq<Stanza>, n: nat)
    requires Backward(w, out, n) && n < |out| && out[n].Data?
    ensures Backward(w, out, n + 1)
  {
    TakeOne(out, n);
  }

  /** A data stanza reaches `a`, which becomes `e'`. */
  lemma DataDirs(l: Link, e': Ibb)
    requires Dirs(l) && l.bGot < |l.b.out| && l.b.out[l.bGot].Data?
    requires Extends(l.a, e') && e'.w == l.a.w && !e'.r.dropped
    requires e'.r.got == l.a.r.got + l.b.out[l.bGot].payload
    requires e'.r.received == l.a.r.received + [l.b.out[l.bGot].id]
    ensures Dirs(Taken(l, e'))
  {
    TakenForward(l.b, l.a.r, e'.r, l.bGot);
    TakenBackward(l.a.w, l.b.out, l.bGot);
    Grows(l.a, e', l);
  }

  lemma TransferData(l: Link, id: nat, payload: Bytes)
    requires Inv(l) && l.bGot < |l.b.out|
    requires l.b.out[l.bGot].Data? && l.b.out[l.bGot].id == id && l.b.out[l.bGot].payload == payload
    ensures Inv(Taken(l, Receive(l.a, Some(id), payload)))
  {
    ReceiveKeeps(l.a, Some(id), payload);
    DataDirs(l, Receive(l.a, Some(id), payload));
  }

  lemma TransferAck(l: Link, id: nat)
    requires Inv(l) && l.bGot < |l.b.out| && l.b.out[l.bGot] == Ack(id)
    ensures Inv(Taken(l, IqReply(l.a, id, true)))
  {
    AnsweredWereSent(l, l.bGot + 1);
    AckKeeps(l.a, id);
    AckDirs(l, id, IqReply(l.a, id, true));
  }

  lemma AckDirs(l: Link, id: nat, e': Ibb)
    requires Dirs(l) && l.bGot < |l.b.out| && l.b.out[l.bGot] == Ack(id) && Extends(l.a, e')
    requires Below(Answers(l.b.out[..l.bGot + 1]), l.a.nextId)
    requires e'.r == l.a.r && e'.w.refused == l.a.w.refused
    requires id in e'.w.unacked ==> id >= l.a.nextId
    ensures Dirs(Taken(l, e'))
  {
    OtherDirs(l, e');
  }

  lemma TransferNack(l: Link, id: nat)
    requires Inv(l) && l.bGot < |l.b.out| && l.b.out[l.bGot] == Nack(id)
    ensures Inv(Taken(l, IqReply(l.a, id, false)))
  {
    NackKeeps(l.a, id);
    AnsweredWereSent(l, l.bGot + 1);
    OtherDirs(l, IqReply(l.a, id, false));
  }

  lemma TransferClose(l: Link, id: nat)
    requires Inv(l) && l.bGot < |l.b.out| && l.b.out[l.bGot] == Close(id)
    ensures Inv(Taken(l, CloseReceived(l.a, id)))
  {
    CloseReceivedKeeps(l.a, id);
    AnsweredWereSent(l, l.bGot + 1);
    CloseDirs(l, id, CloseReceived(l.a, id));
  }

  lemma CloseDirs(l: Link, id: nat, e': Ibb)
    requires Dirs(l) && l.bGot < |l.b.out| && l.b.out[l.bGot] == Close(id) && Extends(l.a, e')
    requires Below(Answers(l.b.out[..l.bGot + 1]), l.a.nextId)
    requires e'.w == l.a.w && (e'.r == l.a.r || e'.r == l.a.r.(pending := []))
    ensures Dirs(Taken(l, e'))
  {
    OtherDirs(l, e');
  }

  /** A stanza that no one at `a` waits for. */
  lemma TransferIgnored(l: Link)
    requires Inv(l) && l.bGot < |l.b.out|
    requires var s := l.b.out[l.bGot]; !s.Data? && (s.Ack? || s.Nack? ==> s.id !in l.a.w.unacked)
    ensures Inv(Taken(l, l.a))
  {
    AnsweredWereSent(l, l.bGot + 1);
    OtherDirs(l, l.a);
  }

  lemma TransferKeeps(l: Link)
    requires Inv(l)
    ensures Inv(StepA(l, Transfer))
  {
    if l.bGot < |l.b.out| {
      var s := l.b.out[l.bGot];
      if s.Data? {
        TransferData(l, s.id, s.payload);
      } else if s.Close? {
        TransferClose(l, s.id);
      } else if s.Ack? && s.id in l.a.w.unacked {
        TransferAck(l, s.id);
      } else if s.Nack? && s.id in l.a.w.unacked {
        TransferNack(l, s.id);
      } else {
        TransferIgnored(l);
      }
    }
  }

  lemma StepAKeeps(l: Link, event: Event)
    requires Inv(l)
    ensures Inv(StepA(l, event))
  {
    match event
    case UserSend(data) => SendKeeps(l.a, data); LocalStep(l, Send(l.a, data).0);
    case UserClose => CloseKeeps(l.a); LocalStep(l, CloseStream(l.a));
    case UserBlock(block) => BlockKeeps(l.a, block); LocalStep(l, BlockReading(l.a, block));
    case Transfer => TransferKeeps(l);
  }

  lemma FlipKeeps(l: Link)
    requires Inv(l)
    ensures Inv(Flip(l))
  {
  }

  lemma StepKeeps(l: Link, act: Action)
    requires Inv(l)
    ensures Inv(Step(l, act))
  {
    if act.atA {
      StepAKeeps(l, act.event);
    } else {
      FlipKeeps(l);
      StepAKeeps(Flip(l), act.event);
      FlipKeeps(StepA(Flip(l), act.event));
    }
  }

  lemma {:induction false} RunKeeps(sizeA: nat, sizeB: nat, acts: seq<Action>)
    ensures Inv(Run(sizeA, sizeB, acts))
    decreases |acts|
  {
    if acts != [] {
      RunKeeps(sizeA, sizeB, acts[..|acts| - 1]);
      StepKeeps(Run(sizeA, sizeB, acts[..|acts| - 1]), acts[|acts| - 1]);
    } else {
      InitInv(sizeA, sizeB);
    }
  }

  lemma InitInv(sizeA: nat, sizeB: nat)
    ensures Inv(Run(sizeA, sizeB, []))
  {
  }

  // ---- What every run guarantees ----

  /** The two ends and the connection together are a queue of bytes: while the receiver has refused
      nothing, everything accepted is, in order, delivered, buffered by the receiver, in flight or
      buffered by the sender. */
  ghost predicate IsByteQueue(s: Ibb, r: Ibb, sGot: nat) {
    sGot <= |s.out| && s.w.accepted
      == r.r.delivered + Content(r.r.buffer) + Payloads(s.out[sGot..]) + Content(s.w.buffer)
  }

  lemma ByteQueue(l: Link)
    requires Inv(l) && !HasNack(l.b.out)
    ensures IsByteQueue(l.a, l.b, l.aGot)
  {
    PrefixPayloads(l.a.out, l.aGot);
  }

  lemma {:induction false} EndToEnd(sizeA: nat, sizeB: nat, acts: seq<Action>)
    ensures var l := Run(sizeA, sizeB, acts);
            && (!HasNack(l.b.out) ==> IsByteQueue(l.a, l.b, l.aGot))
            && (!HasNack(l.a.out) ==> IsByteQueue(l.b, l.a, l.bGot))
  {
    RunKeeps(sizeA, sizeB, acts);
    var l := Run(sizeA, sizeB, acts);
    if !HasNack(l.b.out) { ByteQueue(l); }
    if !HasNack(l.a.out) { ByteQueue(Flip(l)); }
  }

  /** The k-th data stanza carries k modulo 2^16 and at most one block. */
  lemma {:induction false} Sequencing(sizeA: nat, sizeB: nat, acts: seq<Action>, k: nat)
    requires k < |DataOf(Run(sizeA, sizeB, acts).a.out)|
    ensures var s := DataOf(Run(sizeA, sizeB, acts).a.out)[k];
            s.seqNo == k % 65536 && |s.payload| <= sizeA
  {
    RunKeeps(sizeA, sizeB, acts);
    BlockSizes(sizeA, sizeB, acts);
  }

  lemma {:induction false} BlockSizes(sizeA: nat, sizeB: nat, acts: seq<Action>)
    ensures Run(sizeA, sizeB, acts).a.blockSize == sizeA && Run(sizeA, sizeB, acts).b.blockSize == sizeB
    decreases |acts|
  {
    if acts != [] {
      var act := acts[|acts| - 1];
      var l := Run(sizeA, sizeB, acts[..|acts| - 1]);
      BlockSizes(sizeA, sizeB, acts[..|acts| - 1]);
      StepBlockSize(if act.atA then l else Flip(l), act.event);
    }
  }

  lemma {:induction false} SendDataBlockSize(e: Ibb, data: Bytes)
    ensures SendData(e, data).0.blockSize == e.blockSize
    decreases WINDOW_SIZE - |e.w.unacked|
  {
    if data != [] && |e.w.unacked| < WINDOW_SIZE {
      var n := BlockOf(e, data);
      SendDataBlockSize(SendBlock(e, data[..n]), data[n..]);
    }
  }

  lemma CloseBlockSize(e: Ibb)
    ensures CloseStream(e).blockSize == e.blockSize
  {
    AnswerPendingOut(e, false);
  }

  lemma StepBlockSize(l: Link, event: Event)
    ensures StepA(l, event).a.blockSize == l.a.blockSize && StepA(l, event).b == l.b
  {
    match event
    case UserSend(data) => SendDataBlockSize(l.a.(w := l.a.w.(accepted := l.a.w.accepted + data)), data);
    case UserClose => CloseBlockSize(l.a);
    case UserBlock(block) =>
      if l.a.r.buffer.Some? {
        AnswerPendingOut(
          l.a.(r := l.a.r.(blocked := block, delivered := l.a.r.delivered + l.a.r.buffer.value, buffer := None)), true);
      }
    case Transfer =>
      if l.bGot < |l.b.out| { DeliverBlockSize(l.a, l.b.out[l.bGot]); }
  }

  lemma DeliverBlockSize(e: Ibb, s: Stanza)
    ensures Deliver(e, s).blockSize == e.blockSize
  {
    match s
    case Data(id, _, payload) => CloseBlockSize(Refuse(e.(r := Record(e.r, Some(id), payload)), Some(id)));
    case Close(id) => CloseBlockSize(e.(closeToAck := Some(id)));
    case Ack(id) => if e.w.buffer.Some? { SendDataBlockSize(Answered(e, id), e.w.buffer.value); }
    case Nack(id) => CloseBlockSize(Refused(e, id));
    case CloseAck(_) =>
    case Decline =>
  }

  /** The window and the close: at most ten unanswered stanzas; writing is blocked exactly while
      there is something in the spill buffer, which without refusals only happens when the window is
      full; a close goes out only behind everything accepted. */
  lemma {:induction false} WindowAndClose(sizeA: nat, sizeB: nat, acts: seq<Action>)
    ensures var a := Run(sizeA, sizeB, acts).a;
            && |a.w.unacked| <= 10
            && (a.w.blocked <==> a.w.buffer.Some?)
            && (a.w.buffer.Some? ==> a.w.buffer.value != [])
            && (a.w.buffer.Some? && !HasNack(Run(sizeA, sizeB, acts).b.out) ==> |a.w.unacked| == 10)
            && (forall i :: 0 <= i < |a.out| && a.out[i].Close? ==>
                  a.state == Closed && a.w.buffer.None? && Payloads(a.out[..i]) == a.w.accepted)
  {
    RunKeeps(sizeA, sizeB, acts);
    var l := Run(sizeA, sizeB, acts);
    PrefixNack(l.b.out, l.bGot);
  }

  /** Every data IQ that arrived is answered once or still pending, never both and never twice. */
  lemma {:induction false} ReceiverAccounting(sizeA: nat, sizeB: nat, acts: seq<Action>)
    ensures var l := Run(sizeA, sizeB, acts); var r := l.a.r;
            && l.bGot <= |l.b.out| && r.received == Ids(DataOf(l.b.out[..l.bGot]))
            && (forall id :: id in r.received ==> (Answers(l.a.out) + multiset(r.pending))[id] == 1)
            && (forall id :: id in Answers(l.a.out) || id in r.pending ==> id in r.received)
            && (r.pending != [] ==> r.blocked && l.a.state == Open)
            && (!r.blocked ==> r.buffer.None?)
            && |Content(r.buffer)| <= 524288
  {
    RunKeeps(sizeA, sizeB, acts);
    var l := Run(sizeA, sizeB, acts);
    ReceivedDistinct(l.b, l.a.r, l.bGot);
    AnsweredOnce(l.a.r, l.a.out, l.a.state);
  }

  /** No id is received twice. */
  lemma ReceivedDistinct(s: Ibb, r: Reading, sGot: nat)
    requires Forward(s, r, sGot) && Ready(s)
    ensures Distinct(r.received)
  {
    var front := s.out[..sGot];
    PrefixData(s.out, front);
    assert forall k :: 0 <= k < |r.received| ==> r.received[k] == DataOf(front)[k].id;
    assert forall k :: 0 <= k < |DataOf(front)| ==> DataOf(front)[k] == DataOf(s.out)[k];
  }

  lemma AnsweredOnce(r: Reading, out: seq<Stanza>, state: StreamState)
    requires Reader(out, state, r) && Distinct(r.received)
    ensures forall id :: id in r.received ==> (Answers(out) + multiset(r.pending))[id] == 1
    ensures forall id :: id in Answers(out) || id in r.pending ==> id in r.received
  {
    forall id | id in r.received ensures multiset(r.received)[id] == 1 { DistinctOnce(r.received, id); }
    forall id | id in Answers(out) || id in r.pending ensures id in r.received {
      assert id in multiset(r.received);
    }
  }

  lemma {:induction false} DistinctOnce(q: seq<nat>, x: nat)
    requires Distinct(q) && x in q
    ensures multiset(q)[x] == 1
  {
    var k :| 0 <= k < |q| && q[k] == x;
    assert q == q[..k] + [x] + q[k + 1..];
    assert x !in q[..k] && x !in q[k + 1..];
    assert multiset(q) == multiset(q[..k]) + multiset{x} + multiset(q[k + 1..]);
  }

  /** Nothing is lost: once every stanza has arrived and the reader is not blocked, either the
      receiver has refused something or the user there has every byte accepted. */
  lemma {:induction false} NothingLost(sizeA: nat, sizeB: nat, acts: seq<Action>)
    requires var l := Run(sizeA, sizeB, acts);
             l.aGot == |l.a.out| && l.bGot == |l.b.out| && !HasNack(l.b.out) && !l.b.r.blocked
    ensures var l := Run(sizeA, sizeB, acts);
            l.b.r.delivered == l.a.w.accepted && l.a.w.unacked == [] && !l.a.w.blocked
  {
    RunKeeps(sizeA, sizeB, acts);
    AllAnswered(Run(sizeA, sizeB, acts));
  }

  lemma AllAnswered(l: Link)
    requires Inv(l) && l.aGot == |l.a.out| && l.bGot == |l.b.out| && !HasNack(l.b.out) && !l.b.r.blocked
    ensures l.b.r.delivered == l.a.w.accepted && l.a.w.unacked == [] && !l.a.w.blocked
  {
    PrefixNack(l.b.out, l.bGot);
    if l.a.w.unacked != [] { OutstandingUnanswered(l, l.a.w.unacked[0]); }
    ByteQueue(l);
    NoneInFlight(l);
  }

  lemma NoneInFlight(l: Link)
    requires IsByteQueue(l.a, l.b, l.aGot) && l.aGot == |l.a.out| && l.a.w.buffer.None? && l.b.r.buffer.None?
    ensures l.b.r.delivered == l.a.w.accepted
  {
    assert l.a.out[l.aGot..] == [];
  }

  lemma OutstandingUnanswered(l: Link, id: nat)
    requires Inv(l) && l.aGot == |l.a.out| && l.bGot == |l.b.out| && id in l.a.w.unacked
    ensures l.b.r.pending != []
  {
    assert l.a.out[..l.aGot] == l.a.out && l.b.out[..l.bGot] == l.b.out;
    var d := DataOf(l.a.out);
    var k :| 0 <= k < |d| && d[k].Data? && d[k].id == id;
    assert l.b.r.received[k] == id;
    assert id in multiset(l.b.r.received);
  }

  /** A close that arrives has overtaken nothing. */
  lemma {:induction false} CloseIsLast(sizeA: nat, sizeB: nat, acts: seq<Action>, i: nat)
    requires var l := Run(sizeA, sizeB, acts);
             i < l.aGot <= |l.a.out| && l.a.out[i].Close? && !HasNack(l.b.out)
    ensures var l := Run(sizeA, sizeB, acts);
            l.b.r.delivered + Content(l.b.r.buffer) == l.a.w.accepted
  {
    RunKeeps(sizeA, sizeB, acts);
    var l := Run(sizeA, sizeB, acts);
    PrefixPayloads(l.a.out, l.aGot);
    NoDataAfter(l.a.out, l.aGot, i, l.a.w.accepted);
  }

  lemma NoDataAfter(out: seq<Stanza>, n: nat, i: nat, accepted: Bytes)
    requires i < n <= |out| && Payloads(out[..i]) == accepted && |Payloads(out[..n])| <= |accepted|
    ensures Payloads(out[..n]) == accepted
  {
    PrefixPayloads(out[..n], i);
    assert out[..n][..i] == out[..i];
  }
}
