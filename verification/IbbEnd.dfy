/** What every operation of one IBB end keeps, whatever the other end does. */
module IbbEnd {
  import opened Common
  import opened IbbSpec

  // ---- Reading the stanzas sent ----

  /** The bytes carried by the data stanzas. */
  function Payloads(out: seq<Stanza>): Bytes {
    if out == [] then []
    else
      var s := out[|out| - 1];
      Payloads(out[..|out| - 1]) + if s.Data? then s.payload else []
  }

  /** The data stanzas, in order. */
  function DataOf(out: seq<Stanza>): (r: seq<Stanza>)
    ensures forall k :: 0 <= k < |r| ==> r[k].Data?
  {
    if out == [] then []
    else
      var s := out[|out| - 1];
      DataOf(out[..|out| - 1]) + if s.Data? then [s] else []
  }

  /** The ids of the data IQs answered. */
  function Answers(out: seq<Stanza>): multiset<nat> {
    if out == [] then multiset{}
    else
      var s := out[|out| - 1];
      Answers(out[..|out| - 1]) + if s.Ack? || s.Nack? then multiset{s.id} else multiset{}
  }

  /** Some data IQ was refused. */
  predicate HasNack(out: seq<Stanza>) {
    out != [] && (out[|out| - 1].Nack? || HasNack(out[..|out| - 1]))
  }

  lemma OutSnoc(out: seq<Stanza>, s: Stanza)
    ensures Payloads(out + [s]) == if s.Data? then Payloads(out) + s.payload else Payloads(out)
    ensures DataOf(out + [s]) == if s.Data? then DataOf(out) + [s] else DataOf(out)
    ensures Answers(out + [s]) == if s.Ack? || s.Nack? then Answers(out) + multiset{s.id} else Answers(out)
    ensures HasNack(out + [s]) <==> HasNack(out) || s.Nack?
  {
    var out' := out + [s];
    assert out'[..|out|] == out;
    assert out'[|out|] == s;
  }

  // ---- The invariant ----

  /** Data stanzas are numbered modulo 2^16, no larger than a block, and have ids of their own. */
  ghost predicate Numbered(d: seq<Stanza>, seqNo: nat, nextId: nat, blockSize: nat) {
    && seqNo == |d| % SEQ_MODULUS
    && (forall k :: 0 <= k < |d| ==>
          d[k].Data? && d[k].seqNo == k % SEQ_MODULUS && |d[k].payload| <= blockSize && d[k].id < nextId)
    && (forall j, k :: 0 <= j < k < |d| ==> d[j].Data? && d[k].Data? && d[j].id < d[k].id)
  }

  ghost predicate HasId(d: seq<Stanza>, id: nat) {
    exists k :: 0 <= k < |d| && d[k].Data? && d[k].id == id
  }

  /** The window: at most ten data stanzas outstanding, each of them sent. */
  ghost predicate Window(d: seq<Stanza>, unacked: seq<nat>) {
    && |unacked| <= WINDOW_SIZE
    && Distinct(unacked)
    && (forall id :: id in unacked ==> HasId(d, id))
  }

  /** Nothing accepted is lost or reordered on the way out, and the spill buffer fits the window. */
  ghost predicate Writer(e: Ibb) {
    && Ready(e)
    && e.w.accepted == Payloads(e.out) + Content(e.w.buffer)
    && (e.w.blocked <==> e.w.buffer.Some?)
    && (e.w.buffer.Some? ==> e.w.buffer.value != [])
    && (e.w.buffer.Some? && e.w.refused == 0 ==> |e.w.unacked| == WINDOW_SIZE)
    && (e.state == Closing ==> e.w.buffer.Some?)
    && (e.state != Open && e.state != Closing ==> e.w.buffer.None?)
    && ClosedAfter(e.out, e.state, e.w.accepted)
  }

  ghost predicate Ready(e: Ibb) {
    && Numbered(DataOf(e.out), e.w.seqNo, e.nextId, e.blockSize)
    && Window(DataOf(e.out), e.w.unacked)
  }

  /** A close stanza only goes out when the stream closes, after every byte accepted. */
  ghost predicate ClosedAfter(out: seq<Stanza>, state: StreamState, accepted: Bytes) {
    forall i :: 0 <= i < |out| && out[i].Close? ==> state == Closed && Payloads(out[..i]) == accepted
  }

  /** Every data IQ received is answered once or pending; what is buffered is never overtaken. */
  ghost predicate Reader(out: seq<Stanza>, state: StreamState, r: Reading) {
    && multiset(r.received) == Answers(out) + multiset(r.pending)
    && (r.pending != [] ==> r.blocked && state == Open && r.buffer.Some?)
    && (!r.blocked ==> r.buffer.None?)
    && |Content(r.buffer)| <= READ_BUFFER_MAX_SIZE
    && (!HasNack(out) && !r.dropped ==> r.delivered + Content(r.buffer) == r.got)
  }

  ghost predicate EndInv(e: Ibb) { Writer(e) && Reader(e.out, e.state, e.r) }

  /** What the rest of the link may rely on between two states of an end. */
  ghost predicate Extends(e: Ibb, e': Ibb) {
    && e.out <= e'.out
    && e.nextId <= e'.nextId
    && (forall id :: id in e'.w.unacked ==> id in e.w.unacked || id >= e.nextId)
  }

  lemma ExtendsTrans(e: Ibb, e': Ibb, e'': Ibb)
    requires Extends(e, e') && Extends(e', e'')
    ensures Extends(e, e'')
  {
  }

  ghost predicate SameAnswers(out: seq<Stanza>, out': seq<Stanza>) {
    Answers(out') == Answers(out) && (HasNack(out') <==> HasNack(out))
  }

  // ---- Sending data ----

  lemma NumberedSnoc(d: seq<Stanza>, seqNo: nat, nextId: nat, blockSize: nat, block: Bytes)
    requires Numbered(d, seqNo, nextId, blockSize) && |block| <= blockSize
    ensures Numbered(d + [Data(nextId, seqNo, block)], (seqNo + 1) % SEQ_MODULUS, nextId + 1, blockSize)
  {
  }

  lemma WindowSnoc(d: seq<Stanza>, unacked: seq<nat>, s: Stanza)
    requires Window(d, unacked) && |unacked| < WINDOW_SIZE && s.Data?
    requires forall k :: 0 <= k < |d| ==> d[k].Data? && d[k].id < s.id
    ensures Window(d + [s], unacked + [s.id])
  {
    var d' := d + [s];
    assert d'[|d|] == s;
    forall id | id in unacked + [s.id] ensures HasId(d', id) {
      if id in unacked {
        var k :| 0 <= k < |d| && d[k].Data? && d[k].id == id;
        assert d'[k].id == id;
      }
    }
    assert s.id !in unacked;
  }

  lemma CloseSnoc(out: seq<Stanza>, s: Stanza, state: StreamState, accepted: Bytes)
    requires ClosedAfter(out, state, accepted)
    requires s.Close? ==> state == Closed && Payloads(out) == accepted
    ensures ClosedAfter(out + [s], state, accepted)
  {
    var out' := out + [s];
    forall i | 0 <= i < |out'| && out'[i].Close? ensures state == Closed && Payloads(out'[..i]) == accepted {
      assert out'[..i] == out[..i];
      assert i == |out| ==> out[..i] == out;
    }
  }

  /** No close stanza yet. */
  ghost predicate NotClosed(out: seq<Stanza>) {
    forall i :: 0 <= i < |out| ==> !out[i].Close?
  }

  lemma SendBlockReady(e: Ibb, block: Bytes, e': Ibb, d: seq<Stanza>)
    requires Ready(e) && |e.w.unacked| < WINDOW_SIZE && |block| <= e.blockSize
    requires e' == SendBlock(e, block) && d == DataOf(e.out) && DataOf(e'.out) == d + [Data(e.nextId, e.w.seqNo, block)]
    ensures Ready(e') && Extends(e, e')
  {
    NumberedSnoc(d, e.w.seqNo, e.nextId, e.blockSize, block);
    WindowSnoc(d, e.w.unacked, Data(e.nextId, e.w.seqNo, block));
  }

  lemma SendBlockEffect(e: Ibb, block: Bytes)
    requires Ready(e) && |e.w.unacked| < WINDOW_SIZE && |block| <= e.blockSize && NotClosed(e.out)
    ensures var e' := SendBlock(e, block);
            && Ready(e') && NotClosed(e'.out) && Extends(e, e') && SameAnswers(e.out, e'.out)
            && Payloads(e'.out) == Payloads(e.out) + block
  {
    OutSnoc(e.out, Data(e.nextId, e.w.seqNo, block));
    SendBlockReady(e, block, SendBlock(e, block), DataOf(e.out));
  }

  /** What sending some of `data` comes to: a prefix goes out in order, and what is left is left
      because the window is full. */
  ghost predicate Sent(e: Ibb, data: Bytes, e': Ibb, sent: nat) {
    && sent <= |data|
    && e' == e.(out := e'.out, nextId := e'.nextId, w := e.w.(seqNo := e'.w.seqNo, unacked := e'.w.unacked))
    && Ready(e') && NotClosed(e'.out) && Extends(e, e') && SameAnswers(e.out, e'.out)
    && Payloads(e'.out) == Payloads(e.out) + data[..sent]
    && (sent < |data| ==> |e'.w.unacked| == WINDOW_SIZE)
  }

  lemma {:induction false} SendDataEffect(e: Ibb, data: Bytes)
    requires Ready(e) && NotClosed(e.out)
    ensures Sent(e, data, SendData(e, data).0, SendData(e, data).1)
    decreases WINDOW_SIZE - |e.w.unacked|
  {
    if data == [] || |e.w.unacked| >= WINDOW_SIZE {
      assert Payloads(e.out) + data[..0] == Payloads(e.out);
    } else {
      var n := BlockOf(e, data);
      var e1 := SendBlock(e, data[..n]);
      SendBlockEffect(e, data[..n]);
      SendDataEffect(e1, data[n..]);
      SentSnoc(e, data, n, e1, SendData(e1, data[n..]).0, SendData(e1, data[n..]).1);
    }
  }

  lemma SentSnoc(e: Ibb, data: Bytes, n: nat, e1: Ibb, e2: Ibb, sent: nat)
    requires n <= |data| && e1 == SendBlock(e, data[..n]) && Sent(e1, data[n..], e2, sent)
    requires Extends(e, e1) && SameAnswers(e.out, e1.out) && Payloads(e1.out) == Payloads(e.out) + data[..n]
    ensures Sent(e, data, e2, n + sent)
  {
    ExtendsTrans(e, e1, e2);
    Glue(Payloads(e.out), data, n, sent);
  }

  lemma Glue(front: Bytes, data: Bytes, n: nat, m: nat)
    requires n + m <= |data|
    ensures front + data[..n] + data[n..][..m] == front + data[..n + m]
  {
  }

  lemma Rejoin(front: Bytes, data: Bytes, n: nat)
    requires n <= |data|
    ensures front + data[..n] + data[n..] == front + data
    ensures n == |data| ==> front + data[..n] == front + data
  {
  }

  // ---- Stanzas that carry no data ----

  lemma EmitKeepsWriter(e: Ibb, s: Stanza)
    requires Writer(e) && !s.Data? && !s.Close?
    ensures Writer(Emit(e, s))
  {
    OutSnoc(e.out, s);
    CloseSnoc(e.out, s, e.state, e.w.accepted);
  }

  lemma SendCloseWriter(e: Ibb)
    requires Writer(e) && e.w.buffer.None?
    ensures Writer(SendCloseStanza(e).(state := Closed))
  {
    var e1 := if e.closeToAck.Some? then Emit(e, CloseAck(e.closeToAck.value)).(closeToAck := None) else e;
    if e.closeToAck.Some? { EmitKeepsWriter(e, CloseAck(e.closeToAck.value)); }
    assert Writer(e1);
    var s := Close(e1.nextId);
    OutSnoc(e1.out, s);
    assert Payloads(e1.out) + [] == Payloads(e1.out);
    CloseSnoc(e1.out, s, Closed, e.w.accepted);
  }

  lemma SendCloseRest(e: Ibb)
    ensures SameAnswers(e.out, SendCloseStanza(e).out)
    ensures Extends(e, SendCloseStanza(e))
  {
    var e1 := if e.closeToAck.Some? then Emit(e, CloseAck(e.closeToAck.value)).(closeToAck := None) else e;
    if e.closeToAck.Some? { OutSnoc(e.out, CloseAck(e.closeToAck.value)); }
    OutSnoc(e1.out, Close(e1.nextId));
  }

  /** The stanzas that answer a list of IQs, oldest (last in the list) first. */
  function AnswersFor(ids: seq<nat>, good: bool): seq<Stanza> {
    if ids == [] then []
    else
      var id := ids[|ids| - 1];
      [if good then Ack(id) else Nack(id)] + AnswersFor(ids[..|ids| - 1], good)
  }

  lemma {:induction false} AnswerPendingOut(e: Ibb, good: bool)
    ensures AnswerPending(e, good) == e.(out := e.out + AnswersFor(e.r.pending, good), r := e.r.(pending := []))
    decreases |e.r.pending|
  {
    if e.r.pending != [] {
      var k := |e.r.pending| - 1;
      var id := e.r.pending[k];
      var s := if good then Ack(id) else Nack(id);
      var e1 := Emit(e, s).(r := e.r.(pending := e.r.pending[..k]));
      AnswerPendingOut(e1, good);
      assert e.out + ([s] + AnswersFor(e.r.pending[..k], good)) == e1.out + AnswersFor(e1.r.pending, good);
    } else {
      assert e.out + [] == e.out;
    }
  }

  /** `all` is `out` and the answers to `ids`; the first of these is `s`, which makes `out'`. */
  lemma FirstAnswer(out: seq<Stanza>, ids: seq<nat>, good: bool, all: seq<Stanza>)
    returns (s: Stanza, out': seq<Stanza>, ids': seq<nat>)
    requires ids != [] && all == out + AnswersFor(ids, good)
    ensures (if good then s.Ack? else s.Nack?) && out' == out + [s] && all == out' + AnswersFor(ids', good)
    ensures |ids'| == |ids| - 1 && multiset(ids) == multiset(ids') + multiset{s.id}
  {
    var k := |ids| - 1;
    s := if good then Ack(ids[k]) else Nack(ids[k]);
    out', ids' := out + [s], ids[..k];
    assert ids == ids' + [ids[k]];
  }

  lemma {:induction false} AnswersForEffect(out: seq<Stanza>, ids: seq<nat>, good: bool, all: seq<Stanza>)
    requires all == out + AnswersFor(ids, good)
    ensures Answers(all) == Answers(out) + multiset(ids)
    ensures HasNack(all) <==> HasNack(out) || (!good && ids != [])
    decreases |ids|
  {
    if ids != [] {
      var s, out', ids' := FirstAnswer(out, ids, good, all);
      OutSnoc(out, s);
      AnswersForEffect(out', ids', good, all);
    } else {
      assert all == out;
    }
  }

  lemma {:induction false} AnswersForWriter(e: Ibb, ids: seq<nat>, good: bool)
    requires Writer(e)
    ensures Writer(e.(out := e.out + AnswersFor(ids, good)))
    decreases |ids|
  {
    if ids != [] {
      var k := |ids| - 1;
      var s := if good then Ack(ids[k]) else Nack(ids[k]);
      EmitKeepsWriter(e, s);
      AnswersForWriter(Emit(e, s), ids[..k], good);
      assert e.out + AnswersFor(ids, good) == (e.out + [s]) + AnswersFor(ids[..k], good);
    } else {
      assert e.out + [] == e.out;
    }
  }

  // ---- The operations ----

  lemma OpenNotClosed(e: Ibb)
    requires Writer(e) && e.state != Closed
    ensures NotClosed(e.out)
  {
  }

  lemma {:induction false} SendKeeps(e: Ibb, data: Bytes)
    requires EndInv(e)
    ensures var e' := Send(e, data).0;
            EndInv(e') && Extends(e, e') && e'.r == e.r && e'.w.refused == e.w.refused
  {
    if e.state == Open {
      OpenNotClosed(e);
      var e1 := e.(w := e.w.(accepted := e.w.accepted + data));
      if e.w.buffer.Some? {
        assert Payloads(e.out) + (e.w.buffer.value + data) == Payloads(e.out) + e.w.buffer.value + data;
      } else {
        SendDataEffect(e1, data);
        var (e2, sent) := SendData(e1, data);
        SpilledWriter(e1, data, e2, sent);
      }
    }
  }

  lemma SpilledWriter(e: Ibb, data: Bytes, e': Ibb, sent: nat)
    requires Sent(e, data, e', sent) && e.state == Open && e.w.buffer.None? && !e.w.blocked
    requires e.w.accepted == Payloads(e.out) + data
    ensures Writer(Spilled(e', data, sent))
  {
    Rejoin(Payloads(e.out), data, sent);
    assert Payloads(e'.out) + [] == Payloads(e'.out);
  }

  lemma FinishCloseWriter(e: Ibb)
    requires Writer(e) && e.state != Closed
    ensures Writer(FinishClose(e))
  {
    OpenNotClosed(e);
    if e.state == LocalPending {
      OutSnoc(e.out, Decline);
    } else if e.w.buffer.None? {
      SendCloseWriter(e);
    }
  }

  lemma FinishCloseRest(e: Ibb)
    ensures var e' := FinishClose(e);
            && Extends(e, e') && e'.r == e.r && e'.w == e.w && SameAnswers(e.out, e'.out)
  {
    OutSnoc(e.out, Decline);
    SendCloseRest(e);
  }

  /** A state in which all pending IQs have been refused, seen from before. */
  lemma RefusedPending(e: Ibb)
    requires EndInv(e)
    ensures var e1 := AnswerPending(e, false);
            && EndInv(e1) && Extends(e, e1) && e1.w == e.w && e1.r == e.r.(pending := []) && e1.state == e.state
  {
    AnswerPendingOut(e, false);
    AnswersForWriter(e, e.r.pending, false);
    AnswersForEffect(e.out, e.r.pending, false, AnswerPending(e, false).out);
  }

  lemma {:induction false} CloseKeeps(e: Ibb)
    requires EndInv(e)
    ensures var e' := CloseStream(e);
            && EndInv(e') && Extends(e, e') && e'.w == e.w
            && (e'.r == e.r || e'.r == e.r.(pending := []))
  {
    if e.state != Closed {
      RefusedPending(e);
      FinishCloseKeeps(AnswerPending(e, false));
      ExtendsTrans(e, AnswerPending(e, false), CloseStream(e));
    }
  }

  lemma FinishCloseKeeps(e: Ibb)
    requires EndInv(e) && e.state != Closed && e.r.pending == []
    ensures var e' := FinishClose(e); EndInv(e') && Extends(e, e') && e'.w == e.w && e'.r == e.r
  {
    FinishCloseWriter(e);
    FinishCloseRest(e);
  }

  /** The writing side, except that an answer has just left room in the window. */
  ghost predicate Relaxed(e: Ibb) {
    && Ready(e) && NotClosed(e.out)
    && e.w.accepted == Payloads(e.out) + Content(e.w.buffer)
    && e.w.blocked && e.w.buffer.Some? && e.w.buffer.value != []
    && (e.state == Open || e.state == Closing)
  }

  lemma FlushedPart(e: Ibb, e': Ibb, sent: nat)
    requires Relaxed(e) && Sent(e, e.w.buffer.value, e', sent) && sent < |e.w.buffer.value|
    ensures Writer(e'.(w := e'.w.(buffer := Some(e.w.buffer.value[sent..]))))
  {
    Rejoin(Payloads(e.out), e.w.buffer.value, sent);
  }

  lemma FlushedAll(e: Ibb, e': Ibb, sent: nat)
    requires Relaxed(e) && Sent(e, e.w.buffer.value, e', sent) && sent == |e.w.buffer.value|
    ensures Writer(e'.(w := e'.w.(buffer := None, blocked := false), state := Open))
  {
    Rejoin(Payloads(e.out), e.w.buffer.value, sent);
    assert Payloads(e'.out) + [] == Payloads(e'.out);
  }

  lemma FlushedWriter(e: Ibb, e': Ibb, sent: nat)
    requires Relaxed(e) && Sent(e, e.w.buffer.value, e', sent)
    ensures Writer(Flushed(e', e.w.buffer.value, sent))
  {
    if sent < |e.w.buffer.value| {
      FlushedPart(e, e', sent);
    } else {
      FlushedAll(e, e', sent);
      assert e'.state == e.state;
      if e.state == Closing {
        FlushedClose(e'.(w := e'.w.(buffer := None, blocked := false)));
      }
    }
  }

  lemma FlushedClose(e: Ibb)
    requires e.state == Closing && e.w.buffer.None? && Writer(e.(state := Open))
    ensures Writer(SendCloseStanza(e).(state := Closed))
  {
    SendCloseWriter(e.(state := Open));
  }

  lemma FlushedRest(e: Ibb, e': Ibb, sent: nat)
    requires e.w.buffer.Some? && Sent(e, e.w.buffer.value, e', sent)
    ensures var e2 := Flushed(e', e.w.buffer.value, sent);
            && Extends(e, e2) && e2.r == e.r && SameAnswers(e.out, e2.out) && e2.w.refused == e.w.refused
            && (e2.state == e.state || e.state == Closing)
  {
    SendCloseRest(e'.(w := e'.w.(buffer := None, blocked := false)));
  }

  lemma FlushKeeps(e: Ibb)
    requires Relaxed(e) && Reader(e.out, e.state, e.r)
    ensures EndInv(Flush(e)) && Extends(e, Flush(e)) && Flush(e).r == e.r && Flush(e).w.refused == e.w.refused
  {
    SendDataEffect(e, e.w.buffer.value);
    var (e', sent) := SendData(e, e.w.buffer.value);
    FlushedWriter(e, e', sent);
    FlushedRest(e, e', sent);
  }

  lemma AnsweredWriter(e: Ibb, id: nat)
    requires Writer(e)
    ensures var e1 := Answered(e, id);
            && Extends(e, e1) && id !in e1.w.unacked
            && (e1.w.buffer.Some? ==> Relaxed(e1))
            && (e1.w.buffer.None? ==> Writer(e1))
  {
    RemoveFromDistinct(e.w.unacked, id);
    var e1 := Answered(e, id);
    assert Window(DataOf(e1.out), e1.w.unacked);
  }

  lemma RefusedWriter(e: Ibb, id: nat)
    requires Writer(e)
    ensures Writer(Refused(e, id)) && Extends(e, Refused(e, id)) && id !in Refused(e, id).w.unacked
  {
    AnsweredWriter(e, id);
    assert Ready(Answered(e, id));
  }

  /** A refused stanza closes the stream; `e2` is the end once the refusal is noted. */
  lemma RefusedKeeps(e: Ibb, e2: Ibb, id: nat)
    requires EndInv(e2) && Extends(e, e2) && e2.r == e.r && id !in e2.w.unacked
    ensures var e' := CloseStream(e2);
            && EndInv(e') && Extends(e, e') && (e'.r == e.r || e'.r == e.r.(pending := []))
            && id !in e'.w.unacked && e'.w.refused == e2.w.refused
  {
    CloseKeeps(e2);
    var e' := CloseStream(e2);
    assert e'.w == e2.w;
    ExtendsTrans(e, e2, e');
  }

  lemma {:induction false} NackKeeps(e: Ibb, id: nat)
    requires EndInv(e)
    ensures var e' := IqReply(e, id, false);
            && EndInv(e') && Extends(e, e') && (e'.r == e.r || e'.r == e.r.(pending := []))
            && id !in e'.w.unacked && e'.w.refused == e.w.refused + 1
  {
    RefusedWriter(e, id);
    RefusedKeeps(e, Refused(e, id), id);
  }

  lemma CloseReceivedKeeps(e: Ibb, id: nat)
    requires EndInv(e)
    ensures var e' := CloseReceived(e, id);
            && EndInv(e') && Extends(e, e') && e'.w == e.w
            && (e'.r == e.r || e'.r == e.r.(pending := []))
  {
    var e1 := e.(closeToAck := Some(id));
    assert EndInv(e1);
    CloseKeeps(e1);
    ExtendsTrans(e, e1, CloseStream(e1));
  }

  lemma {:induction false} AckKeeps(e: Ibb, id: nat)
    requires EndInv(e)
    ensures var e' := IqReply(e, id, true);
            && EndInv(e') && Extends(e, e') && e'.r == e.r && e'.w.refused == e.w.refused
            && (id in e'.w.unacked ==> id >= e.nextId)
  {
    var e1 := Answered(e, id);
    AnsweredWriter(e, id);
    if e1.w.buffer.Some? {
      FlushKeeps(e1);
      ExtendsTrans(e, e1, Flush(e1));
    }
  }

  lemma RefuseKeeps(e: Ibb, iq: Option<nat>, r: Reading)
    requires Writer(e) && Reader(e.out, e.state, r) && exists payload :: e.r == Record(r, iq, payload)
    ensures EndInv(Refuse(e, iq)) && Extends(e, Refuse(e, iq))
  {
    if iq.Some? {
      EmitKeepsWriter(e, Nack(iq.value));
      OutSnoc(e.out, Nack(iq.value));
    }
  }

  lemma ReceiveBlockedKeeps(e: Ibb, iq: Option<nat>, r: Reading, payload: Bytes)
    requires Writer(e) && Reader(e.out, e.state, r) && e.r == Record(r, iq, payload) && e.state == Open && r.blocked
    ensures var e' := ReceiveBlocked(e, iq, payload);
            && EndInv(e') && Extends(e, e') && e'.w == e.w
            && e'.r.got == e.r.got && e'.r.received == e.r.received && (iq.Some? ==> e'.r.dropped == e.r.dropped)
  {
    if |Content(e.r.buffer)| + |payload| > READ_BUFFER_MAX_SIZE {
      RefuseKeeps(e, iq, r);
      CloseKeeps(Refuse(e, iq));
      ExtendsTrans(e, Refuse(e, iq), CloseStream(Refuse(e, iq)));
    } else {
      var buffered := Content(r.buffer);
      assert r.delivered + buffered + payload == r.delivered + (buffered + payload);
    }
  }

  lemma DeliveredReader(out: seq<Stanza>, r: Reading, iq: Option<nat>, payload: Bytes)
    requires Reader(out, Open, r) && !r.blocked
    ensures Reader(if iq.Some? then out + [Ack(iq.value)] else out, Open,
                   Record(r, iq, payload).(delivered := r.delivered + payload))
  {
    if iq.Some? { OutSnoc(out, Ack(iq.value)); }
    assert r.delivered + [] == r.delivered && r.delivered + payload + [] == r.delivered + payload;
  }

  lemma ReceiveOpenKeeps(e: Ibb, iq: Option<nat>, payload: Bytes)
    requires EndInv(e) && e.state == Open && !e.r.blocked
    ensures var e' := Receive(e, iq, payload); EndInv(e') && Extends(e, e')
  {
    var e1 := e.(r := Record(e.r, iq, payload).(delivered := e.r.delivered + payload));
    assert Writer(e1);
    if iq.Some? { EmitKeepsWriter(e1, Ack(iq.value)); }
    DeliveredReader(e.out, e.r, iq, payload);
  }

  lemma {:induction false} ReceiveKeeps(e: Ibb, iq: Option<nat>, payload: Bytes)
    requires EndInv(e)
    ensures var e' := Receive(e, iq, payload);
            && EndInv(e') && Extends(e, e') && e'.w == e.w
            && e'.r.got == e.r.got + payload
            && e'.r.received == (if iq.Some? then e.r.received + [iq.value] else e.r.received)
            && (iq.Some? ==> e'.r.dropped == e.r.dropped)
  {
    var e0 := e.(r := Record(e.r, iq, payload));
    assert Writer(e0);
    if e.state != Open {
      RefuseKeeps(e0, iq, e.r);
    } else if e.r.blocked {
      ReceiveBlockedKeeps(e0, iq, e.r, payload);
    } else {
      ReceiveOpenKeeps(e, iq, payload);
    }
  }

  lemma {:induction false} BlockKeeps(e: Ibb, block: bool)
    requires EndInv(e)
    ensures var e' := BlockReading(e, block);
            && EndInv(e') && Extends(e, e') && e'.w == e.w
            && e'.r.got == e.r.got && e'.r.received == e.r.received && e'.r.dropped == e.r.dropped
  {
    if e.r.blocked != block && e.r.buffer.Some? {
      var e1 := e.(r := e.r.(blocked := false, delivered := e.r.delivered + e.r.buffer.value, buffer := None));
      AnswerPendingOut(e1, true);
      AnswersForEffect(e1.out, e1.r.pending, true, AnswerPending(e1, true).out);
      AnswersForWriter(e1, e1.r.pending, true);
      assert e1.r.delivered + [] == e1.r.delivered;
    }
  }
}
