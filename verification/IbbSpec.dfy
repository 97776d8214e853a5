/** In-band bytestreams (sections 2.1 to 2.3 of XEP-0047): the operations of
    src/bytestream-ibb.c as functions on one end's private state. */
module IbbSpec {
  import opened Common

  const WINDOW_SIZE := 10
  const READ_BUFFER_MAX_SIZE := 512 * 1024
  const SEQ_MODULUS := 65536

  /** Stanzas handed to the connection. `Ack` and `Nack` answer a data IQ, `CloseAck` a close IQ,
      `Decline` the stream initiation request. */
  datatype Stanza =
    | Data(id: nat, seqNo: nat, payload: Bytes)
    | Close(id: nat)
    | Ack(id: nat)
    | Nack(id: nat)
    | CloseAck(id: nat)
    | Decline

  /** The writing half: `seq`, `sent_stanzas_not_acked`, `write_buffer` and `write_blocked`, and a
      record of the bytes the user handed over and of how many data stanzas were refused. */
  datatype Writing = Writing(
    seqNo: nat, unacked: seq<nat>, buffer: Option<Bytes>, blocked: bool, accepted: Bytes, refused: nat)

  /** The reading half: `read_blocked`, `read_buffer` and `received_stanzas_not_acked` (newest
      first), and a record of the bytes given to the user, of the bytes and the IQs received, and of
      whether data was discarded that came without an IQ to refuse. */
  datatype Reading = Reading(
    blocked: bool, buffer: Option<Bytes>, pending: seq<nat>, delivered: Bytes, got: Bytes, received: seq<nat>,
    dropped: bool)

  /** One end: the private structure, and the stanzas it sent, in order. */
  datatype Ibb = Ibb(
    state: StreamState, blockSize: nat, closeToAck: Option<nat>, nextId: nat, out: seq<Stanza>, w: Writing, r: Reading)

  function NewIbb(state: StreamState, blockSize: nat): Ibb {
    Ibb(state, blockSize, None, 0, [], Writing(0, [], None, false, [], 0), Reading(false, None, [], [], [], [], false))
  }

  function Content(b: Option<Bytes>): Bytes {
    if b.Some? then b.value else []
  }

  function Emit(e: Ibb, s: Stanza): Ibb {
    e.(out := e.out + [s])
  }

  /** One data stanza. */
  function SendBlock(e: Ibb, block: Bytes): Ibb {
    Emit(e, Data(e.nextId, e.w.seqNo, block)).(
      nextId := e.nextId + 1,
      w := e.w.(seqNo := (e.w.seqNo + 1) % SEQ_MODULUS, unacked := e.w.unacked + [e.nextId]))
  }

  function BlockOf(e: Ibb, data: Bytes): (n: nat)
    ensures n <= |data|
  {
    if |data| > e.blockSize then e.blockSize else |data|
  }

  /** `send_data`: as many blocks as the window allows; also returns how many bytes they carry. */
  function SendData(e: Ibb, data: Bytes): (r: (Ibb, nat))
    ensures r.1 <= |data|
    decreases WINDOW_SIZE - |e.w.unacked|
  {
    if data == [] || |e.w.unacked| >= WINDOW_SIZE then (e, 0)
    else
      var n := BlockOf(e, data);
      var rest := SendData(SendBlock(e, data[..n]), data[n..]);
      (rest.0, n + rest.1)
  }

  function Send(e: Ibb, data: Bytes): (r: (Ibb, bool)) {
    if e.state != Open then (e, false)
    else
      var e1 := e.(w := e.w.(accepted := e.w.accepted + data));
      if e.w.buffer.Some? then (e1.(w := e1.w.(buffer := Some(e.w.buffer.value + data))), true)
      else
        var (e2, sent) := SendData(e1, data);
        (Spilled(e2, data, sent), true)
  }

  function Spilled(e: Ibb, data: Bytes, sent: nat): Ibb
    requires sent <= |data|
  {
    if sent < |data| then e.(w := e.w.(buffer := Some(data[sent..]), blocked := true)) else e
  }

  function SendCloseStanza(e: Ibb): Ibb {
    var e1 := if e.closeToAck.Some? then Emit(e, CloseAck(e.closeToAck.value)).(closeToAck := None) else e;
    Emit(e1, Close(e1.nextId)).(nextId := e1.nextId + 1)
  }

  /** Answers the pending IQs, oldest first; the list has the newest at its head. */
  function AnswerPending(e: Ibb, good: bool): Ibb
    decreases |e.r.pending|
  {
    if e.r.pending == [] then e
    else
      var k := |e.r.pending| - 1;
      var id := e.r.pending[k];
      AnswerPending(Emit(e, if good then Ack(id) else Nack(id)).(r := e.r.(pending := e.r.pending[..k])), good)
  }

  function CloseStream(e: Ibb): Ibb {
    if e.state == Closed then e else FinishClose(AnswerPending(e, false))
  }

  function FinishClose(e: Ibb): Ibb {
    if e.state == LocalPending then Emit(e, Decline).(state := Closed)
    else if e.w.buffer.Some? then e.(state := Closing)
    else SendCloseStanza(e).(state := Closed)
  }

  function CloseReceived(e: Ibb, id: nat): Ibb {
    CloseStream(e.(closeToAck := Some(id)))
  }

  /** Sends what it can of the write buffer; once that is empty a deferred close goes out. */
  function Flush(e: Ibb): Ibb
    requires e.w.buffer.Some?
  {
    var (e1, sent) := SendData(e, e.w.buffer.value);
    Flushed(e1, e.w.buffer.value, sent)
  }

  function Flushed(e: Ibb, buffer: Bytes, sent: nat): Ibb
    requires sent <= |buffer|
  {
    if sent < |buffer| then e.(w := e.w.(buffer := Some(buffer[sent..])))
    else
      var e1 := e.(w := e.w.(buffer := None, blocked := false));
      if e1.state == Closing then SendCloseStanza(e1).(state := Closed) else e1
  }

  /** A stanza of ours has been answered. */
  function Answered(e: Ibb, id: nat): Ibb {
    e.(w := e.w.(unacked := RemoveFirst(e.w.unacked, id)))
  }

  /** ... and refused. */
  function Refused(e: Ibb, id: nat): Ibb {
    var e1 := Answered(e, id);
    e1.(w := e1.w.(refused := e1.w.refused + 1))
  }

  /** `iq_reply_cb` */
  function IqReply(e: Ibb, id: nat, good: bool): Ibb {
    if !good then CloseStream(Refused(e, id))
    else if e.w.buffer.None? then Answered(e, id)
    else Flush(Answered(e, id))
  }

  function Refuse(e: Ibb, iq: Option<nat>): Ibb {
    if iq.Some? then Emit(e, Nack(iq.value)) else e.(r := e.r.(dropped := true))
  }

  function Record(r: Reading, iq: Option<nat>, payload: Bytes): Reading {
    r.(got := r.got + payload, received := if iq.Some? then r.received + [iq.value] else r.received)
  }

  /** Reading is blocked: the data is kept and the IQ left unanswered, unless the buffer is full. */
  function ReceiveBlocked(e: Ibb, iq: Option<nat>, payload: Bytes): Ibb {
    if |Content(e.r.buffer)| + |payload| > READ_BUFFER_MAX_SIZE then CloseStream(Refuse(e, iq))
    else
      e.(r := e.r.(buffer := Some(Content(e.r.buffer) + payload),
                   pending := if iq.Some? then [iq.value] + e.r.pending else e.r.pending))
  }

  /** A data stanza: an IQ with an id, or a plain message. */
  function Receive(e: Ibb, iq: Option<nat>, payload: Bytes): Ibb {
    var e0 := e.(r := Record(e.r, iq, payload));
    if e.state != Open then Refuse(e0, iq)
    else if e.r.blocked then ReceiveBlocked(e0, iq, payload)
    else
      var e1 := e0.(r := e0.r.(delivered := e.r.delivered + payload));
      if iq.Some? then Emit(e1, Ack(iq.value)) else e1
  }

  function BlockReading(e: Ibb, block: bool): Ibb {
    if e.r.blocked == block then e
    else if e.r.buffer.Some? && !block then
      AnswerPending(
        e.(r := e.r.(blocked := block, delivered := e.r.delivered + e.r.buffer.value, buffer := None)), true)
    else e.(r := e.r.(blocked := block))
  }
}
