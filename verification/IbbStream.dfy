/** The bytestream object of src/bytestream-ibb.c. Each method changes the fields in place and is
    proved to do what the function of the same name in IbbSpec says. */
module IbbStream {
  import opened Common
  import opened IbbSpec

  /** Sending `data` from `e0` comes to sending what is left of it from `e`, once `sent` bytes are out. */
  ghost predicate Resumes(e0: Ibb, data: Bytes, e: Ibb, sent: nat)
    requires sent <= |data|
  {
    var rest := SendData(e, data[sent..]);
    SendData(e0, data) == (rest.0, sent + rest.1)
  }

  lemma ResumesNext(e0: Ibb, data: Bytes, e: Ibb, sent: nat)
    requires sent < |data| && |e.w.unacked| < WINDOW_SIZE && Resumes(e0, data, e, sent)
    ensures var n := BlockOf(e, data[sent..]);
            Resumes(e0, data, SendBlock(e, data[sent..sent + n]), sent + n)
  {
    var n := BlockOf(e, data[sent..]);
    assert data[sent..][..n] == data[sent..sent + n];
    assert data[sent..][n..] == data[sent + n..];
  }

  lemma ResumesLast(e0: Ibb, data: Bytes, e: Ibb, sent: nat)
    requires sent <= |data| && Resumes(e0, data, e, sent)
    requires sent == |data| || |e.w.unacked| >= WINDOW_SIZE
    ensures SendData(e0, data) == (e, sent)
  {
  }

  class BytestreamIbb {
    var state: StreamState
    var blockSize: nat
    var closeToAck: Option<nat>
    var nextId: nat
    var out: seq<Stanza>
    // writing
    var seqNo: nat
    var unacked: seq<nat>
    var writeBuffer: Option<Bytes>
    var writeBlocked: bool
    var accepted: Bytes
    var refused: nat
    // reading
    var readBlocked: bool
    var readBuffer: Option<Bytes>
    var pending: seq<nat>
    var delivered: Bytes
    var got: Bytes
    var received: seq<nat>
    var dropped: bool

    ghost function View(): Ibb
      reads this
    {
      Ibb(state, blockSize, closeToAck, nextId, out,
          Writing(seqNo, unacked, writeBuffer, writeBlocked, accepted, refused),
          Reading(readBlocked, readBuffer, pending, delivered, got, received, dropped))
    }

    constructor (state: StreamState, blockSize: nat)
      ensures View() == NewIbb(state, blockSize)
    {
      this.state, this.blockSize, closeToAck, nextId, out := state, blockSize, None, 0, [];
      seqNo, unacked, writeBuffer, writeBlocked, accepted, refused := 0, [], None, false, [], 0;
      readBlocked, readBuffer, pending, delivered, got, received, dropped := false, None, [], [], [], [], false;
    }

    method SendBlock(block: Bytes)
      modifies this
      ensures View() == IbbSpec.SendBlock(old(View()), block)
    {
      out := out + [Data(nextId, seqNo, block)];
      seqNo := (seqNo + 1) % SEQ_MODULUS;
      unacked := unacked + [nextId];
      nextId := nextId + 1;
    }

    /** The loop of `send_data`. */
    method SendData(data: Bytes) returns (sent: nat)
      modifies this
      ensures (View(), sent) == IbbSpec.SendData(old(View()), data)
    {
      sent := 0;
      while sent < |data| && |unacked| < WINDOW_SIZE
        invariant sent <= |data|
        invariant Resumes(old(View()), data, View(), sent)
        decreases WINDOW_SIZE - |unacked|
      {
        var remaining := |data| - sent;
        var sendNow := if remaining > blockSize then blockSize else remaining;
        ResumesNext(old(View()), data, View(), sent);
        SendBlock(data[sent..sent + sendNow]);
        sent := sent + sendNow;
      }
      ResumesLast(old(View()), data, View(), sent);
    }

    method Send(data: Bytes) returns (ok: bool)
      modifies this
      ensures (View(), ok) == IbbSpec.Send(old(View()), data)
    {
      if state != Open { return false; }
      accepted := accepted + data;
      if writeBuffer.Some? {
        writeBuffer := Some(writeBuffer.value + data);
        return true;
      }
      var sent := SendData(data);
      if sent < |data| {
        writeBuffer := Some(data[sent..]);
        writeBlocked := true;
      }
      return true;
    }

    method SendCloseStanza()
      modifies this
      ensures View() == IbbSpec.SendCloseStanza(old(View()))
    {
      if closeToAck.Some? {
        out := out + [CloseAck(closeToAck.value)];
        closeToAck := None;
      }
      out := out + [Close(nextId)];
      nextId := nextId + 1;
    }

    method AnswerPending(good: bool)
      modifies this
      ensures View() == IbbSpec.AnswerPending(old(View()), good)
    {
      while pending != []
        invariant IbbSpec.AnswerPending(View(), good) == IbbSpec.AnswerPending(old(View()), good)
        decreases |pending|
      {
        var oldest := pending[|pending| - 1];
        out := out + [if good then Ack(oldest) else Nack(oldest)];
        pending := pending[..|pending| - 1];
      }
    }

    method CloseStream()
      modifies this
      ensures View() == IbbSpec.CloseStream(old(View()))
    {
      if state == Closed { return; }
      AnswerPending(false);
      if state == LocalPending {
        out := out + [Decline];
        state := Closed;
      } else if writeBuffer.Some? {
        state := Closing;
      } else {
        SendCloseStanza();
        state := Closed;
      }
    }

    method CloseReceived(id: nat)
      modifies this
      ensures View() == IbbSpec.CloseReceived(old(View()), id)
    {
      closeToAck := Some(id);
      CloseStream();
    }

    method Flush()
      requires writeBuffer.Some?
      modifies this
      ensures View() == IbbSpec.Flush(old(View()))
    {
      var buffer := writeBuffer.value;
      var sent := SendData(buffer);
      if sent < |buffer| {
        writeBuffer := Some(buffer[sent..]);
      } else {
        writeBuffer := None;
        writeBlocked := false;
        if state == Closing {
          SendCloseStanza();
          state := Closed;
        }
      }
    }

    method IqReplyCb(id: nat, good: bool)
      modifies this
      ensures View() == IqReply(old(View()), id, good)
    {
      unacked := RemoveFirst(unacked, id);
      if !good {
        refused := refused + 1;
        CloseStream();
      } else if writeBuffer.Some? {
        Flush();
      }
    }

    method Refuse(iq: Option<nat>)
      modifies this
      ensures View() == IbbSpec.Refuse(old(View()), iq)
    {
      if iq.Some? { out := out + [Nack(iq.value)]; } else { dropped := true; }
    }

    method ReceiveBlocked(iq: Option<nat>, payload: Bytes)
      modifies this
      ensures View() == IbbSpec.ReceiveBlocked(old(View()), iq, payload)
    {
      var current := Content(readBuffer);
      if |current| + |payload| > READ_BUFFER_MAX_SIZE {
        Refuse(iq);
        CloseStream();
      } else {
        readBuffer := Some(current + payload);
        if iq.Some? { pending := [iq.value] + pending; }
      }
    }

    method Receive(iq: Option<nat>, payload: Bytes)
      modifies this
      ensures View() == IbbSpec.Receive(old(View()), iq, payload)
    {
      got := got + payload;
      if iq.Some? { received := received + [iq.value]; }
      if state != Open {
        Refuse(iq);
      } else if readBlocked {
        ReceiveBlocked(iq, payload);
      } else {
        delivered := delivered + payload;
        if iq.Some? { out := out + [Ack(iq.value)]; }
      }
    }

    method BlockReading(block: bool)
      modifies this
      ensures View() == IbbSpec.BlockReading(old(View()), block)
    {
      if readBlocked == block { return; }
      readBlocked := block;
      if readBuffer.Some? && !block {
        delivered := delivered + readBuffer.value;
        readBuffer := None;
        AnswerPending(true);
      }
    }
  }
}
