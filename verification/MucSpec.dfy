/** Bytestreams in a chat room: fragmenting and reassembling messages (src/bytestream-muc.c). */
module MucSpec {
  import opened Common

  type Member = nat

  const MAX_BLOCK_SIZE := 1024 * 45

  /** The `frag` attribute of a stanza; `Invalid` for a value that is not understood. */
  datatype Frag = Complete | First | Middle | Last | Invalid

  datatype Stanza = Stanza(frag: Frag, data: Bytes)

  /** The next stanza of a message of which `sent` bytes have been sent in `count` stanzas. */
  function NextStanza(str: Bytes, sent: nat, count: nat): Stanza
    requires sent < |str|
  {
    if |str| - sent > MAX_BLOCK_SIZE then
      Stanza(if count == 0 then First else Middle, str[sent..sent + MAX_BLOCK_SIZE])
    else
      Stanza(if count == 0 then Complete else Last, str[sent..])
  }

  function FragmentsFrom(str: Bytes, sent: nat, count: nat): seq<Stanza>
    requires sent <= |str|
    decreases |str| - sent
  {
    if sent == |str| then []
    else
      var s := NextStanza(str, sent, count);
      [s] + FragmentsFrom(str, sent + |s.data|, count + 1)
  }

  /** The stanzas of one message. */
  function Fragments(str: Bytes): seq<Stanza> { FragmentsFrom(str, 0, 0) }

  /** What a stanza makes of the data buffered for its sender, and the message it completes. */
  function Reassemble(buffer: Option<Bytes>, s: Stanza): (Option<Bytes>, Option<Bytes>) {
    match s.frag
    case Complete => (None, Some(s.data))
    case First => (Some(s.data), None)
    case Middle => (if buffer.Some? then Some(buffer.value + s.data) else None, None)
    case Last => if buffer.Some? then (None, Some(buffer.value + s.data)) else (None, None)
    case Invalid => (buffer, None)
  }

  /** `priv->buffers`, and the messages given to the user. */
  datatype Receiver = Receiver(buffers: map<Member, Bytes>, delivered: seq<(Member, Bytes)>)

  function BufferOf(r: Receiver, from: Member): Option<Bytes> {
    if from in r.buffers then Some(r.buffers[from]) else None
  }

  /** A stanza in the room; data from someone without a handle is ignored. */
  datatype Entry = Entry(from: Member, known: bool, stanza: Stanza)

  function Receive(r: Receiver, e: Entry): Receiver {
    if !e.known then r
    else
      var (buffer, message) := Reassemble(BufferOf(r, e.from), e.stanza);
      Receiver(if buffer.Some? then r.buffers[e.from := buffer.value] else r.buffers - {e.from},
               if message.Some? then r.delivered + [(e.from, message.value)] else r.delivered)
  }
}
