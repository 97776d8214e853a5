# Verified models of Gabble's protocols

Gabble is an XMPP connection manager. This project models the parts of it that are protocols or
stateful algorithms of their own, and proves what they are for:

- **Muji conferences** (`Muji*.dfy`): any number of participants take turns through one chat room that
  puts their presences into a total order. Turn order, progress and which of two participants opens
  the session, over every sequence of joins, updates, deliveries and departures.
- **In-band bytestreams** (`Ibb*.dfy`): two ends with a window, spill buffer, deferred acknowledgements and
  deferred close, joined by queues of stanzas, are a plain queue of bytes; exactly when data is refused,
  when a close is answered and when an end never gets to close.
- **SOCKS5 bytestreams** (`Socks5*.dfy`): the incremental parser does not depend on how the bytes are cut
  into chunks (and where a cast to eight bits makes it), the handshake of a target with a listening
  initiator always completes, the target's walk through its streamhosts, and what exactly a stream has
  been told, by whomever, when it counts as connected.
- **Fallback methods** (`Multiple*.dfy`, `ProxyCache.dfy`): the two ends of a stream move through the same
  list of methods together, the target's SOCKS5 streams being those of `Socks5Fallback`; the cache of
  fallback proxies.
- **Room bytestreams** (`Muc*.dfy`): reassembly undoes fragmentation under any interleaving of senders.
- **OLPC activities** (`Olpc*.dfy`): conservation of references on objects shared by many tables, which
  together refine a plain list of who has announced what.
- **vCards** (`VCard*.dfy`), **unread mail** (`Mail*.dfy`) and **aliases** (`Alias*.dfy`): a print and parse
  round trip, a replication, and the accounting of pending requests.

Each component has the same layout. `XSpec` holds the private state as a datatype and every handler as a
function on it; histories (what was sent, delivered or answered) are fields of the state. The module
with the class (`IbbStream`, `Socks5Stream`, `MujiChannel`, ...) holds the object with its fields updated in
place, each method proved to do what the function says, loops included. The remaining modules put
the functions into a system with an environment, `Run(..., acts)` being the state after any sequence of
actions (one that is not possible changes nothing), and prove the theorems for all `acts`. Handlers are atomic:
no callback of the user re-enters an object from inside a signal.

`dafny verify dfyconfig.toml` checks everything.

## Findings

Where a promised property is false of the code, the code is modelled as it is, a lemma shows the failing
case, and another says exactly when the property holds.

- `remove_member` does not look at the queue again, so a participant whose only predecessor departs is
  left waiting (`MujiTurns.OrphanedExactly`): exactly until it leaves or is handed a publication of
  another participant (`MujiTurns.OrphanWaitsIff`), and if nobody else is there, until it leaves
  (`MujiTurns.StuckAfterDeparture`).
- A departure takes one entry of the queue of sessions back, so a member that was queued twice gets a
  session after it has departed (`MujiDepartures.DepartedOpened`, `MujiDepartures.SessionsOpened`,
  `MujiDepartures.NoneToDeparted`).
- A second round started before the first stable echo can make both participants open a session
  (`MujiOpeners.BothOpenAfterEarlyRound`); exactly one opens it if and only if the one that prepared
  first does not hear of the other in such a round (`MujiOpeners.ExactlyOneIff`).
- An IBB end that is handed a refusal while its spill buffer holds bytes stays in CLOSING for as long as
  it is not disposed of; at quiescence such an end, and no other, is closing (`IbbClosing.ClosingIff`,
  `IbbClosing.HitForEver`), and it never answers the other end's close (`IbbClosing.StuckRun`,
  `IbbClosing.StuckForEver`).
- The length of the SOCKS5 buffer is compared modulo 256, so a complete packet can go unnoticed
  (`Socks5Chunks.CastCounterexample`, `Socks5Chunks.CastMisses`).
- Bytes that reach an initiator before its proxy is activated abort it (`Socks5Fallback.AbortedRun`,
  `Socks5Fallback.AbortsIff`).
- A SOCKS5 initiator that is opened when its user has blocked reading receives all the same
  (`Socks5Opening.ForgottenRun`, `Socks5Opening.InitiatorHeld`).
- Streams are removed from the factory's tables by their key. Of two SOCKS5 streams at the head of one
  offer the second is therefore disposed of together with the first, at both ends, and the whole stream
  closes although there may be methods left (`MultipleOutcomes.RepeatedMethod`,
  `MultipleOutcomes.RegisteredIff`, `MultipleOutcomes.ClosedIff`). With SOCKS5 as the only usable method both
  ends can run out of methods and then stay in their old state (`MultipleOutcomes.OutOfMethods`,
  `MultipleOutcomes.StrandedIff`). All other offers work in every run (`MultipleOutcomes.OpensIff`).
- Three entry points leak a reference on an activity (`OlpcAccounting.LeakExample`, `OlpcAccounting.LeaksExactly`);
  setting one's own activities frees an object behind its reference count if and only if a room is
  listed twice (`OlpcAccounting.RepeatExample`, `OlpcAccounting.RepeatFreesIff`).
- A change of senders that keeps their number is not announced (`MailReplication.SendersStaleExample`,
  `MailReplication.SendersStale`).
- Setting the vCard field `photo`, which is in the table of fields, reaches an assertion
  (`VCardRoundTrip.AcceptedIff`).

## Model

| member | source | states |
|---|---|---|
| MujiChannel.CallMucChannel.DoUpdate | src/call-muc-channel.c:306-345 | a new round is announced with `<preparing>` only from PREPARING (once there are codecs) or STABLE; the new state in full |
| MujiChannel.CallMucChannel.OpenNewStreams | src/call-muc-channel.c:360-378 | the loop opens a session to every queued member in order and empties the queue |
| MujiChannel.CallMucChannel.SendNewState | src/call-muc-channel.c:516-611 | the queues are swapped, the new state is published, STABLE |
| MujiChannel.CallMucChannel.RemoveMember | src/call-muc-channel.c:688-700 | a member leaves all three queues, and the turn is not re-examined |
| MujiChannel.CallMucChannel.GotParticipantPresence | src/call-muc-channel.c:702-772 | the queues, the members and possibly the turn after a presence of another participant |
| MujiChannel.CallMucChannel.LeftCb | src/call-muc-channel.c:786-811 | departure from the room |
| MujiChannel.CallMucChannel.UpdateAllMembers | src/call-muc-channel.c:814-835 | the loop over the presences known on joining |
| MujiChannel.CallMucChannel.OwnPresenceCb | src/call-muc-channel.c:862-900 | the echo of one's own presence: waiting, publishing at once, or opening the sessions |
| MujiChannel.CallMucChannel.Accept | src/call-muc-channel.c:1137-1150 | accepting starts the first round once |
| MujiChannel.CallMucChannel.Leave | src/call-muc-channel.c:1187-1199 | leaving withdraws the `<muji>` element once |
| MujiInvariant.RunKeeps | src/call-muc-channel.c:702-900 | what every run keeps: outside WAIT and LEFT `after` is empty and `before` is exactly the others now preparing; while waiting the queues are disjoint and split the others by when they prepared; publications only after everyone ahead has been heard of again |
| MujiInvariant.UpdateAsserts | src/call-muc-channel.c:321-334 | in every run the assertions of an update hold: no `<muji>` tree before the first round, one once stable |
| MujiTurns.TurnOrder | src/call-muc-channel.c:749-770 | in every run, if p was preparing when q's preparation was ordered, q's new state comes after p's next publication or departure |
| MujiTurns.ProgressUnlessOrphaned | src/call-muc-channel.c:862-900 | once everything sent is delivered, someone waits for its turn if and only if someone waits with an empty queue |
| MujiTurns.OrphanedExactly | src/call-muc-channel.c:688-700 | a delivery leaves a participant waiting for nobody exactly when it is the departure of the one member it was waiting for |
| MujiTurns.NoOrphans | src/call-muc-channel.c:749-770 | without departures nobody waits with an empty queue |
| MujiTurns.Progress | src/call-muc-channel.c:525-528 | without departures, once everything sent is delivered nobody is left waiting |
| MujiTurns.OrphanWaitsIff | src/call-muc-channel.c:758-768 | in every continuation of every run, a participant that waits for nobody goes on waiting if and only if it does not leave and is handed no publication of another member |
| MujiTurns.StuckAfterDeparture | src/call-muc-channel.c:688-700 | a run of two participants with a departure, after which the other, with nothing on its way, waits in every continuation in which it does not leave |
| MujiNotes.NotesSent | src/call-muc-channel.c:306-611 | in every run, what each action makes its participant send: accepting or an update announces a round, a turn publishes the contents the call has then, leaving withdraws; nothing else is sent |
| MujiNotes.StatesFollow | src/call-muc-channel.c:306-345 | in every run, the state each action leads to |
| MujiNotes.ContentsPublished | src/call-muc-channel.c:525-607 | in every run, the contents a participant has published in the room are those of the call at its turns, in order, and all of them once everything it sent is ordered; a preparation repeats the contents of its last publication, or has none in the first round |
| MujiDepartures.SessionsOpened | src/call-muc-channel.c:360-378 | in every run, opening the sessions opens as many to a member as it was queued, one taken off for each departure heard; so one is opened to a member known to be gone exactly if it was queued more often than that |
| MujiDepartures.NoneToDeparted | src/call-muc-channel.c:688-700 | a member never queued while it is queued already is queued at most once, and not once it is known to be gone |
| MujiDepartures.DepartedOpened | src/call-muc-channel.c:688-745 | a run in which a session is opened to a member that has been heard to depart |
| MujiOpeners.OpensIff | src/call-muc-channel.c:744-745 | in every run without departures, of two participants in the call p opens a session to q if and only if q prepared first, or p was handed a note of q in a later round with its sessions not open |
| MujiOpeners.ExactlyOneIff | src/call-muc-channel.c:883-896 | exactly one of the two opens, the one that prepared later, if and only if the other was handed no such note |
| MujiOpeners.SingleOpener | src/call-muc-channel.c:360-392 | without departures and early rounds exactly one of each pair opens the session, the later one |
| MujiOpeners.BothOpenAfterEarlyRound | src/call-muc-channel.c:744-745 | a run with an early round after which both open |
| IbbStream.BytestreamIbb.SendCloseStanza | src/bytestream-ibb.c:368-397 | acknowledges a close received, then sends a close |
| IbbStream.BytestreamIbb.IqReplyCb | src/bytestream-ibb.c:402-467 | an answer makes room in the window: the spill buffer is flushed and a deferred close sent; an error closes |
| IbbStream.BytestreamIbb.SendData | src/bytestream-ibb.c:469-540 | the loop sends as many numbered blocks as the window allows and reports how many bytes |
| IbbStream.BytestreamIbb.Send | src/bytestream-ibb.c:547-600 | bytes are accepted only when open; what the window does not take is spilled |
| IbbStream.BytestreamIbb.Receive | src/bytestream-ibb.c:602-698 | delivered and acknowledged, buffered and left unanswered while blocked, or refused |
| IbbStream.BytestreamIbb.CloseStream | src/bytestream-ibb.c:780-822 | pending IQs refused, then declined, deferred or closed |
| IbbStream.BytestreamIbb.BlockReading | src/bytestream-ibb.c:892-936 | unblocking delivers the buffer and acknowledges the pending IQs, oldest first |
| IbbStream.BytestreamIbb.CloseReceived | src/bytestream-ibb.c:938-948 | a close of the other end is remembered and closes |
| IbbEnd.SendKeeps | src/bytestream-ibb.c:547-600 | sending keeps the invariant of an end: accepted bytes are payloads sent and spill buffer, in order; window, numbering, close last |
| IbbEnd.AckKeeps | src/bytestream-ibb.c:402-467 | so does an acknowledgement |
| IbbEnd.NackKeeps | src/bytestream-ibb.c:402-467 | so does a refusal, which is counted |
| IbbEnd.CloseKeeps | src/bytestream-ibb.c:780-822 | so does a close |
| IbbEnd.ReceiveKeeps | src/bytestream-ibb.c:602-698 | so does a data stanza: each IQ answered once or pending, buffered data never overtaken |
| IbbEnd.BlockKeeps | src/bytestream-ibb.c:892-936 | so does blocking and unblocking |
| IbbLink.RunKeeps | src/bytestream-ibb.c:402-936 | in every run of two ends: both ends' invariants; what one has received is a prefix of what the other sent; no unanswered stanza has an answer processed |
| IbbLink.EndToEnd | src/bytestream-ibb.c:469-698 | while the receiver has refused nothing: accepted == delivered ++ read buffer ++ in flight ++ write buffer, in both directions |
| IbbLink.Sequencing | src/bytestream-ibb.c:479-535 | the k-th data stanza carries k mod 65536 and at most one block |
| IbbLink.WindowAndClose | src/bytestream-ibb.c:354-397 | at most 10 unanswered; write blocked iff the spill buffer is there, which is not empty and without refusals means exactly 10; a close goes out only after every byte accepted |
| IbbLink.ReceiverAccounting | src/bytestream-ibb.c:620-697 | every data IQ received is exactly once acknowledged, refused or pending; pending only while blocked and open; unblocked means no buffer; at most 512 KiB |
| IbbLink.NothingLost | src/bytestream-ibb.c:402-467 | when all stanzas have arrived, nothing was refused and reading is not blocked, everything accepted is delivered and nothing waits |
| IbbLink.CloseIsLast | src/bytestream-ibb.c:804-821 | when a close arrives the receiver has every byte accepted |
| IbbDelivery.RefusesIff | src/bytestream-ibb.c:652-695 | an open end refuses a data IQ, and closes, if and only if reading is blocked and the bytes buffered and received exceed 524288; otherwise the bytes reach the user, or the buffer behind those before |
| IbbDelivery.DropsIff | src/bytestream-ibb.c:602-698 | a message is dropped if and only if the end is not open or its buffer would overflow so, and is never answered |
| IbbDelivery.RefusalStep | src/bytestream-ibb.c:602-822 | a step of a run makes an end refuse in exactly two cases: data reaches it when it is not open or full, or it is closed with data IQs unanswered |
| IbbDelivery.AcceptsIff | src/bytestream-ibb.c:547-600 | bytes of the user are accepted if and only if the end is open |
| IbbDelivery.FullBlocks | src/bytestream-ibb.c:479-535 | all data stanzas but the one that ends the data are full blocks |
| IbbDelivery.UnblockingDelivers | src/bytestream-ibb.c:892-936 | unblocking, in any state, gives the user what is buffered and acknowledges the IQs that waited, oldest first |
| IbbDelivery.ClosesNow | src/bytestream-ibb.c:780-822 | in every run, its user, a close, the refusal of an outstanding stanza and an overflow each close an end at once, or when its spill buffer is empty |
| IbbDelivery.CalmRun | src/bytestream-ibb.c:547-698 | if nobody closes and no blocked reader is handed more than fits, both ends stay open, nothing is ever refused, and everything the users send is accepted |
| IbbDelivery.CalmDelivery | src/bytestream-ibb.c:402-698 | in such a run the ends are a queue of bytes in both directions, and once all stanzas have arrived a user who is reading has received exactly what the other user sent |
| IbbCloses.CloseAnswered | src/bytestream-ibb.c:368-397 | in every run an end is closed exactly if it has sent a close, and sends only one; of the closes that reached it, it has answered exactly those that came before it closed, once it is closed; and no other |
| IbbCloses.DeclinesIff | src/bytestream-ibb.c:743-804 | closing declines the offer exactly if it was not accepted |
| IbbClosing.ClosingIff | src/bytestream-ibb.c:404-434 | in every run, an end that was handed a refusal of an outstanding stanza while its spill buffer held bytes is closing from then on; when nothing more is on its way an end is closing if and only if that happened, if and only if it waits for no answer with bytes left, and if and only if some byte it accepted was never sent |
| IbbClosing.HitForEver | src/bytestream-ibb.c:423-430 | such an end is closing in every continuation of the run |
| IbbClosing.StuckForEver | src/bytestream-ibb.c:780-822 | an end that is closing with bytes left and no answer to wait for stays so whatever happens, and sends neither a close nor the answer to one |
| IbbClosing.StuckRun | src/bytestream-ibb.c:804-821 | a run: eleven blocks cross the other end's close |
| Socks5Stream.BytestreamSocks5.TransportConnectedCb | src/bytestream-socks5.c:493-522 | the timer stops and the authentication request is sent |
| Socks5Stream.BytestreamSocks5.TransportDisconnectedCb | src/bytestream-socks5.c:524-531 | a lost connection is an error |
| Socks5Stream.BytestreamSocks5.CloseTransport | src/bytestream-socks5.c:547-566 | buffer and connection are dropped together |
| Socks5Stream.BytestreamSocks5.SetTransport | src/bytestream-socks5.c:593-613 | a new connection with an empty buffer; there must have been no buffer |
| Socks5Stream.BytestreamSocks5.Socks5Error | src/bytestream-socks5.c:615-676 | the target goes on to its next streamhost or refuses the query, a listening initiator waits, others close; the mutual recursion with connecting terminates |
| Socks5Stream.BytestreamSocks5.StartTimer | src/bytestream-socks5.c:718-728 | arms the timer, which must not be armed |
| Socks5Stream.BytestreamSocks5.TargetGotConnectReply | src/bytestream-socks5.c:730-762 | the stream opens, then the query is answered with the first streamhost listed; reading is blocked if the user wants it so |
| Socks5Stream.BytestreamSocks5.HandleAuthReply | src/bytestream-socks5.c:856-913 | answer to the authentication request |
| Socks5Stream.BytestreamSocks5.HandleConnectReply | src/bytestream-socks5.c:915-1006 | answer to CONNECT, with the length reduced to eight bits |
| Socks5Stream.BytestreamSocks5.HandleAuthRequest | src/bytestream-socks5.c:1008-1047 | authentication request, with the loop over its methods and the signed count |
| Socks5Stream.BytestreamSocks5.HandleCommand | src/bytestream-socks5.c:1049-1125 | CONNECT command, with the length reduced to eight bits and the domain checked |
| Socks5Stream.BytestreamSocks5.HandleReceivedData | src/bytestream-socks5.c:840-1162 | one call of the handler: new state and bytes used, 0 to wait, -1 after an error |
| Socks5Stream.BytestreamSocks5.TransportHandler | src/bytestream-socks5.c:1164-1201 | the loop over the buffer: state and remainder |
| Socks5Stream.BytestreamSocks5.Socks5Connect | src/bytestream-socks5.c:1203-1239 | a connection to the first streamhost, with a timer |
| Socks5Stream.BytestreamSocks5.ConnectToStreamhost | src/bytestream-socks5.c:1316-1327 | a query starts the attempts |
| Socks5Stream.BytestreamSocks5.Close | src/bytestream-socks5.c:1469-1500 | declines an offer, or closes at once or when the connection has sent its bytes |
| Socks5Stream.BytestreamSocks5.BlockReading | src/bytestream-socks5.c:2002-2017 | the user's wish is kept, and applied to the connection if there is one |
| Socks5Chunks.MoreBytesIff | src/bytestream-socks5.c:854-1139 | bytes behind those that settle the matter change nothing if and only if the packet is not missed on account of the reduced length |
| Socks5Chunks.FeedIsOneChunk | src/bytestream-socks5.c:1184-1198 | chunks in which no call of the handler misses a packet come to what their concatenation comes to, until the connection is dropped |
| Socks5Chunks.CastMisses | src/bytestream-socks5.c:956-1063 | the reduced length changes the outcome if and only if the packet is complete and the buffer's length modulo 256 is below its size; then the handler waits |
| Socks5Chunks.CastCounterexample | src/bytestream-socks5.c:956-958 | 47 bytes of reply with 209 of data behind them are not noticed in one chunk and are in two |
| Socks5Chunks.ChunkIndependence | src/bytestream-socks5.c:1164-1201 | two splits of the same bytes in which no packet is missed give the same state, bytes written, data and remainder |
| Socks5Chunks.SmallFeedUnmissed | src/bytestream-socks5.c:956-1063 | with at most 255 bytes buffered during the negotiation no packet is missed |
| Socks5Handshake.RunKeeps | src/bytestream-socks5.c:840-1133 | where both ends are in the handshake, byte by byte, in every run |
| Socks5Handshake.HandshakeSafe | src/bytestream-socks5.c:678-705 | neither end fails; no handshake byte is taken for data; data sent is what the other user received and what is still to be read |
| Socks5Handshake.HandshakeCompletes | src/bytestream-socks5.c:1102-1125 | when nothing more can happen both ends are connected and open, having consumed exactly 50 and 49 bytes of handshake, and all data has arrived |
| Socks5Fallback.FailShortens | src/bytestream-socks5.c:635-664 | every failed attempt removes the first streamhost and tries the next or refuses the query |
| Socks5Fallback.StreamhostFallback | src/bytestream-socks5.c:615-664 | in every run of a target: no assertion fails; the timer is armed exactly in the two phases; what becomes known is nothing, success and then the streamhost in use, or failure and then the refusal, after all were tried in order |
| Socks5Fallback.InitiatorSafe | src/bytestream-socks5.c:764-836 | in every run of an initiator: the timer is armed exactly while a proxy's reply is awaited; assertions hold unless a proxy is used |
| Socks5Fallback.BytesBeforeActivation | src/bytestream-socks5.c:1147-1160 | for any bytes and any phase in which an initiator reads: they abort it if and only if something follows a good reply of the proxy, or the activation is awaited |
| Socks5Fallback.AbortsIff | src/bytestream-socks5.c:1147-1160 | a run that has not aborted aborts at the next event if and only if that brings such bytes |
| Socks5Fallback.AbortedRun | src/bytestream-socks5.c:939-960 | a run that aborts, by one byte behind a reply of six |
| Socks5Peers.CommandIff | src/bytestream-socks5.c:1049-1125 | for every buffer: a listening initiator takes the connection if and only if the command noticed is 5, 1, 0, 3, 40, the 40 bytes of sha1(sid + initiator + target), 0, 0; any other complete packet is an error, nothing is written, and a wrong domain closes the connection |
| Socks5Peers.AuthRequestIff | src/bytestream-socks5.c:1008-1047 | it goes on if and only if the request lists no authentication among its methods |
| Socks5Peers.WelcomeIff | src/bytestream-socks5.c:856-913 | a target, or an initiator at a proxy, sends its CONNECT if and only if it is welcome without authentication |
| Socks5Peers.ReplyIff | src/bytestream-socks5.c:915-1006 | it takes the connection if and only if the reply noticed is positive |
| Socks5Peers.ListenerConnected | src/bytestream-socks5.c:1085-1125 | in every run, an initiator connected by its listener received an authentication request and that CONNECT on its connection and answered both, and has given the user exactly what came behind |
| Socks5Peers.TargetConnected | src/bytestream-socks5.c:730-762 | in every run, a connected target sent 5, 1, 0 and the CONNECT to sha1(sid + initiator + target), received 5, 0 and a positive reply, and has given the user exactly what came behind |
| Socks5Peers.ProxyConnected | src/bytestream-socks5.c:806-838 | the same of an initiator at a proxy that waits for its activation |
| Socks5Opening.SignalsIff | src/bytestream-socks5.c:1543-1625 | in every run of an initiator, exactly which event signals success, which failure, and when it is open |
| Socks5Opening.ClosesWhenSent | src/bytestream-socks5.c:1469-1500 | in every run, a stream closed by its user is closed at once if it has sent everything, otherwise when it has |
| Socks5Opening.LostGoesOn | src/bytestream-socks5.c:615-676 | in every run, what the loss of the connection or a time-out leads to: the next streamhost, failure and refusal of the query, waiting for another connection, or closing |
| Socks5Opening.DeclinesIff | src/bytestream-socks5.c:1432-1490 | closing declines the offer exactly if it was not accepted |
| Socks5Opening.BlockTakes | src/bytestream-socks5.c:2002-2017 | the user can block and unblock reading at any time |
| Socks5Opening.TargetHeld | src/bytestream-socks5.c:755-761 | in every run of a connected target, receiving is held back exactly while its user has blocked reading |
| Socks5Opening.InitiatorHeld | src/bytestream-socks5.c:1611-1614 | in every run of an open initiator too, unless it was opened with reading blocked and its user has not changed that since |
| Socks5Opening.ForgottenRun | src/bytestream-socks5.c:795-798 | a run in which bytes are received although their user has blocked reading |
| MultipleStream.BytestreamMultiple.ConnectionErrorCb | src/bytestream-multiple.c:521-558 | the stream must not be established yet; the failed one is let go and the next method activated, if there is one |
| MultipleStream.BytestreamMultiple.ErrorHandled | src/bytestream-socks5.c:232-250 | once the signal has been handled a stream that was replaced is disposed of, and with it the one registered under its key |
| MultipleStream.BytestreamMultiple.ActivateNext | src/bytestream-multiple.c:560-598 | the first fallback method becomes active and is registered in the state of the whole, in the place of one of its kind; if nobody keeps that one, its disposal takes the new stream out of the table again |
| MultipleStream.BytestreamMultiple.AddStreamMethod | src/bytestream-multiple.c:605-623 | a method is appended, and activated if none is |
| MultipleStream.BytestreamMultiple.AddOffered | src/bytestream-factory.c:1207-1243 | the loop over the methods offered keeps the supported ones |
| MultipleStream.BytestreamMultiple.StateChanged | src/bytestream-multiple.c:497-510 | the state of the active stream is that of the whole; one that closes leaves the table |
| MultipleStream.BytestreamMultiple.RemoveBytestream | src/bytestream-factory.c:798-836 | what is registered under a key leaves the table; if it is the active stream, its disposal closes the whole |
| MultipleLockStep.NewMethods | src/bytestream-factory.c:1887-1928 | a list of methods becomes its supported part: the first active, the others in reserve |
| MultipleLockStep.LockStep | src/bytestream-multiple.c:400-405 | in every run, for every offer, both ends hold its supported part; activated ++ remaining is that list; the target is at most one method ahead; no assertion fails |
| MultipleLockStep.OpenAccepted | src/bytestream-factory.c:1307-1385 | an IBB open on its way finds the target's stream registered in ACCEPTED, so it is never refused; a query finds a stream if and only if it is the initiator's first; before the refusal of that query leaves, the target has registered the stream the initiator will turn to, or is closed if that is a second SOCKS5 stream |
| MultipleLockStep.Settles | src/bytestream-socks5.c:652-664 | when all is quiet: no stream, both ends open with the same method, both out of methods and in their old state (SOCKS5 the only usable method), or both closed (the usable methods begin with SOCKS5 twice) |
| MultipleOutcomes.OpensIff | src/bytestream-multiple.c:521-598 | for every offer: whenever all is quiet and there is a stream it is open at both ends, in every run, if and only if the offer has no usable method or has IBB and does not begin with SOCKS5 twice |
| MultipleOutcomes.RepeatedMethod | src/bytestream-factory.c:798-836 | for every offer whose usable methods begin with SOCKS5 twice, a run after which the active stream of neither end is registered while the query for it is on its way |
| MultipleOutcomes.RegisteredIff | src/bytestream-factory.c:1693-1709 | the active streams of both ends are registered in every run if and only if the usable methods do not begin so |
| MultipleOutcomes.ClosedIff | src/bytestream-factory.c:1814-1847 | there is a run that leaves both ends closed if and only if the usable methods begin with SOCKS5 twice |
| MultipleOutcomes.OutOfMethods | src/bytestream-multiple.c:543-548 | for every offer with SOCKS5 as its one usable method, a run that leaves both ends without a method |
| MultipleOutcomes.StrandedIff | src/bytestream-multiple.c:543-548 | there is such a run if and only if SOCKS5 is the one usable method |
| MultipleOutcomes.DeclinedIff | src/bytestream-factory.c:1252-1259 | in every run the target declines exactly when its user refuses the offer, or the offer arrives without IBB and SOCKS5 |
| MultipleOutcomes.OpenGrantedIff | src/bytestream-factory.c:1344-1385 | in any state, an IBB open is granted if and only if a stream is registered and accepted; otherwise it is refused and changes nothing |
| ProxyCache.BytestreamFactory.AddProxyToList | src/bytestream-factory.c:248-300 | a proxy moves to or enters at the head; the oldest leaves a full fallback list |
| ProxyCache.CacheIsRecent | src/bytestream-factory.c:237-300 | after any additions the fallback list is the five most recently added distinct JIDs, the other list all of them |
| ProxyCache.RecencyMeaning | src/bytestream-factory.c:248-300 | each entry is the last addition of its JID, and later additions come first |
| ProxyCache.RecencyComplete | src/bytestream-factory.c:248-300 | every JID added is in the unbounded list |
| MucStream.BytestreamMuc.SendDataTo | src/bytestream-muc.c:273-380 | the loop sends the fragments of the message, or those before the first the connection does not take |
| MucStream.BytestreamMuc.Receive | src/bytestream-muc.c:398-536 | buffers and deliveries after a stanza of any kind |
| MucRoundTrip.FragmentSizes | src/bytestream-muc.c:40-42 | fragments make up the message, are as few as can be and at most 46080 bytes, 61440 after base64 |
| MucRoundTrip.FragmentMarks | src/bytestream-muc.c:320-356 | which fragment of a message is marked as complete, first, middle and last |
| MucRoundTrip.Projection | src/bytestream-muc.c:467-535 | what is buffered for and delivered from a sender depends on that sender's stanzas only |
| MucRoundTrip.RoundTrip | src/bytestream-muc.c:291-379 | whatever the interleaving, and from wherever the receiver listens, the messages delivered from a sender are those sent whole and heard from their first fragment, in order |
| MucRoundTrip.Delivers | src/bytestream-muc.c:440-535 | for any stanzas of a sender, in any order: exactly when one delivers a message, and which: its own data, or that gathered since the last beginning |
| OlpcConnection.GabbleConnection.ExtractActivities | src/conn-olpc.c:648-744 | the loop over announced activities takes references and the former set gives its back |
| OlpcConnection.GabbleConnection.SetActivities | src/conn-olpc.c:1041-1174 | the same for the user's own list; an invalid or repeated room gives back what was taken, and the repeated one's object is freed |
| OlpcConnection.GabbleConnection.UnrefAll | src/conn-olpc.c:111-121 | dropping one reference on each room of a set, in any order |
| OlpcConnection.GabbleConnection.AddActivity | src/conn-olpc.c:993-1039 | adding one's own activity, with a reference too many if it is new |
| OlpcConnection.GabbleConnection.AddActivityInfoInSet | src/conn-olpc.c:1207-1249 | a new activity owned by a contact's set |
| OlpcConnection.GabbleConnection.ExtractCurrentActivity | src/conn-olpc.c:1251-1319 | the cache takes a reference and gives back the one it had |
| OlpcConnection.GabbleConnection.UpdateActivityProperties | src/conn-olpc.c:2059-2126 | properties of an unknown activity create it |
| OlpcConnection.GabbleConnection.ProcessInvite | src/conn-olpc.c:2330-2370 | an invitation takes one reference per contact and room |
| OlpcConnection.GabbleConnection.ProcessUninvite | src/conn-olpc.c:2526-2621 | an invitation withdrawn, also under another id |
| OlpcConnection.GabbleConnection.ForgetActivityInvites | src/conn-olpc.c:2739-2781 | the loop that forgets the invitations to a room joined |
| OlpcConnection.GabbleConnection.MucChannelOpened | src/conn-olpc.c:2817-2854 | a channel holds a reference |
| OlpcConnection.GabbleConnection.MucChannelClosed | src/conn-olpc.c:2623-2674 | and gives it back, with that of the user's own list |
| OlpcConnection.GabbleConnection.ContactUnavailable | src/conn-olpc.c:2864-2905 | a contact's sets are given back |
| OlpcConnection.GabbleConnection.GetBuddyActivities | src/conn-olpc.c:570-646 | the loop over the union of a contact's sets lists exactly the rooms whose activity has an id, with the id, and fails if a room has no activity |
| OlpcAccounting.ListedSafely | src/conn-olpc.c:610-622 | in every run every room of a contact's sets has an activity, so the listing does not fail |
| OlpcAccounting.ExtractKeeps | src/conn-olpc.c:648-744 | announcing keeps the balance of references |
| OlpcAccounting.SetActivitiesKeeps | src/conn-olpc.c:1041-1160 | setting one's own list, without repetition, keeps it |
| OlpcAccounting.RepeatFreesIff | src/conn-olpc.c:1106-1131 | an object is freed behind its count if and only if a room is listed twice |
| OlpcAccounting.RepeatExample | src/conn-olpc.c:1106-1131 | two lists that do so: on a new connection, and where another contact holds the object |
| OlpcAccounting.CurrentKeeps | src/conn-olpc.c:1251-1319 | a current activity keeps it |
| OlpcAccounting.UninviteKeeps | src/conn-olpc.c:2584-2606 | withdrawing an invitation keeps it, counting the leak |
| OlpcAccounting.ChannelClosedKeeps | src/conn-olpc.c:2644-2656 | closing a channel keeps it |
| OlpcAccounting.PresenceLostKeeps | src/conn-olpc.c:2881-2899 | a contact going away keeps it |
| OlpcAccounting.Conservation | src/conn-olpc.c:541-568 | in every run the references on a room's activity are announced sets + invitations + channels + current activities + leaks; the object exists exactly while one of these does; no assertion fails |
| OlpcAccounting.LeaksExactly | src/conn-olpc.c:1018-1030 | leaks never fall and grow in exactly three cases |
| OlpcAccounting.LeakExample | src/conn-olpc.c:1018-1030 | an activity that nobody holds any more and that stays |
| OlpcAccounting.JoinForgets | src/conn-olpc.c:2739-2781 | joining a room removes it from every invitation set visited and changes no other |
| OlpcLedger.TablesAreLedger | src/conn-olpc.c:648-2905 | in every run the tables hold what a plain list of announcements, invitations, rooms joined and current activities says, action by action; an activity is there exactly while somebody in that list holds it, with the id it was last given |
| OlpcLedger.ListingIsLedger | src/conn-olpc.c:570-646 | listing a contact shows exactly the rooms it announced or invited to whose activity has an id, with the id |
| OlpcLedger.AfterAnnouncement | src/conn-olpc.c:648-744 | after any run, an announcement makes the contact's set exactly the rooms of the items with an id and a room, each with the id of its first such item, and changes nobody else's |
| VCardInfo.CreateContactFieldExtended | src/conn-contact-info.c:178-246 | the loops over types and elements read a structured field |
| VCardInfo.LabelText | src/conn-contact-info.c:334-360 | the loop that joins the lines of a label |
| VCardInfo.ParseVcard | src/conn-contact-info.c:248-372 | the fields of a vCard, in order |
| VCardInfo.NewEditInfo | src/conn-contact-info.c:630-692 | the loops that check and print type-parameters |
| VCardInfo.EditField | src/conn-contact-info.c:779-897 | the edit for one field, or the error |
| VCardInfo.SetContactInfo | src/conn-contact-info.c:731-930 | the loop over the fields stops at the first that will not do; otherwise their edits stand between a CLEAR and a SET_ALIAS |
| VCardRoundTrip.FieldRoundTrip | src/conn-contact-info.c:630-692 | the node printed for a field reads back as its canonical form |
| VCardRoundTrip.LabelRead | src/conn-contact-info.c:880-893 | the text of a label comes back as it was if empty or ended by a newline, otherwise with one added |
| VCardRoundTrip.RoundTrip | src/conn-contact-info.c:779-930 | whatever the vCard was, an accepted list of fields reads back in canonical form (parameters in table order without repetition, labels without parameters, two fields renamed), a once-only field superseding different earlier ones and an equal one keeping its place, with the user's alias appended if it is known and has no field |
| VCardRoundTrip.RoundTripExact | src/conn-contact-info.c:248-372 | canonical fields without repeated once-only ones come back unchanged, but for that alias |
| VCardRoundTrip.UnchangedIff | src/conn-contact-info.c:81-146 | an accepted field is unchanged if and only if it is not renamed, its parameters are in order and it is not an unended or parametrised label |
| VCardRoundTrip.AcceptedIff | src/conn-contact-info.c:731-904 | a field is accepted if and only if name, parameters and number of values are right; `photo` aborts |
| VCardNodes.AcceptedExactly | src/conn-contact-info.c:81-146 | the same with all names, type-parameters and numbers of values written out |
| VCardNodes.ReplacesIff | src/conn-contact-info.c:640-645 | FN, N and GEO replace what is there, all others are added |
| VCardNodes.SetIff | src/conn-contact-info.c:731-930 | a list is set if and only if every field of it is accepted; the first that is not decides between error and abort |
| VCardNodes.StructuredPrinted | src/conn-contact-info.c:102-124 | for N, ADR, GEO, TEL and EMAIL, the child of each name holds the value at its own index, and there is a child for exactly the type-parameters given |
| VCardNodes.OrgPrinted | src/conn-contact-info.c:830-858 | an organisation is printed as its name and its units in order |
| VCardNodes.LabelPrinted | src/conn-contact-info.c:860-893 | a label as its parameters and its lines |
| VCardNodes.SimplePrinted | src/conn-contact-info.c:779-800 | a simple field as its text |
| VCardNodes.StructuredForeign | src/conn-contact-info.c:178-246 | anybody's node of these five, with children in any order or missing, reads as the texts in the order of the names, with the type-parameters for which there is a child |
| VCardNodes.OrgForeign | src/conn-contact-info.c:290-332 | any organisation reads as its first name and its units |
| VCardNodes.LabelForeign | src/conn-contact-info.c:334-360 | any label as its lines |
| VCardNodes.OthersForeign | src/conn-contact-info.c:248-294 | a simple field as its text; anything else is passed over |
| VCardNodes.NothingElseStays | src/vcard-manager.c:1057-1085 | setting the fields keeps the photo, and leaves nothing else but the nodes of the fields and the alias |
| MailNotification.Mailbox.HandleNode | src/conn-mail-notif.c:256-324 | a stored mail is edited in place and found changed or not |
| MailNotification.Mailbox.StoreUnreadMails | src/conn-mail-notif.c:405-466 | the loop over a reply rebuilds the table and collects what was added and removed |
| MailReplication.StoreAgrees | src/conn-mail-notif.c:337-402 | a client that agreed before a reply agrees after applying its signal |
| MailReplication.Replication | src/conn-mail-notif.c:405-462 | after any replies with distinct thread ids the client has exactly the threads of the last one and agrees on date, subject, snippet and number of senders |
| MailReplication.CopyIsAsAnnounced | src/conn-mail-notif.c:394-398 | in every run the client's copy of a mail is the connection's mail as it was when last announced |
| MailReplication.SendersStale | src/conn-mail-notif.c:256-281 | in every run, for every thread held, client and connection agree on who the senders are if and only if those last listed are those last listed when the thread was last announced |
| MailReplication.SendersStaleExample | src/conn-mail-notif.c:256-281 | two replies after which client and connection differ in the sender |
| MailContents.MailsAreLastGiven | src/conn-mail-notif.c:231-324 | in every run, each mail has the date last given since its thread appeared, in seconds, the unread ones of the senders last listed, the subject and snippet last given, and is truncated if a snippet was given |
| MailContents.AnnouncedIff | src/conn-mail-notif.c:337-402 | in every run, a reply announces exactly the threads not held before or of which it says something new, and removes exactly those it does not list |
| AliasRequest.AliasesRequest.PepCb | src/conn-aliasing.c:263-315 | a PEP reply fills the slot, chains to a vCard request or gives up when disconnected |
| AliasRequest.AliasesRequest.VcardCb | src/conn-aliasing.c:160-198 | a vCard reply is found by its request and fills the slot |
| AliasRequest.AliasesRequest.TryReturn | src/conn-aliasing.c:142-157 | the call is answered when nothing is pending |
| AliasRequest.AliasesRequest.constructor | src/conn-aliasing.c:391-470 | the loop over the contacts fills, or sends a PEP or vCard request |
| AliasAccounting.Accounting | src/conn-aliasing.c:142-198 | in every interleaving: assertions hold; each counter is the number of requests standing; exactly one answer, given when and only when nothing is pending; every alias is of the contact at its index |
| AliasAccounting.AllAliases | src/conn-aliasing.c:263-315 | if the connection stays up the answer has an alias at every index |
| AliasTexts.FirstAsked | src/conn-aliasing.c:420-470 | the call asks for exactly the contacts whose alias is not good enough, by PEP if that is supported and by vCard otherwise |
| AliasTexts.PepChains | src/conn-aliasing.c:283-312 | in every run, a PEP reply fills its slot if the alias is good enough then; otherwise a vCard request takes its place while connected, and nothing if not |
| AliasTexts.TextsAnswered | src/conn-aliasing.c:160-198 | in every run, the text answered for a contact is that of the caches at the event that settled it |

## Left out

- MujiChannel.CallMucChannel.OpenNewStreams: the second loop, which adds new contents to sessions, and the call's state are not modelled (src/call-muc-channel.c:366-391).
- Presences that the room channel resends for other reasons than Muji are not modelled; a stale echo could then match the current `<muji>` element (src/call-muc-channel.c:862-900).
- Codec negotiation, contents and the members' media streams of a Muji call are a list of numbers (src/call-muc-channel.c:394-514, 613-686).
- MujiOpeners.OpensIff: treats the queue of sessions as a set; how often a session is opened is `MujiDepartures.SessionsOpened`.
- The opening handshake of IBB is part of the fallback model only; `IbbLink` starts with both ends open. The message transport of IBB data, which has no IQ to answer, is in the handlers but not in the runs of `IbbLink`.
- IbbCloses.CloseAnswered: an end that is closed stays on the link; in the code the factory then drops it, answers a later close itself, and disposal acknowledges a close still remembered (src/bytestream-ibb.c:138-143).
- base64 is the identity with a length formula, SHA-1 a parameter with 40 bytes of result, sockets are events of the environment.
- Socks5Handshake.HandshakeCompletes: without time-outs, disconnections and blocking by the users, each of which ends or suspends a negotiation; these are events of `Socks5Fallback`.
- A second query for the same stream and a second connection to a listener that has one, either of which fails an assertion at once (src/bytestream-socks5.c:593-613), are not events of `Socks5Fallback`.
- The validation of streamhosts (src/bytestream-socks5.c:1246-1309) and the proxies' discovery (src/bytestream-factory.c:302-571).
- MultipleLockStep.Settles: assumes that an initiator told of success succeeds, so the activation failures of the proxy-mediated path are outside the lock-step, and that neither user closes a stream that is being established.
- Streams offered without si-multiple, and the data that flows once the streams are open.
- MultipleLockStep.LockStep: models the tables of one stream id; other streams have other keys.
- A target whose SOCKS5 stream was replaced by another while it signalled its error goes on to send its refusal from an object that has been freed (src/bytestream-socks5.c:652-664); the model lets the refusal leave.
- MultipleStream.BytestreamMultiple.StateChanged: only a stream that is registered, and so alive, changes its state; what a freed one would do is not modelled.
- Setting the same activity twice in one call frees an object behind its reference count (src/conn-olpc.c:1128); what the process does after that is not modelled, and the runs of `OlpcAccounting` have no such call.
- The properties of activities and buddies, visibility, and what is published by PEP (src/conn-olpc.c:917-974, 1659-1822): no references are taken or dropped there.
- Disposal of the connection, with the tables still full (src/conn-olpc.c:3000-3018).
- Names of vCard elements, fields and type-parameters are enumerated; lower-casing a name is a constructor.
- MailReplication.Replication: replies that list a thread twice are excluded; the second would replace and free the mail announced first.
- The inbox URL requests, polling and settings of mail notification (src/conn-mail-notif.c:80-177, 468-700).
- The chain of caches that `_gabble_connection_get_cached_alias` looks through (src/conn-aliasing.c:899-1034) is a parameter of each event; it always finds an alias.
- The D-Bus interfaces, XML reading and building, JID handling, capabilities, avatars, location, authentication, the roster and the Jingle call channels.
