# A verified model of the WebSocket aggregator

The server collects WebSocket messages from inbound sources (served by workers) and from upstream
servers (served by one reactor), queues them, and forwards them to a single sink. This project models
its three hard parts in Dafny and proves what they promise.

**The stream decoder.** `Assembler` is one pure pass from received bytes to messages, replies and an
optional close (sections 5.2 to 5.5, 7.4 and 8.1 of RFC 6455), over the frame codec of `Frames` and the
UTF-8 automaton of `Utf8` (RFC 3629). `Worker.Conn` and `Reactor.UpstreamClient` are the two imperative
implementations, with buffers, fragment state and pause flags updated in place; both loops are proved to
carry out exactly one pass of the assembler, however the bytes arrive and wherever a full queue stops
them. `Sessions` adds the calls on a connection up to its whole history, `Streams` proves what the assembler
does to whole frame sequences, `Resumption` the loop that resumes paused clients. A `Buf_t` field is its
unread bytes in these classes; `Buffers` proves the growable buffer on an array to be exactly that. `recv`
and `send` follow arbitrary scripts (`Sockets`), so every result holds for every schedule of partial reads
and writes; and every loop over them is proved to go on for as long as its script lets it.

**Backpressure and wake-ups.** `Protocol` is a transition system with any number of listeners, workers and
sources. A step is one operation under a mutex, one system call, or one decision; checking the queue size
and pushing are two steps, and so are enqueuing and writing the eventfd. `Ownership`, `Delivery` and `Flow`
prove invariants of every run; `Schedules` exhibits runs that reach the limits of what is true. `Queues` is
the linked queue itself. `Aggregator.Agg` is the aggregator's pump on the real state (table of sources, frame
slots, park list), and `Pipeline` carries its result to what the sink's own WebSocket stack reads.

**Codecs.** `Frames`, `Base64`, `Sha1`, `Json` and `Http`: each loop against a specification, and the
specifications against their inverses or the standards (RFC 4648, RFC 3174, RFC 8259, RFC 6455 section 4).
`Vectors` works out published examples to the last bit.

`dafny verify dfyconfig.toml` checks the whole project. Some results say how the code is, rather than what one might expect:

- A connection that is resumed before the worker that parked it has removed it from epoll is never armed
  again: `parkListPush` precedes the removal, so the aggregator's registration fails
  (`Ownership.StrandedExactlyWhen` says exactly when, `Schedules.ResumedConnectionCanBeStranded` gives a run).
- The repository's README promises that at most one thread works with a connection at any moment. That is so
  of the workers, and of all threads together but for one case: two threads have a connection, never more,
  exactly when the aggregator is resuming it while the worker that parked it is still about to remove it from
  epoll (`Ownership.ExclusiveOwnership`, `Ownership.SharedExactlyWhen`; `Schedules.TwoThreadsShare` is such a state).
- The data queue can exceed its high mark, by at most one message less than there are pushing threads (workers,
  reactor, aggregator), and in every server with a worker and an upstream client it can (`Flow.QueueBound`,
  `Schedules.QueueBoundIsReached`).
- A source can be left parked while the aggregator sleeps and no thread will wake it, only a clock (the one-second
  timeout of epoll_wait, the tick timer) or the sink itself (`Schedules.ParkedWhileAsleep`): exactly when it is parked after the
  aggregator's last look at the park list (`Flow.LeftBehindExactlyWhen`). If nobody else moves and the sink's
  socket takes bytes, that is enough (`Flow.TimeoutResumes`).
- A PONG for the sink is sent between the two parts of a partly sent data frame (`Pipeline.AnswerAndFlush`). The
  sink still reads the data frame exactly when the PONG, and what it displaces, goes on like the rest of the
  frame, and still reads the PONG behind it exactly when the two are the same in either order
  (`Pipeline.TornExactly`).
- Worker and reactor answer the same CLOSE frame differently unless its body is a single byte or a valid code
  alone (`Streams.WorkerAndReactorAgree`).
- The path of a request is compared with the sink's as a C string, so what stands behind a zero byte in it does not
  count (`Http.UpToNulMeans`).
- The server accepts the client's handshake exactly when the path has 1 to 255 bytes; the client itself sends
  any path that fits in its request buffer (`Http.ServerReadsRequest`).

## Model

| member | source | states |
|---|---|---|
| Frames.ParseHeader | src/ws.c:7-86 | The header parser on any prefix of a stream decides as the next rows say: accepted, refused, or not yet whole. |
| Frames.AcceptedExactly | src/ws.c:7-86 | A header is accepted if and only if the bytes begin with the encoding of one that may be sent. |
| Frames.DecidedWhenComplete | src/ws.c:7-86 | More bytes are asked for only while the header's bytes are not all there; a reserved bit or an opcode that does not exist is refused with the second byte. |
| Frames.LengthsAreMinimal | src/ws.c:34-72 | A length that is not in its shortest form, or takes the 64th bit, is refused with its last byte. |
| Frames.VerdictIsStable | src/ws.c:7-86 | A verdict of accepted or malformed never changes when more bytes arrive. |
| Frames.WriteHeader | src/ws.c:96-123 | The header writer emits, in the caller's array, the minimal-length header of the opcode and length. |
| Frames.ParseEncoded | src/ws.c:7-123 | Parsing an encoded header gives back its fields, for every legal opcode and length below 2^63, whatever follows. |
| Frames.AcceptedIsCanonical | src/ws.c:7-123 | Every accepted header is byte for byte what the encoder emits for its fields. |
| Frames.Unmask | src/ws.c:88-94 | Unmasking in place changes exactly the payload's bytes, into the exclusive or with the repeated key. |
| Frames.MaskTwice | src/ws.c:88-94 | Masking twice with the same key is the identity. |
| Frames.MaskBits | src/ws.c:88-94 | Every bit of every byte is turned over exactly where it is set in the key byte whose index is the byte's modulo four. |
| Frames.MaskedCopy | src/ws_client.c:1097-1150 | The copy the client sends is the masked payload. |
| Frames.FrameRoundTrip | src/ws_client.c:1097-1150 | A frame sent with any key parses and unmasks to the original frame, and what follows it is untouched. |
| Frames.NewFrame | src/agg.c:68-82 | The frame block is header and payload of a final unmasked frame, on the wire. |
| Frames.ExampleFrames | src/ws.c:96-123 | The unmasked text, fragments, PING and PONG of section 5.7 of RFC 6455, byte for byte. |
| Frames.ExampleLengths | src/ws.c:96-123 | Its two longer headers, of 256 bytes and of 64 KiB. |
| Utf8.FeedBytes | src/ws.c:160-199 | The byte loop is the automaton, stopping in the state before the first bad byte. |
| Utf8.FeedChunksIsFeed | src/ws.c:154-204 | Verdict and state do not depend on how the text is cut into chunks. |
| Utf8.AcceptsIffWellFormed | src/ws.c:154-204 | A text is accepted if and only if it is the UTF-8 encoding of some sequence of Unicode scalar values. |
| Utf8.FailsAsEarlyAsPossible | src/ws.c:160-199 | The automaton fails on a prefix exactly when no continuation is well-formed. |
| Utf8.FirstAndLast | src/ws.c:160-199 | The first and last value of each encoded length, and those around the surrogates, byte for byte as in section 3 of RFC 3629. |
| Utf8.JustOutside | src/ws.c:160-199 | The overlong forms, surrogates and too large values next to them are refused whatever follows. |
| Assembler.DecodeConcat | src/ws_client.c:828-1089 | Decoding a concatenation is decoding the parts, with the unread rest carried over. |
| Assembler.PumpIsPartOfDecode | src/ws_client.c:428-461 | A pass stopped by a full queue is a prefix of the whole pass: nothing is skipped, doubled or reordered, and the message in hand is kept. |
| Assembler.SessionIsOnePass | src/ws_client.c:761-827 | For every cutting of the stream into chunks and every schedule of pauses and resumptions, a session is one pass over the bytes it took; the receive cap adds one CLOSE to the pass so far. |
| Assembler.ScheduleIndependence | src/ws_client.c:462-511 | Two sessions that took the same bytes, have nothing left to do and did not reach the receive cap agree on messages, replies, fragment state and unread bytes. |
| Assembler.PublishedIsSound | src/worker.c:255-298 | Every published message is TEXT or BINARY, at most maxMessage long, and well-formed UTF-8 if it is TEXT. |
| Assembler.TextIsRefusedExactlyWhenHopeless | src/ws_client.c:1019-1055 | A text fragment closes the connection with 1007 if and only if the text so far cannot become well-formed, or at its end is not. |
| Assembler.ClosesAtHeader | src/worker.c:179-215 | By the header alone: 1002 for a malformed one or the wrong masking, 1009 for a payload that is too long, otherwise the whole frame is waited for. |
| Assembler.ClosesForFragments | src/worker.c:238-258 | 1002 for a continuation of nothing and for a new message inside another, 1009 for a message beyond the limit. |
| Assembler.AnswersControl | src/worker.c:205-236 | PING is answered with its payload, PONG with nothing; CLOSE with 1000, 1002, 1007 or its own code by the server, as its body is empty, malformed, not text or acceptable, and with its own body by the client. |
| Assembler.OneCloseAndLast | src/worker.c:62-73 | A pass sends at most one CLOSE, exactly when closing starts, and nothing after it. |
| Assembler.SessionClosesOnce | src/ws_client.c:1090-1096 | The same over every session of any chunks, pauses and resumptions, whether or not it reaches the receive cap. |
| Sessions.PushIsRelease | src/agg.c:302-312 | Handing a paused connection's waiting message to the queue is the release of its session. |
| Sessions.CallsAreSession | src/ws_client.c:462-827 | Any sequence of reads and resumptions of one connection since it opened, with bytes behind its handshake or without, and with other threads at the queue in between, carries out one session: the same state, bytes, messages pushed and replies. |
| Sessions.HistoryIsOnePass | src/worker.c:173-310 | Over every such history, the messages of one pass over all bytes of the connection, those behind its handshake first, are those pushed, the waiting one and those still to come from the buffer, and so for the replies; at the receive cap this holds of what came before. |
| Sessions.HistoriesAgree | src/ws_client.c:761-827 | Two histories over the same bytes that have nothing left to do have pushed the same messages and sent the same replies, whatever came behind the handshake, and whatever their reads, pauses and queues. |
| Sessions.HistoryClosesOnce | src/worker.c:62-73 | Over every history, at the receive cap too, one CLOSE is sent at most, exactly when closing starts, and no reply after it. |
| Streams.DecodeOnWire | src/worker.c:179-298 | Decoding the wire form of a frame sequence, under any masking keys, is assembling the frames. |
| Streams.WorkerAndReactorAgree | src/ws_client.c:828-1089 | On the same frames, worker and reactor go through the same states and publish the same messages; their replies and close codes are the same too if and only if no CLOSE frame ends the connection, or its body is one byte or just a valid code. |
| Streams.FragmentationIsUndone | src/worker.c:225-298 | Any fragmentation of any messages, with control frames in between, is reassembled to the messages, and every PING is answered in order. |
| Streams.AcceptsExactlyFragmentations | src/worker.c:225-298 | A frame sequence is accepted to its end if and only if it is such a fragmentation of acceptable messages. |
| Messages.ReplyIsFrame | src/ws_client.c:1097-1157 | The bytes queued for a reply are the wire form of its PONG or CLOSE frame, so a peer decodes them to it. |
| Messages.ReplyBytes | src/ws_client.c:1097-1157 | Reply bytes one by one: 0x8A or 0x88, length and mask bit, key, masked payload. |
| Messages.OneEvent | src/worker.c:225-298 | Each event of a pass is one message for the queue, or the one reply that is sent. |
| Buffers.Buf.Compact | src/conn.c:15-25 | Compaction keeps the unread view. |
| Buffers.Buf.Reserve | src/conn.c:27-57 | Reserving keeps the view, fails exactly when the hard cap leaves no room, and never grows past the larger of the old capacity and the cap. |
| Buffers.Buf.Consume | src/conn.c:59-65 | Consuming drops from the front of the view, all of it if there is less. |
| Buffers.Buf.Append | src/conn.c:67-76 | Appending is concatenation on the view. |
| Buffers.BufRecv | src/conn.c:91-111 | Whatever the socket delivers in whatever pieces is appended once and in order, all of it up to the end of the stream or to where the socket has no more, unless the cap is reached; 1 and 0 if and only if the stream goes on, 2 and -1 if it has ended, 1 and 2 if something was read. |
| Buffers.BufSend | src/conn.c:113-126 | Bytes leave from the front in order, exactly as many as the socket takes; 1, 0 or -1 for all sent, full or broken. |
| Sockets.SendAllMeans | src/conn.c:113-126 | A send loop sends exactly what the socket takes before its first obstacle, and ends for that obstacle's reason. |
| Queues.Queue.Push | src/queue.c:78-109 | The linked list gains the item at its end, and an enabled eventfd one count. |
| Queues.Queue.TryPop | src/queue.c:139-184 | The oldest item leaves, or the queue is empty and stays so. |
| Queues.Queue.Pop | src/queue.c:151-169 | Past its wait, pop fails exactly when the queue is empty, and then only after shutdown. |
| Queues.Queue.Shutdown | src/queue.c:111-126 | Shutdown keeps the contents and notifies. |
| Reactor.ReconnectDelay | src/ws_client.c:256-269 | The loop computes the delay of the next row for any number of attempts. |
| Reactor.DelayDoubles | src/ws_client.c:256-269 | The delay is one second at first, doubles with each attempt, and stops at thirty. |
| Reactor.UpstreamClient.UpdateEvents | src/ws_client.c:407-427 | Read interest while unpaused in handshake or open, write interest while connecting or with bytes queued. |
| Reactor.UpstreamClient.Upgrade | src/ws_client.c:1252-1275 | The handshake ends with the client open, between messages, read again, and with what came behind the header in its buffer. |
| Reactor.UpstreamClient.QueueMaskedFrame | src/ws_client.c:1097-1157 | A masked control frame behind what tx holds, whatever the random key. |
| Reactor.UpstreamClient.PublishMessage | src/ws_client.c:428-461 | The message goes to the queue, or on a full queue becomes the pending message and pauses reading; paused if and only if a message is pending. |
| Reactor.UpstreamClient.ProcessBufferedFrames | src/ws_client.c:828-1089 | The frame loop is one pass of the assembler over rx: state, unread bytes, queue, pending message and reply bytes; and the epoll interest it leaves fits them. |
| Reactor.UpstreamClient.ReadUpstreamFrames | src/ws_client.c:761-827 | The receive loop, over every script of the socket, is a sequence of passes in the client's session over exactly the bytes it took; 0 with everything that came read and parsed, -1 if and only if the stream has ended, or the client is closing, or paused on a full queue. |
| Reactor.UpstreamClient.FlushUpstreamTx | src/ws_client.c:1277-1307 | Bytes leave tx in order, exactly as many as the socket takes; -1 if and only if it broke, otherwise the write interest says whether bytes are left. |
| Reactor.UpstreamClient.Disconnect | src/ws_client.c:270-303 | Disconnecting drops all buffered state and the pending message, and sets the time of the next attempt by the delay of the attempts so far. |
| Resumption.ResumeClient | src/ws_client.c:480-505 | The pending message goes first, with its time, then one pass over the buffered bytes with the room that is left, replies included; the queue stays within its mark, and the client is read again unless it is paused again, at the mark, else has no complete frame left. |
| Resumption.ResumedIsEnacted | src/ws_client.c:480-505 | A resumed client has gone on with its session: a release, and a pass with exactly the room left behind its own message and the clients before it. |
| Resumption.ResumePausedClients | src/ws_client.c:462-511 | Past the low-mark test, the queue grows by the resumed clients' parts in order and never past the high mark, any client still paused on return means the queue is at the mark, and every other is read again. |
| Worker.Conn.NextFrame | src/worker.c:179-215 | A complete frame is unmasked where it lies in rx, and nothing behind it changes. |
| Worker.Conn.SendCloseAndMark | src/worker.c:62-73 | A CLOSE frame is queued the first time only. |
| Worker.Conn.PublishMessage | src/worker.c:279-298 | The message goes to the queue, or on a full queue the connection is parked with it. |
| Worker.Conn.ParseFrames | src/worker.c:179-298 | The frame loop is one pass of the assembler, although it unmasks in place: a frame is consumed, or the connection is closing and its bytes are not looked at again. |
| Worker.Conn.FlushTx | src/worker.c:75-87 | Bytes leave tx in order, exactly as many as the socket takes: read again if and only if all are sent and the connection is not closing, waiting for the socket if and only if some are left and it is full, closed if and only if it broke before all were sent, or all are sent and the connection is closing. |
| Worker.Conn.HandleWsOpen | src/worker.c:173-310 | A readable event: one act of the connection's session (a pass over old and new bytes, or the 1009 close at the receive cap, or nothing once closing), every reply byte sent or still queued in order, as many as the socket takes; parked only on a full queue, otherwise read again only with nothing left to send, waiting for the socket only with something left, and closed only when the peer or the socket is gone or the last byte of a CLOSE is sent. |
| Ownership.StepOwned | src/worker.c:34-60 | Every step keeps: a live connection has exactly one holder, a dead or stranded one none. |
| Ownership.ExclusiveOwnership | src/worker.c:285-296 | In every reachable state no two workers have the same connection, up to the last step of parking it or handing it over; one that a worker has is nowhere else, except that one it has parked and not yet removed from epoll is in the park list, being resumed, or lost; and no connection is in two queues or lists. |
| Ownership.SharedExactlyWhen | src/agg.c:302-312 | In every reachable state at most two threads have a connection, and two if and only if the aggregator is resuming it while a worker that parked it has not removed it from epoll. |
| Ownership.LateRemovalIsSafe | src/worker.c:293-294 | When a worker removes a connection it has parked from epoll, the connection is still registered, not armed and not closed. |
| Ownership.StrandedExactlyWhen | src/agg.c:302-312 | A live connection is lost without being closed if and only if it is resumed while the worker that parked it has not removed it from epoll yet. |
| Ownership.StrandedIsForGood | src/agg.c:302-312 | A stranded connection is with nobody and never armed. |
| Delivery.StepTracked | src/worker.c:279-298 | Every step keeps: each source's messages stand in assembly order along done, slot, queue, hand and pending, and each handler's message has one keeper. |
| Delivery.PoppedInOrder | src/agg.c:424-462 | In every reachable state each source's messages were popped in the order it assembled them, without a gap for inbound connections. |
| Delivery.EveryMessageInOnePlace | src/ws_client.c:428-511 | In every reachable state each assembled message is in exactly one place (finished counts as one, delivered or lost with its sink), no other message exists, and an inbound connection has dropped none. |
| Delivery.DeliveredExactlyWhenFlushed | src/agg.c:267-345 | A step finishes at most the message in the slot: as delivered if and only if the slot was sent whole, otherwise as lost when the sink breaks, closes or is replaced; and nothing else empties the slot. |
| Delivery.OnlyDisconnectDrops | src/ws_client.c:285-288 | No step drops a message of a source but its own disconnect, which drops the pending one: backpressure alone drops none. |
| Delivery.HandlersNeverStick | src/agg.c:302-312 | Whatever a thread has in hand it can do: its message, its connection and its registration are there. |
| Delivery.SlotNeverOverwritten | src/agg.c:436-461 | A message is popped only into an empty frame slot. |
| Flow.QueueBound | src/worker.c:285-298 | With any number of threads checking and then pushing, the data queue never exceeds highWatermark - 1 plus the number of pushing threads. |
| Flow.PausesOnlyWhenFull | src/worker.c:285-298 | A source's message is put up for pushing only below the high mark and kept waiting only at it, and each message made is one or the other. |
| Flow.LinesAreFifo | src/queue.c:78-184 | In every step the data queue, the work queue, the control queue and the park list stay, grow by one at the end or lose their first. |
| Flow.ResumesAtLowMark | src/agg.c:441-446 | Sources are resumed from the front of the park list, and only when the queue was at or below the low mark. |
| Flow.NoLostWakeup | src/queue.c:90-106 | An aggregator asleep with a sink and a message has been notified, is about to be, or waits for the sink to take the rest of a frame. |
| Flow.LeftBehindExactlyWhen | src/worker.c:285-296 | A step leaves a source parked with no thread to wake the aggregator if and only if, with everything drained, a worker parks it while the aggregator sleeps or the aggregator goes to sleep after its last look at the park list. |
| Flow.TimeoutResumes | src/agg.c:424-462 | From any reachable sleep with a sink, a parked source and a drained queue, every run of the aggregator alone on a working socket resumes the source that has waited longest, within six steps and one more for each waiting sink. |
| Schedules.QueueBoundIsReached | src/agg.c:441-444 | For every pair of marks and every number of workers, a run in which the queue holds exactly the bound. |
| Schedules.ParkedWhileAsleep | src/worker.c:285-296 | A run that leaves a source parked while the aggregator sleeps with an empty queue and slot, not armed for output, with no control message and no notification to come. |
| Schedules.TwoThreadsShare | src/worker.c:293-294 | A run in which a worker and the aggregator have the same connection. |
| Schedules.ResumedConnectionCanBeStranded | src/worker.c:293-294 | A run that leaves a resumed connection open, unregistered and with nobody. |
| Aggregator.Agg.FindOrCreateSrc | src/agg.c:131-146 | The entry of a source, made at the end of the table while there is room. |
| Aggregator.TableIsAccurate | src/agg.c:131-155 | After any history each entry counts exactly its source's messages and bytes, no source has two, and a source has none only when 256 others have. |
| Aggregator.NumbersCountUp | src/agg.c:205-242 | A source's messages are numbered 1, 2, 3, ... while it has an entry, and 0 otherwise. |
| Aggregator.Agg.OnMessage | src/agg.c:205-242 | A message becomes a binary frame as it is, or a text frame around its JSON object, with the next number of its source and its own time. |
| Aggregator.SinkFlushOne | src/agg.c:314-334 | Under any partial sends the socket accepts exactly what the slot loses, as much as it takes; 1, 0 or -1 for all sent, full or broken, and the slot is emptied only when all is sent. |
| Aggregator.Agg.SinkFlush | src/agg.c:336-345 | Control slot, then data slot, which waits for it; the result code is the socket's reason, and without a control frame every byte stays in step with the frames made. |
| Aggregator.Agg.CloseSink | src/agg.c:267-283 | The sink and both slots are given up together. |
| Aggregator.Agg.AdoptSink | src/agg.c:285-300 | The old sink gets as much of a CLOSE frame with code 1001 as its socket takes and is closed; the new one starts in step. |
| Aggregator.Agg.AnswerPing | src/agg.c:389-394 | A PING is answered with its payload unless an answer is already waiting. |
| Aggregator.Agg.ResumeParked | src/agg.c:302-312 | The parked message goes to the back of the queue and the source is read again, for writing too if replies are queued. |
| Aggregator.Agg.Pump | src/agg.c:424-462 | The pump terminates; messages move from the front of the queue to the sink and, only at or below the low mark, from the longest-parked sources to its back, with none lost, doubled or overtaken; the sink's bytes are always a prefix of the frames in pop order; it gives up only on a broken or a full socket, and otherwise leaves no message, no source parked and nothing unsent. |
| Pipeline.ParcelsAreNumbered | src/agg.c:205-242 | The i-th output carries the i-th message, its time, and one more than the number of earlier messages of its source, or 0 when its source came to a full table. |
| Pipeline.SinkReadsAll | src/agg.c:314-345 | Decoding the completed stream gives exactly one message for each sent, in order, and no byte is left over. |
| Pipeline.DeliveredIsSent | src/agg.c:221-232 | From each decoded message the original payload, source, number and time are recovered. |
| Pipeline.SinkHasEverything | src/agg.c:424-462 | With the slot empty, the sink's bytes since its adoption decode to everything taken from the queue since then. |
| Pipeline.AnswerAndFlush | src/agg.c:336-394 | Answering a PING while a data frame is partly out, and flushing, sends the PONG between the two parts. |
| Pipeline.TornExactly | src/agg.c:336-345 | Of a data frame and a PONG sent after a part of it, the sink reads the frame if and only if the rest of it is a prefix of the PONG followed by that rest, and both if and only if the two are the same in either order; a frame not begun comes whole behind the PONG. |
| Json.JsonEscapeInto | src/agg.c:157-203 | The escape loop writes the escape of the longest prefix that fits, never a part of an escape, and nothing outside its range. |
| Json.RoomForAll | src/agg.c:221-230 | With six bytes of room for each byte of the payload nothing is truncated. |
| Json.EscapeTable | src/agg.c:157-203 | Quote, backslash, newline, return and tab have their short escapes, the other control bytes the long one in small letters, and nothing else is escaped. |
| Json.EscapeLength | src/agg.c:157-203 | The output is at most six times as long as the input. |
| Json.EscapedIsQuiet | src/agg.c:157-203 | The output holds no control byte, and no quote without a backslash before it. |
| Json.ReadEscaped | src/agg.c:157-203 | A reader of JSON strings gets the payload back and stops exactly behind the closing quote, for every payload and whatever follows. |
| Json.PrintInto | src/agg.c:221-232 | The buffer that is picked always suffices, and holds the whole object. |
| Json.PrintedForm | src/agg.c:221-232 | The members are src, seq, t and data, in this order, the time in seconds and six digits of microseconds. |
| Json.ReadPrinted | src/agg.c:221-232 | Reading the printed object gives back source, number, time and payload. |
| Json.PrintedIsUtf8 | src/agg.c:221-232 | The object is UTF-8 whenever the payload is. |
| Base64.EncodeInto | src/base64.c:20-50 | The encoding and a terminating NUL are written at the front of the output, and nothing else changes. |
| Base64.Alphabet | src/base64.c:5-19 | The letters are those of table 1 of RFC 4648. |
| Base64.EncodedAt | src/base64.c:20-50 | Wherever they stand, three bytes are the four letters of their 24 bits. |
| Base64.EncodedEnd | src/base64.c:20-50 | Two bytes at the end are three letters and a padding. |
| Base64.ValidForm | src/base64.c:52-79 | What is accepted: groups of four letters, where only the last letter of all, or the last two, may be padding. |
| Base64.GroupBits | src/base64.c:83-106 | Four letters decode to the three bytes of their 24 bits, and padded groups to the first of them. |
| Base64.CheckedLen | src/base64.c:52-79 | The length check accepts exactly whole groups of letters with at most two paddings at the end, and computes the decoded length. |
| Base64.DecodeInto | src/base64.c:83-106 | Malformed text is refused and writes nothing; otherwise the decoded bytes are written and counted. |
| Base64.DecodedLenIsLength | src/base64.c:52-106 | The length computed beforehand is the length of what decoding yields, and exists exactly when the text decodes. |
| Base64.RoundTrip | src/base64.c:20-106 | Decoding an encoding gives back the bytes, for every byte sequence. |
| Sha1.HashBlock | src/sha1.c:17-58 | The schedule and the eighty rounds on mutable words are the block function, which the digests below pin. |
| Sha1.Hasher.Update | src/sha1.c:60-87 | After any update the state stands for everything fed so far: the fold over its whole blocks and the rest in the buffer. |
| Sha1.Hasher.Final | src/sha1.c:89-117 | The result is the fold over the padded message, for every message under 2^61 bytes. |
| Sha1.HashChunks | src/sha1.c:60-117 | The digest does not depend on how the message is cut up. |
| Vectors.AbcDigest | src/sha1.c:5-124 | The digest of "abc" is that of section 7.3 of RFC 3174. |
| Vectors.SampleAccept | src/ws.c:125-150 | The accept key of the sample handshake of section 1.3 of RFC 6455, through two blocks of SHA-1 and base64, is the one printed there. |
| Http.FindHeaderEnd | src/http.c:18-28 | The first empty line, or none where there is none. |
| Http.CaseOnly | src/http.c:48-49 | Names are compared with capitals and small letters alike and otherwise exactly. |
| Http.FindValue | src/http.c:30-68 | The trimmed value of the first header line with the name, case ignored, before the first empty line. |
| Http.TakesToken | src/http.c:70-86 | Whether a comma-separated list has the token as an item, case and surrounding spaces ignored. |
| Http.TokenIsItem | src/http.c:70-86 | The scan for a token finds it if and only if it is one of the items between commas, trimmed. |
| Http.ComputeAccept | src/ws.c:125-142 | Refused unless the key has 24 letters and decodes to 16 bytes; otherwise the accept key of section 4.2.2 of RFC 6455. |
| Http.ParseRequest | src/http.c:88-134 | The server's parser decides as the next three rows say, whatever bytes it is given. |
| Http.RequestIsJudged | src/http.c:88-134 | A request with any header lines, in any order, case and spacing: accepted if and only if the path has 1 to 255 bytes, Upgrade lists websocket, Connection lists Upgrade, the version is 13 and the key has 24 letters for 16 bytes; and otherwise exactly which of the three refusals. |
| Http.JudgedMeans | src/http.c:88-134 | That verdict clause by clause: accepted, not an upgrade, another version, or a bad request, each if and only if. |
| Http.NeedsRequestLine | src/http.c:88-104 | Anything that is not refused as a bad request begins with GET, a path of 1 to 255 bytes and a space. |
| Http.HandshakeRead | src/worker.c:92-145 | What becomes of a connection in its handshake is as the next two rows say. |
| Http.GreetsNone | src/worker.c:94-111 | Without a whole request: closed if the peer has closed, refused with 431 at the cap, read on otherwise. |
| Http.GreetsByFields | src/worker.c:113-145 | With a whole request, by its fields: the upgrade, and then open unless the peer has closed and the sink on the sink's path, or 426, or 400, and closed; the bytes behind it are kept. |
| Http.RefusalTexts | src/http.c:146-156 | The three refusals line by line. |
| Http.ResponseText | src/http.c:135-144 | The answer that accepts, line by line. |
| Http.RequestText | src/ws_client.c:594-610 | The client's request, line by line. |
| Http.QueueHandshake | src/ws_client.c:579-619 | The client's request and the accept key it will expect, unless the request does not fit. |
| Http.ProcessResponse | src/ws_client.c:1190-1276 | The client's check of the answer on any bytes received so far. |
| Http.ResponseIsJudged | src/ws_client.c:1190-1276 | A response with any header lines is accepted if and only if its status begins with "HTTP/1.1 101", Upgrade and Connection say so and the accept key is the expected one; otherwise it is refused. |
| Http.HeadEnds | src/http.c:18-28 | The end of a printed header block is found at its end, whatever follows. |
| Http.ServerReadsRequest | src/http.c:88-134 | For every nonce, path and host without CR or space in the path, the server accepts the client's request exactly when the path has 1 to 255 bytes, with the same path and the expected accept key. |
| Http.ClientReadsResponse | src/ws_client.c:1190-1276 | The client accepts the server's answer and keeps exactly the bytes behind it. |
| Http.UpgradeCompletes | src/worker.c:92-145 | The two handshakes complete each other: a client whose request bufRecv reads within its cap (beyond it the answer is 431) is answered with an upgrade, stays open unless it has closed already, is then the sink exactly on the sink's path, and opens; both keep what came early. |
| Http.HandshakesComeInParts | src/worker.c:108-111 | On any part of the request the server reads on, and on any part of the response the client does, up to its cap. |

## Left out

- Sockets, DNS, connecting, clocks, random bytes, epoll, eventfd and timerfd themselves: arbitrary scripts, parameters or nondeterministic steps. Allocation failures, and failures of `epoll_ctl` other than adding what is registered.
- The per-thread client that `main` does not start (src/ws_client.c:1308-2048), the logger, option parsing, statistics, benchmarks and the Python, HTML and report files.
- Shutdown: `aggDrainForShutdown`, `upstreamDestroy`, freeing queues.
- The doubly linked registry of connections and the connection's resources (src/conn.c:128-222): a connection exists for as long as the model mentions it.
- The sink's receive loop (src/agg.c:356-407) except its answer to PING. `Protocol` has no PING slot.
- Whole-frame output for a sink that sends PING or is replaced: `Pump` and `Pipeline.SinkReadsAll` make the claim for a sink without PING, and `Pipeline.TornExactly` says when a PING makes it false.
- Liveness of resumed inbound sources: bytes left in rx are not parsed on resumption (src/agg.c:302-312). Safety, order and conservation are proved.
- Reconnection after a failed registration (src/ws_client.c:372-385) and the TCP connect steps.
- Encoding after decoding base64: non-zero trailing bits are accepted, so only decoding after encoding is the identity. Cryptographic strength of SHA-1.
- Surrogate pairs in the JSON reader: the printer never writes them.
- The alive flag and the last timestamp of the aggregator's table (src/agg.c:148-155), which only statistics read.
- Worker.Conn.HandleWsOpen: the result at the receive cap depends on burst size, because bufRecv reports it after appending; the contract takes that result as given, and chunk independence is claimed only without it.
- Sessions.HistoryIsOnePass: within one call the data queue belongs to the call; how the threads' pushes interleave is the business of `Protocol`.
- Aggregator.Agg.Pump: its queue is the sequence of items, not the linked list; Queues.Queue proves that list to be such a sequence. The park list is a sequence too, although agg.c threads it through the connections.
- Protocol: the reactor may resume a client whenever the queue has room, without the low-mark test, and a step of the model may do what the code would not do yet; every run of the code is among its runs.
