# Verification of the WebSocket, chat and thread-pool servers

This project models the message-handling core of the servers in this repository and proves what
they are for: that a WebSocket byte stream is put back together into the frames that were sent,
that every chat client is told the same story, that a worker pool can be shut down, and that a task
queue loses nothing.

| file | models |
|---|---|
| `Octets.dfy` | octets, base-256 numbers, 64-bit words built by shift and or |
| `Frame.dfy`, `FrameLaws.dfy` | the frame codec (`cool_server/frame.cpp`) and its laws |
| `Stream.dfy` | reassembly of a byte stream by `processData`, as a function of the bytes |
| `Connection.dfy`, `ConnectionLaws.dfy`, `ConnectionEvents.dfy` | `WebSocketConnection`: its operations, every run of them, and what each event writes and closes |
| `Handler.dfy`, `Handshake.dfy` | the one-shot decoder and the handshake scan (`cool_server/handler.cpp`) |
| `Chat.dfy`, `ChatLog.dfy`, `ChatLaws.dfy`, `ChatRuns.dfy`, `ChatSpeech.dfy` | the chat server: registry, global log, invariants, every interleaving, and what clients are told word for word |
| `Iocp.dfy` | the worker pool, its callbacks and its shutdown (`cool_server/iocp_core.cpp`) |
| `TaskQueue.dfy`, `TaskRuns.dfy` | `ThreadSafeQueue`, its producers, its worker and the closing thread (`acos3/`), and what becomes of each message |
| `Echo.dfy`, `EchoRuns.dfy` | the IOCP echo server (`tests/IOCP_echo/`), what comes back and when a connection is deleted |

`dafny verify dfyconfig.toml` checks everything.

How the model is built:

- Code that updates state in place is a class or a method with loops, proved equal to a function of
  the old state; the laws are lemmas about those functions. The codec's methods use the shifts and
  masks of the source and are proved against arithmetic on base-256 numbers.
- Concurrency is a state machine: each step is one critical section or one call into the system, and
  every claim about a run is about every interleaving of such steps.
- The system's answers (how many octets a read returns, whether a send or a receive is accepted, when
  a completion arrives, what the mask generator draws) are parameters, and so is what the application
  does, from outside and from its message callback. They are unconstrained except that a completion
  arrives only for an operation that is outstanding and carries at most what was asked for, and that a
  new socket is not one still open.
- Heap objects are numbered in allocation order, so that a reused address counts as a new object.

What the proofs found in the code, each stated as a lemma:

- `createFrame` does not check the 16 MiB limit that `parseHeader` enforces, so a frame round trip
  succeeds exactly for payloads within the limit (`FrameLaws.HeaderRoundTrip`, `Stream.EndToEnd`).
- `headerSize` recomputes the header length from the payload length. It is right exactly when the
  sender used the shortest length encoding; otherwise the frame is cut in the wrong place
  (`FrameLaws.HeaderSizeExact`, `Stream.CutIsWireFrame`, `FrameLaws.NonMinimalIsMisread`).
- `close` raises `is_closed_` before it calls `asyncWrite`, so the Close frame it builds is never
  written (`Connection.WebSocketConnection.Close`).
- A write buffer is never deleted exactly if its send is outstanding when the connection closes
  (`ConnectionLaws.BuffersLost`, with the run `ConnectionLaws.BufferCanBeLost`).
- The loop of `processData` does not test `is_closed_`. A frame is dispatched, and a message handed to
  the callback, after the connection has closed exactly if an earlier frame of the same read shuts the
  connection: a Close, a Ping whose Pong is refused, or a message whose callback throws, closes or has
  a send refused (`ConnectionLaws.DispatchedAfterClosing`, with the run
  `ConnectionLaws.TextAfterClose`).
- The echo callback of `cool_server/server.cpp` can send a text the peer's decoder throws on: exactly
  when the message is over the limit with its prefix (`ConnectionLaws.MessageIsEchoed`).
- The one-shot decoder closes the connection on continuation and reserved opcodes, which the
  streaming one ignores; the two agree on all others (`Handler.OneShotAgrees`).
- `ThreadSafeQueue::stop` notifies without holding the lock. The worker misses it exactly when the
  notification falls between its evaluation of the wait predicate and its wait. It then sleeps, and
  `closeServer` waits for it, until a client speaks or the system wakes it by chance
  (`TaskQueue.StopSeenExactly`, `TaskQueue.StopCanBeLost`).

## Model

| member | source | states |
|---|---|---|
| Octets.DigitsInverse | cool_server/frame.cpp:90-98 | the digits the length encoder writes, read back in base 256, are the number, for every number that fits |
| Octets.OctetsOfWord | cool_server/frame.cpp:28-36 | a word built by shift-and-or from eight octets has exactly those octets: no bit is lost or lands on another |
| Octets.OctetsByShift | cool_server/frame.cpp:96-98 | the octet reached by one shift of `8 * i` is the one reached by shifting an octet at a time |
| Octets.NumberIsValue | cool_server/frame.cpp:28-36 | the octets of a 64-bit word, read in base 256, are its unsigned value |
| Frame.ReadLength16 | cool_server/frame.cpp:21-25 | the 16-bit shift-and-or expression is the base-256 value of the two octets |
| Frame.ReadLength64 | cool_server/frame.cpp:26-38 | the 64-bit shift-and-or expression is the base-256 value of the eight octets |
| Frame.ParseHeader | cool_server/frame.cpp:7-60 | the bit-level parser waits, throws or accepts exactly as the arithmetic reading of the header says, with the oversize test before the mask key |
| Octets.SizeValue | cool_server/frame.cpp:86-98 | the 64-bit word the size is held in has the size as its value |
| Octets.WordDigits | cool_server/frame.cpp:94-98 | the octets of any 64-bit word are the base-256 digits of its value |
| Frame.TwoDigits | cool_server/frame.cpp:89-93 | the two octets written for a 16-bit length are its two base-256 digits |
| Frame.EightDigits | cool_server/frame.cpp:94-98 | the descending shift loop writes the eight base-256 digits of the value of any 64-bit size |
| Frame.LengthBytes | cool_server/frame.cpp:85-99 | the three length encodings of the writer |
| Frame.MaskCopy | cool_server/frame.cpp:113-116 | the masking loops of the writer and of `decodePayload` compute octet i XOR the key shifted right by 8 * (3 - i mod 4) bits |
| Frame.ApplyMask | cool_server/frame.cpp:142-146 | the in-place loop computes, octet by octet, the same on the first `len` octets and leaves the rest alone |
| Frame.CreateFrame | cool_server/frame.cpp:76-124 | refuses invalid opcodes; otherwise writes final bit and opcode, length, key and masked payload |
| Frame.DecodePayload | cool_server/frame.cpp:126-140 | throws exactly on a length mismatch, otherwise unmasks |
| Frame.MaskTwice | cool_server/frame.cpp:126-140 | masking twice with one key is the identity, for every length |
| Frame.KeyRoundTrip | cool_server/frame.cpp:49-57 | the key octets written are the ones read back as the same key |
| FrameLaws.HeaderRoundTrip | cool_server/frame.cpp:7-124 | `parseHeader` on a created frame followed by anything returns the header asked for exactly when the payload is within 16 MiB, and throws otherwise |
| FrameLaws.PayloadRoundTrip | cool_server/frame.cpp:62-140 | `decodePayload` on the slice at `headerSize` returns the original payload and the slice ends where the frame ends |
| FrameLaws.HeaderStable | cool_server/frame.cpp:7-60 | once `parseHeader` accepts or throws on a prefix it does the same on every extension |
| FrameLaws.HeaderSizeExact | cool_server/frame.cpp:20-74 | `headerSize` never exceeds the header `parseHeader` read and equals it exactly for minimal length encodings |
| FrameLaws.NonMinimalIsMisread | cool_server/frame.cpp:62-74 | a concrete non-minimal frame whose payload is cut in the wrong place |
| FrameLaws.HeaderOnWire | cool_server/frame.cpp:13-38 | what an accepted header says is what its bits on the wire mean: final bit, opcode, mask bit and the three length encodings |
| FrameLaws.HeaderVerdict | cool_server/frame.cpp:7-60 | `parseHeader` waits and throws exactly when the octets there are too few, or announce more than 16 MiB, the latter without waiting for the key |
| FrameLaws.DecodedOnWire | cool_server/frame.cpp:126-140 | octet i of a decoded message is octet i of the payload on the wire XOR octet (i mod 4) of the four key octets that end the header |
| FrameLaws.FrameOnWire | cool_server/frame.cpp:76-124 | the written frame ends with the payload, XORed octet by octet with the four octets of the mask before it |
| Stream.CutIsWireFrame | cool_server/websocket_connection.cpp:84-97 | `processData` cuts off the frame of RFC 6455 exactly when its length encoding is minimal, and less than it otherwise |
| Stream.DrainAppend | cool_server/websocket_connection.cpp:73-102 | draining a buffer and then the remainder with more octets is draining everything at once |
| Stream.ChunkIndependence | cool_server/websocket_connection.cpp:73-102 | any chunking dispatches the same frames and leaves the same remainder, or dispatches the same frames and then throws |
| Stream.TwoChunkings | cool_server/websocket_connection.cpp:73-102 | two chunkings of one stream cannot be told apart |
| Stream.Residue | cool_server/websocket_connection.cpp:80-89 | after a normal return the buffer holds no complete frame, is shorter than 14 octets plus 16 MiB, and the size noted for the next read is that of the payload whose header is there |
| Stream.Conservation | cool_server/websocket_connection.cpp:91-100 | the erased frames followed by the remainder are the buffer; each payload is the end of its frame and has the announced length |
| Stream.DrainWire | cool_server/websocket_connection.cpp:73-102 | a stream of written frames followed by anything drains to those messages and then the tail, or to those before the first oversize one and the exception |
| Stream.DrainPrefix | cool_server/websocket_connection.cpp:73-102 | when a stream of written frames has only come in up to some octet, exactly the messages there in full have been dispatched, up to the first oversize one |
| Stream.EndToEnd | cool_server/websocket_connection.cpp:73-102 | messages written by `createFrame`, cut into chunks anywhere, come out of `processData` as exactly those messages in order with an empty buffer, and the exception comes exactly when one is over the limit |
| Connection.WebSocketConnection.AsyncRead | cool_server/websocket_connection.cpp:18-42 | posts one read of the computed size unless closed; a refused read closes |
| Connection.WebSocketConnection.Close | cool_server/websocket_connection.cpp:147-175 | closes once, invalidates the socket and runs the close callback if there is one; the Close frame it builds and passes to `asyncWrite` is not written |
| Connection.WebSocketConnection.AsyncWrite | cool_server/websocket_connection.cpp:177-202 | allocates and posts a buffer unless closed; a refused send frees it and closes |
| Connection.WebSocketConnection.HandleFrame | cool_server/websocket_connection.cpp:104-128 | what handling one frame does to the connection, by opcode, including what the message callback asks of the connection and that a throwing one closes it |
| Connection.WebSocketConnection.Callback | cool_server/websocket_connection.cpp:109-115 | what a message callback that sends or closes does to its own connection, call by call |
| Connection.WebSocketConnection.ProcessData | cool_server/websocket_connection.cpp:73-102 | the interleaved parse, check, slice, erase and dispatch loop handles exactly the frames of the drained buffer in order, whatever handling them does, and terminates |
| Connection.WebSocketConnection.HandleIOCompletion | cool_server/websocket_connection.cpp:44-71 | what a read or write completion does, open or closed |
| Connection.WebSocketConnection.Send | cool_server/websocket_connection.cpp:130-145 | wraps a message in one unmasked frame and writes it |
| ConnectionLaws.ClosedKeeps | cool_server/websocket_connection.cpp:147-175 | closing keeps the invariant and is final |
| ConnectionLaws.WrittenKeeps | cool_server/websocket_connection.cpp:177-202 | writing keeps the buffer ledger, including the refused send |
| ConnectionLaws.HandledAllKeeps | cool_server/websocket_connection.cpp:104-128 | handling any frames dispatches all of them in order and delivers their text and binary messages |
| ConnectionLaws.RequestSizeBounds | cool_server/websocket_connection.cpp:24-30 | a read asks for 8 KiB to 16 MiB, and within that for the whole awaited frame |
| ConnectionLaws.StepKeeps | cool_server/websocket_connection.cpp:18-202 | every operation and completion keeps the invariant |
| ConnectionLaws.EveryRunIsSafe | cool_server/websocket_connection.cpp:7-202 | over every run: closed exactly when the socket is invalid, at most one close callback, exactly one read outstanding while open and for the size of the awaited frame, write buffers freed at most once and live exactly while pending, and the frames dispatched are those of the whole stream received |
| ConnectionLaws.CloseIsFinal | cool_server/websocket_connection.cpp:44-71 | after the event that closes the connection, over every run, no read or write starts, no callback runs, nothing is dispatched and no buffer is freed |
| ConnectionLaws.BuffersLost | cool_server/websocket_connection.cpp:44-53 | whichever event closes the connection and whatever follows, the write buffers never deleted are exactly those whose send was outstanding when it was over |
| ConnectionLaws.BufferCanBeLost | cool_server/websocket_connection.cpp:44-53 | a concrete run that loses one |
| ConnectionLaws.CallsShut | cool_server/websocket_connection.cpp:130-202 | calls made one after another on an open connection leave it closed exactly if one of them closes or is a refused send |
| ConnectionLaws.FramesShut | cool_server/websocket_connection.cpp:104-128 | handling frames leaves an open connection closed exactly if one of them is a Close, a Ping whose Pong is refused, or a message whose callback throws, closes or has a send refused |
| ConnectionLaws.DispatchedAfterClosing | cool_server/websocket_connection.cpp:73-102 | a read dispatches and delivers all its frames; a frame is dispatched after closing exactly if an earlier one shuts the connection, and some frame is exactly if one but the last does |
| ConnectionLaws.ClosingRead | cool_server/websocket_connection.cpp:60-70 | a read closes the connection exactly if one of its frames shuts it, `parseHeader` throws or the next read is refused, and nothing is dispatched or delivered after that read |
| ConnectionLaws.TextAfterClose | cool_server/websocket_connection.cpp:77-101 | a concrete run: a Close and a text frame in one read, and the text is delivered after closing |
| ConnectionEvents.WriteCompletion | cool_server/websocket_connection.cpp:44-58 | a write completion frees its buffer, closes an open connection exactly if it carries no octets, and otherwise changes nothing else |
| ConnectionEvents.EmptyRead | cool_server/websocket_connection.cpp:55-58 | a read that completes without octets closes and hands nothing on |
| ConnectionEvents.StepCloses | cool_server/websocket_connection.cpp:18-202 | an event closes an open connection exactly if it is a closing call, a refused send or read, a completion without octets, a read with a frame that shuts it, or one with a frame over the limit |
| ConnectionEvents.ConnectionCloses | cool_server/websocket_connection.cpp:7-202 | over every run from the constructor, the connection is closed exactly if its first read was refused or some event closes it |
| ConnectionEvents.CloseCallbackRuns | cool_server/websocket_connection.cpp:172-175 | whichever event closes the connection, the close callback installed then runs exactly once, and none otherwise |
| ConnectionEvents.FramesAnswered | cool_server/websocket_connection.cpp:104-128 | handling frames writes exactly a Pong for each Ping and what the message callback sends, until a frame shuts the connection |
| ConnectionEvents.ReadAnswered | cool_server/websocket_connection.cpp:60-70 | so does a whole read |
| ConnectionLaws.WrittenFrameIsRead | cool_server/websocket_connection.cpp:130-145 | the octets a send writes drain to one final frame with the opcode and message given |
| ConnectionLaws.PingIsAnswered | cool_server/websocket_connection.cpp:116-118 | a Ping on an open connection writes one frame, read by the peer as a Pong with the same payload |
| ConnectionLaws.SendIsRead | cool_server/websocket_connection.cpp:130-145 | each send writes one frame; the peer reads it as that message with the right opcode if the message is within the limit, and throws otherwise |
| ConnectionLaws.MessageIsEchoed | cool_server/server.cpp:71-74 | under the callback the server installs each text or binary message is answered by one frame, which the peer reads as the prefixed text exactly when that is within the limit |
| ConnectionLaws.RunDelivers | cool_server/websocket_connection.cpp:73-115 | with a message callback installed, every run hands it exactly the text and binary messages of the octets received, in order and once each |
| ConnectionLaws.ConversationDelivered | cool_server/websocket_connection.cpp:44-115 | of a peer that writes messages with `createFrame`, however much has been received and whatever else the run contains, the payloads delivered are exactly the text and binary ones among the messages received in full, up to the first one over the limit |
| ConnectionLaws.WholeConversation | cool_server/websocket_connection.cpp:44-115 | once everything before the first oversize message has been received, all of it has been delivered |
| Handler.RFC6455Handler.HandleData | cool_server/handler.cpp:91-153 | the calls the one-shot decoder makes in every case, errors included, and the message it decodes |
| Handler.OneShotAgrees | cool_server/handler.cpp:91-146 | on exactly one frame the message the one-shot decoder reads is what the streaming decoder delivers, both send the same Pongs, and they agree on closing exactly for the five opcodes the one-shot decoder knows |
| Handler.OneShotReadsOneFrame | cool_server/handler.cpp:96-113 | the one-shot decoder ignores what follows the first frame, and closes on an incomplete one where the streaming decoder waits |
| Handler.OneShotExactly | cool_server/handler.cpp:94-153 | every call the one-shot decoder makes, by the header and its opcode: 1009 over its own limit whether or not the payload is there, 1002 for anything it cannot read whole |
| Handshake.ParseHandshake | cool_server/handler.cpp:59-89 | the line scan accepts exactly the GET requests with a key and both upgrade headers in any order, and returns the last key |
| Handshake.LinesOfWire | cool_server/handler.cpp:60-73 | the lines read are the lines written |
| Handshake.RequestIsAccepted | cool_server/handler.cpp:59-89 | a well-formed request is accepted and its key recovered, whatever other headers surround it |
| Handshake.AcceptedExactly | cool_server/handler.cpp:63-89 | a request is accepted exactly if its first line has "GET", later ones the two upgrade texts outside key lines, and the key is not empty; without any of them it is rejected |
| Handshake.LastKeyExactly | cool_server/handler.cpp:74-79 | the key is that of the last key line, or stays what it was if there is none |
| Handshake.ContainsExactly | cool_server/handler.cpp:65-84 | a text is found in a line exactly if the line is something, the text, and something more |
| Chat.Server.BroadcastMessage | tests/chat/chat_server.cpp:219-225 | sends to the clients in the chat except the excluded socket, in registry order |
| Chat.Server.AddClient | tests/chat/chat_server.cpp:227-230 | appends the client to the registry, as the acceptor's step does |
| Chat.Server.RemoveClient | tests/chat/chat_server.cpp:232-248 | announces the leave to the chat, deletes the context and erases the first client with the socket, or does nothing |
| Chat.Server.StartAsyncReceive | tests/chat/chat_server.cpp:133-145 | posts one read or removes the client |
| Chat.Server.HandleNicknamePhase | tests/chat/chat_server.cpp:201-211 | fixes nickname and state, welcomes the client and announces the join to everybody in the chat |
| Chat.Server.HandleChatPhase | tests/chat/chat_server.cpp:213-217 | sends the line to everybody in the chat but the sender's socket |
| Chat.Server.HandleIOCompletion | tests/chat/chat_server.cpp:175-199 | finds the client by context, runs its phase and starts the next read |
| ChatLog.SessionOrder | tests/chat/chat_server.cpp:201-248 | one client's entries: the join once and first, nothing after the leave, one nickname throughout |
| ChatLog.JoinFirst | tests/chat/chat_server.cpp:201-217 | every line and leave is preceded by that client's join under the same nickname |
| ChatLog.HeardExactly | tests/chat/chat_server.cpp:219-225 | the log positions a client is sent are exactly those it should hear, each once and in log order |
| ChatLog.ViewIsHeard | tests/chat/chat_server.cpp:201-225 | what the log owes a client is what those positions say |
| ChatLog.CommonOrder | tests/chat/chat_server.cpp:219-225 | any two clients get their common broadcasts in the same order |
| ChatLaws.BroadcastReaches | tests/chat/chat_server.cpp:219-225 | a broadcast reaches each hearing client exactly once and nobody else |
| ChatLaws.AnnouncedReaches | tests/chat/chat_server.cpp:213-248 | excluding by socket is excluding by client: what a broadcast sends a client is what the log says it should hear |
| ChatLaws.SpokenKeeps | tests/chat/chat_server.cpp:213-217 | a chat line keeps registry, log and every client's transcript in agreement |
| ChatLaws.NicknamedKeeps | tests/chat/chat_server.cpp:201-211 | so does a join |
| ChatLaws.RemovedKeeps | tests/chat/chat_server.cpp:232-248 | so does a removal |
| ChatRuns.CompletionFindsClient | tests/chat/chat_server.cpp:166-187 | a dequeued completion always finds its own client, so the not-found branch is unreachable and removal by socket removes that client |
| ChatRuns.StepKeeps | tests/chat/chat_server.cpp:98-248 | every acceptor and worker step touches only live contexts and keeps the invariant |
| ChatRuns.EveryRunIsSafe | tests/chat/chat_server.cpp:98-248 | so does every run, under every interleaving |
| ChatRuns.TranscriptsFollowLog | tests/chat/chat_server.cpp:98-248 | over every run each client has been sent the prompt and then the projection of one global log onto its time in the chat, and the log is well formed |
| ChatRuns.ContextsAreOwned | tests/chat/chat_server.cpp:98-248 | over every run a live context belongs to exactly one client or is the acceptor's newest, has at most one read outstanding and none while a worker holds it, and is deleted at most once |
| ChatRuns.LogOnlyGrows | tests/chat/chat_server.cpp:201-248 | earlier log and transcripts are prefixes of later ones |
| ChatRuns.StateFollowsLog | tests/chat/chat_server.cpp:189-203 | over every run a client is in the chat exactly when its join is logged, under that nickname |
| ChatSpeech.SpokenTells | tests/chat/chat_server.cpp:213-225 | a chat line adds exactly the nickname, a colon and the text to the inbox of every other client in the chat, and nothing to any other inbox |
| ChatSpeech.NicknamedTells | tests/chat/chat_server.cpp:201-211 | a nickname adds the welcome by that name to its client's inbox and the join under it to its own and everybody's in the chat |
| ChatSpeech.RemovedTells | tests/chat/chat_server.cpp:232-248 | a removal adds the leave under the client's nickname to everybody's inbox in the chat if the client was in it, and nothing otherwise |
| ChatSpeech.PromptTells | tests/chat/chat_server.cpp:126-127 | the acceptor adds the prompt to the new client's inbox |
| ChatSpeech.HandleTells | tests/chat/chat_server.cpp:175-199 | in every reachable state a handled message tells each client exactly what it calls for; then the next read is outstanding, or it was refused and the client is removed and that told too |
| ChatSpeech.DropTells | tests/chat/chat_server.cpp:166-169 | a failed or empty completion removes its client and tells the chat if it was in it |
| ChatSpeech.LogIsWhatWasSaid | tests/chat/chat_server.cpp:175-217 | over every run the log of a client is exactly the messages handled for it, in order: its nickname and then its lines |
| ChatSpeech.DeletedExactly | tests/chat/chat_server.cpp:98-248 | over every run a context is deleted exactly if its association failed, one of its reads was refused, or one of its completions failed or was empty |
| Iocp.ShutdownCounts | cool_server/iocp_core.cpp:27-92 | over every run of any number of workers, once the flag is down each dequeues at most one more packet, packets queued or to be posted never fall below blocked workers, the port is closed only after all have left, and no two workers are in a callback at once |
| Iocp.FirstInFirstOut | cool_server/iocp_core.cpp:31-37 | over every run the packets handed to workers and then those queued are those queued at first and then those that arrived |
| Iocp.PacketsReachCallbacks | cool_server/iocp_core.cpp:31-73 | while the pool runs each worker gives every packet it dequeues to the callback for its key, exactly once and in order, except the one still in its hands |
| Iocp.CallbackIsReached | cool_server/iocp_core.cpp:39-71 | a worker back with a completion takes two steps of its own to the callback if the mutex is free |
| Iocp.LoopGoesOn | cool_server/iocp_core.cpp:31-39 | the rest of the loop: test, wait, dequeue the oldest packet, and out at either test once the flag is down |
| Iocp.CallForExactly | cool_server/iocp_core.cpp:43-71 | the callback is the installed one for the key; a failed operation reaches only the read and write callbacks, and a packet without an `overlapped` none |
| Iocp.NobodyIsStuck | cool_server/iocp_core.cpp:31-86 | once all packets are posted every live worker can take its next step or waits for `callbacks_mutex_`, whose holder can, and `stop` waits only for such a worker |
| Iocp.StepsRunOut | cool_server/iocp_core.cpp:31-92 | after the flag is down every step but an arrival brings the joins closer |
| Iocp.ShutdownTerminates | cool_server/iocp_core.cpp:76-92 | shutdown takes a bounded number of steps and stops only when `stop` has finished and every worker has left |
| Iocp.FewerPacketsDeadlock | cool_server/iocp_core.cpp:80-82 | with fewer packets than blocked workers one stays blocked, so one packet per worker is needed |
| TaskQueue.ThreadSafeQueue.Push | acos3/thread_server.h:33-37 | appends one task and notifies the waiting worker |
| TaskQueue.ThreadSafeQueue.Pop | acos3/thread_server.h:39-52 | waits exactly when the queue is empty and the flag down; otherwise returns the oldest task, or the sentinel exactly when the queue is empty |
| TaskQueue.ThreadSafeQueue.Stop | acos3/thread_server.h:59-62 | raises the flag and notifies the waiting worker |
| TaskQueue.PushIsItsSteps | acos3/thread_server.h:33-37 | the steps a client thread takes under the lock, back to back, do what `Push` does |
| TaskQueue.PopIsItsSteps | acos3/thread_server.h:39-52 | the steps the worker takes under the lock, back to back, do what `Pop` does, and either return its task or go to sleep |
| TaskQueue.StopIsItsSteps | acos3/thread_server.h:59-62 | the two steps of the closing thread, back to back, do what `Stop` does |
| TaskQueue.EmptyIsItsStep | acos3/thread_server.cpp:144 | the worker leaves by its loop test exactly if `Empty` says so, and the test changes nothing |
| TaskQueue.StepKeeps | acos3/thread_server.cpp:82-184 | every step of producers, worker and closing thread keeps the invariant |
| TaskQueue.DrainsInOrder | acos3/thread_server.cpp:82-177 | over every run with any number of producers, dequeued tasks followed by the queue are all pushed tasks in push order, none is taken for the sentinel, and each dequeued task is answered to its own socket with its own text in order, and when the worker leaves, only while the server closes, every task pushed before it decided to has been dequeued and answered once |
| TaskQueue.NoLostWakeup | acos3/thread_server.h:33-43 | whenever the lock is free and the worker is blocked without a notification, the queue is empty |
| TaskQueue.NobodyIsStuck | acos3/thread_server.cpp:137-184 | while the server closes, the worker can take its next step unless it sleeps without a notification or a client thread holds the lock, and a client thread that holds the lock can take its own |
| TaskQueue.StepsRunOut | acos3/thread_server.cpp:82-238 | while the server closes, every step of anybody brings the system closer to rest |
| TaskQueue.StopTerminates | acos3/thread_server.cpp:216-238 | closing takes at most a fixed number of steps for each task queued and each client thread, and a worker that has seen the stop has left when it comes to rest |
| TaskQueue.OnePushEach | acos3/thread_server.cpp:91-109 | once `isRunning` is down each client thread pushes at most once more, and only if it was past its test |
| TaskQueue.StopSeenExactly | acos3/thread_server.h:59-62 | when the worker comes to rest after the notification it has left, unless the notification fell between its evaluation of the wait predicate and its wait and no push or chance wake-up followed; then it sleeps and the join waits |
| TaskQueue.LostStopSleeps | acos3/thread_server.cpp:226-238 | after such a notification the worker is asleep or on its way to sleep and the join waits until a client pushes or the system wakes the worker, and from then on it has seen the stop or is about to be notified |
| TaskQueue.RestingOutcome | acos3/thread_server.cpp:82-238 | when nobody can move but a client or chance, `closeServer` has returned exactly if the worker has left, and every client thread is receiving or gone |
| TaskQueue.StopCanBeLost | acos3/thread_server.cpp:216-238 | a concrete run that loses the stop |
| TaskRuns.PushesAreReceived | acos3/thread_server.cpp:91-109 | over every run the tasks pushed are exactly the messages received, each pushed by the thread that received it, in the order of the pushes |
| TaskRuns.RestingIsDone | acos3/thread_server.cpp:82-184 | when a running server has come to rest every message pushed has been answered and the worker waits for the next |
| Echo.ClientContext.Complete | tests/IOCP_echo/iocp_server.cpp:192-232 | a good read becomes a write and a good write a read of the same context; anything else deletes it |
| Echo.OperationTypeIsRight | tests/IOCP_echo/iocp_server.cpp:205-232 | the operation type always names the operation that is outstanding, of which there is one |
| Echo.StepKeeps | tests/IOCP_echo/iocp_server.cpp:119-232 | every step touches only live contexts and keeps the invariant |
| Echo.EveryRunEchoes | tests/IOCP_echo/iocp_server.cpp:119-232 | over every run each live context is with exactly one of acceptor, system and workers, a deleted one with nobody, each is deleted at most once, and what has been echoed to a client is a prefix of what it sent |
| Echo.CaughtUpWhileReading | tests/IOCP_echo/iocp_server.cpp:205-232 | while a read is outstanding everything received has been echoed |
| EchoRuns.CompletionOutcome | tests/IOCP_echo/iocp_server.cpp:193-231 | a completion is good exactly if it succeeded with octets; a good read fills the buffer, a good write has sent it back |
| EchoRuns.HandleOutcome | tests/IOCP_echo/iocp_server.cpp:192-232 | handling a completion deletes the context exactly if it was not good or the next operation was refused; otherwise exactly the opposite operation is outstanding on the same octets |
| EchoRuns.FreedExactly | tests/IOCP_echo/iocp_server.cpp:119-232 | over every run a context is deleted exactly if its association failed, its first read was refused, or one of its completions was not good or had its next operation refused |
| EchoRuns.ReceivedExactly | tests/IOCP_echo/iocp_server.cpp:205-215 | over every run what counts as received is all that good reads have brought |
| EchoRuns.EchoRound | tests/IOCP_echo/iocp_server.cpp:192-232 | a good read, an accepted send and a good write bring back everything the client has sent |

## Left out

- Winsock, IOCP and the other system calls: their answers are parameters; a posted packet is assumed to be queued and a completed send to have been sent in full.
- Locks inside one object: `handleFrame` and `asyncWrite` call `close` while holding a mutex that `close` takes again, and `startAsyncReceive` can call `removeClient` under `clientsMutex`; these are modelled as re-entrant, and freedom from such self-deadlock is not claimed.
- The callback setters of the worker pool take `callbacks_mutex_` too and are not steps, and its `stop` is taken to be called by a thread that is not a worker.
- Data races within one connection: each call on a `WebSocketConnection` is one atomic step, and a message callback may send and close but does not replace the callbacks while it runs.
- The worker pool, the threads around the task queue, the chat acceptor and workers and the echo server as objects: their interleavings are modelled on values, as states and steps, so the model does not capture the loops of one thread as one method; the operations they call on shared objects are methods of classes.
- Frame.MaskCopy: models two identical loops of the source by one method.
- Frame.ParseHeader: sets the masking key of an unmasked header to 0 where the source leaves it unset and never reads it.
- FrameHeader reserved bits, message fragmentation and control-frame limits: the source does not look at them.
- The terminator the chat and echo servers write after a read that fills all 1024 octets: a completion is taken to carry at most 1023.
- The random mask generator: its word is a parameter.
- SHA-1, base64 and the handshake response, authentication, tokens and the database: foreign or unfinished code.
- The socket helpers, the command-line clients, the simple and thread echo servers, the rest of `cool_server/server.cpp` and the web front end: plumbing.
- `stopServer` of the chat and echo servers: the claims about them are about the running phase; the shutdown protocol is that of `Iocp.dfy`.
- Console output and the 100 ms pause of the task worker.
