# A model of the game server's worker, sessions and lobby

The server is an io_uring loop. Each worker owns a ring, a pool of 128 receive buffers that it
lends to the kernel, and the sessions assigned to it. A session reassembles length-prefixed
frames from TLS plaintext that arrives in arbitrary pieces, and sends through a queue with one
request in flight. On top of the sessions sit a registry that maps message types to ids and
handlers, and a lobby of rooms.

Two kinds of modules face each other. State machines on values say what one event does:
`Protocol` (one worker with all its sessions, requests and buffers) and `Rooms` (the lobby with
everything its clients were sent). Classes that update their fields as the program does are
proved to do exactly that: `Buffers`, `WorkerLoop` and `LobbyServer`; `Registry` has both. The
remaining modules prove what holds of every run.

| file | contents |
|---|---|
| Framing.dfy | the wire format and the greedy parse of a byte stream |
| Numbers.dfy, Buffers.dfy | the smaller and the larger number; the growable buffer |
| Protocol.dfy | one worker as a state machine |
| Sending.dfy, Shutdown.dfy | the send queue, closing and stopping, over every run |
| Requests.dfy | the requests outstanding at the ring, step by step |
| Receiving.dfy, Delivery.dfy | reassembly and the buffer pool, over every run |
| Exhaustion.dfy | runs that use the buffer pool up |
| Accounts.dfy | what the events of a run alone say about a session |
| Stranding.dfy | what a close leaves unsent |
| Greeting.dfy | runs put together, and the handshake of an ordinary connection |
| Worker.dfy | TLS, session and worker objects |
| Rooms.dfy, Lobby.dfy, Views.dfy | the lobby as a state machine, and what holds over every run |
| Effects.dfy | what each lobby request does, told by tables and messages alone |
| LobbyServer.dfy | room and room manager objects, and the room handlers |
| Registry.dfy, Dispatch.dfy | the message registry, and a message from `Send` to its handler |
| Service.dfy | what a frame does to the lobby |

History fields (`produced`, `accepted`, `dispatched`, `stream`, `inbox`, `peak` and the like)
record what happened; no branch reads them. Properties quantify over every sequence of enabled
events from the initial state. Buffers carry two ghost constants that say whose they are, which
is how the proofs know that two of them are different.

## What the code does not do

Some properties one might expect are false of the code. The model keeps the code, shows how the
property fails, and states exactly when it holds. The runs that show it start with a handshake
and a request, `Greeting.HelloRun`.

- One flush moves at most 4096 bytes of ciphertext, and nothing flushes again by itself
  (Session.cpp:105-120). A graceful close can leave the end of a message behind:
  `Stranding.LongCiphertextCut`, `Stranding.MessageCutShort`; by how many bytes, and when by
  none: `Stranding.GracefulCloseLoses`.
- A session closes at once, without waiting for its queue as `Close(true)` does, when a receive
  ends (Session.cpp:263-267), its bytes are refused (Session.cpp:280-285), the handshake breaks
  (Session.cpp:122-150), the read ends in an error, such as the peer's own end of the connection
  (Session.cpp:315-319), a write into the TLS library fails (Session.cpp:56-73) or a send does
  (Session.cpp:374-380): `Stranding.ClosesHow`. So the receive that `StartClose` cancels cuts
  off what is queued: `Stranding.CancelledReceiveCuts`, `Stranding.AnswerCutByCancel`. When a
  close, of whatever cause, leaves nothing queued: `Stranding.QueueAtClose`.
- One receive reads at most 4096 bytes of plaintext (Session.cpp:303-306), so a complete frame
  can wait for the next receive: `Delivery.LongFrameWaits`, `Delivery.FrameLeftWaiting`; when
  none does: `Accounts.DispatchedExactly`.
- Pool buffers are not handed back after a refused write into the TLS library, after a read
  that yields no plaintext, and with a removed session: `Delivery.StepLoses` says exactly when
  and which, `Delivery.LossesBounded` what that comes to, and `Exhaustion.BoundReached` that it
  does come to that.
- `PreserveFrom` counts from the start of the vector and `OnWrite` resets the read position:
  both are queue operations only on a buffer nothing was read from, which every caller ensures.
- A payload above 65533 bytes overflows the length field: `Framing.RoundTripExact`.
- Entering a room does not leave the earlier one: `Views.TwoRoomsAtOnce`, `Views.StepOneRoom`.
- Signing in or registering a name while seated is not announced to the room:
  `Lobby.StepHosts`, `Views.StepCoherent`. The counts shown are right all the same
  (`Views.CountEveryRun`), the ids unless a seated session changes its user or comes on record
  (`Views.IdsEveryRun`), and the names unless one seated is changed (`Views.ViewEveryRun`).
- A message type that is not registered is sent under id 0, which is that of `Ping`:
  `Registry.StandardInverse`.

## Model

| member | source | states |
|---|---|---|
| `Framing.RoundTripExact` | Session.cpp:44-53 | Any list of messages, framed back to back as `Send` writes them, is read back exactly with nothing left over, if and only if every payload has at most 65533 bytes |
| `Framing.ParseBytes` | Session.cpp:183-196 | On the wire, two bytes `hi` and `lo` announce 256 * hi + lo bytes of body: those are taken off as one frame, and the reading goes on behind them |
| `Framing.ParseWaits` | Session.cpp:179-189 | Nothing is taken off exactly while fewer bytes than two, or than the two announce, have come |
| `Framing.DecodeBytes` | Session.cpp:81-91 | The first two bytes of a body are the id, high byte first, and the rest is the payload |
| `Framing.FrameBytes` | Session.cpp:44-53 | The frame of a message is its length less two and its id, each as two bytes with the high one first and cut to sixteen bits, and then the payload |
| `Framing.ParseSound` | Session.cpp:177-207 | The greedy reading loses nothing: its frames and its tail spell the input, the tail holds no complete frame, no frame is longer than the length field can say |
| `Framing.ParseUnique` | Session.cpp:183-203 | It is the only such reading: any frames that fit, followed by any incomplete tail, parse back to exactly themselves |
| `Framing.ParseSplit` | Session.cpp:183-203 | Parsing a stream cut in two is parsing the first part and then its tail with the second part behind it |
| `Framing.ParseAt` | Session.cpp:183-196 | One round of the loop at an offset takes one frame off what is left to parse |
| `Framing.ParseTailBound` | Session.cpp:183-203 | What is kept back never exceeds 65536 bytes |
| `Framing.DecodeBody` | Session.cpp:81-91 | The id and payload that `HandlePacket` takes from a body are those `Send` put there, for every sixteen-bit id |
| `Framing.ParsePrefix` | Session.cpp:183-203 | A stream of frames cut off anywhere: what has been parsed are the first bodies, and the tail is the beginning of the frames of the others |
| `Buffers.Buffer.constructor` | Buffer.cpp:4 | A new buffer is empty, with both positions at zero |
| `Buffers.Buffer.Write` | Buffer.cpp:6-14 | The stored bytes are the old ones followed by the data; the vector grows only as far as needed |
| `Buffers.Buffer.Read` | Buffer.cpp:16-26 | Returns the oldest bytes, at most as many as stored, and leaves the rest |
| `Buffers.Buffer.GetStoredSize` | Buffer.cpp:52-55 | The number of stored bytes |
| `Buffers.Buffer.OnWrite` | Buffer.cpp:63-67 | Adds the bytes the kernel put behind the write position; because the read position returns to zero this is appending if and only if nothing had been read |
| `Buffers.Buffer.OnRead` | Buffer.cpp:69-76 | Drops the oldest bytes, clamped, and an emptied buffer starts over at zero |
| `Buffers.Buffer.Append` | Buffer.cpp:79-94 | The other buffer's stored bytes go behind this one's; the vector grows only as far as needed |
| `Buffers.Buffer.PreserveFrom` | Buffer.cpp:96-104 | Drops `offset` stored bytes if and only if the read position was zero, since the offset counts from the start of the vector |
| `Buffers.Buffer.Reset` | Buffer.cpp:106-109 | Nothing is stored and both positions are zero |
| `Sending.FlushOk` | Session.cpp:105-120 | A flush keeps the send invariant: bytes conserved in order, queue buffers non-empty, sending iff queued, one counted send whose copy is the queue front |
| `Sending.FlushQueues` | Session.cpp:107-113 | Moving bytes from the TLS library to the queue conserves the outgoing stream |
| `Sending.AdvanceOk` | Session.cpp:382-395 | A partial or whole send conserves the outgoing stream, keeps queued buffers non-empty, and shortens the queue by exactly the bytes taken |
| `Sending.SendTookOk` | Session.cpp:372-401 | After a send that took some bytes the invariant holds again and those bytes are the next of the stream |
| `Sending.SendFailedOk` | Session.cpp:374-380 | After a failed send the session is closing, its queue is as it was, and the invariant holds |
| `Sending.CloseOk` | Session.cpp:231-259 | `Close` asks for at most one close and keeps the invariant; a checked close leaves a cancelled session with a completion still to come |
| `Sending.FlushEffect` | Session.cpp:105-120 | A flush queues exactly one more buffer, of the first bytes held back and as many as 4096 if there are, posts the send of it exactly if nothing was queued, and holds back the rest |
| `Sending.OnSendEffect` | Session.cpp:372-401 | After a send that took some bytes, exactly what is left of the front, or the next buffer, is sent; with nothing left the session is idle and closes exactly if it was told to and has not |
| `Sending.CheckedClose` | Session.cpp:231-259 | A checked close is asked for exactly by a session that was told to close, has not asked and has nothing queued |
| `Shutdown.StepKeeps` | Worker.cpp:117-198 | Every event in every state keeps the invariant of all sessions and all outstanding requests |
| `Shutdown.RunKeeps` | Worker.cpp:85-115 | So does every run |
| `Shutdown.InitOk` | Worker.cpp:26-65 | The invariant holds at the start |
| `Shutdown.OutgoingEveryRun` | Session.cpp:105-175 | After any run: accepted bytes, then queued bytes, then bytes in the TLS library are all bytes produced; queued buffers are non-empty; sending iff queued; the counter is the number of sends in flight, at most one, and its copy is the queue front; at most one close was asked for |
| `Shutdown.FailedSendIsFinal` | Session.cpp:374-380 | After a failed send nothing more of that session reaches the wire, however the run goes on |
| `Shutdown.RemovedForGood` | SessionManager.cpp:21-26 | A removed session does not come back |
| `Shutdown.GracefulClose` | Session.cpp:231-259 | A checked close is asked for only when cancelled, with an empty queue and no send in flight; all produced bytes were then accepted if and only if the TLS library holds none back |
| `Shutdown.NeverStuck` | Worker.cpp:67-71 | After `Stop`, until the loop exits: with no session the stop request is outstanding; otherwise each session is closing with its close in flight, or cancelled with its cancel or the send of its queue front in flight; so a completion can always be handled |
| `Shutdown.NeverStuckEveryRun` | Worker.cpp:85-115 | No run reaches a stopped state in which the loop waits for a completion that cannot come; the loop exits only with no session left |
| `Shutdown.StepDecreases` | Worker.cpp:181-192 | Every completion without new data makes the measure of queued bytes, outstanding requests and live sessions smaller |
| `Shutdown.RunTerminates` | Worker.cpp:85-115 | So at most that many completions can follow, in whatever order |
| `Shutdown.StepGrows` | Session.cpp:105-120 | After `Stop` an event with new data, or a message, adds to the measure at most what three flushes and their sends weigh |
| `Shutdown.RunBounded` | Worker.cpp:85-115 | Over any run after `Stop` the completions without new data and the measure that is left come to at most the measure before and what the other events add |
| `Shutdown.ShutdownCompletes` | Worker.cpp:99-106 | Over any run after `Stop`, with whatever data and messages, the completions without new data are at most the measure plus 12291 for every other event; and when no completion is left to handle, and only then, the loop has exited, with no session left |
| `Shutdown.OnSendWeight` | Session.cpp:372-401 | A send completion pays for the requests it causes with queued bytes |
| `Requests.StepRequests` | Worker.cpp:117-251 | What each event adds to and takes from the outstanding requests: a receive is posted by a new session alone and goes on as long as the kernel says; a cancel by `Stop` alone, for every session; a stop request exactly by the call of `Stop`, or the close of a session, that finds the server not running and leaves no session |
| `Requests.StopEffect` | Worker.cpp:67-71 | `Stop` cancels the receive of every session, once, posts the stop request exactly without any session, and changes nothing else |
| `Requests.OnceEveryRun` | Session.cpp:209-229 | Over every run a session has at most one receive and one cancel outstanding, and no cancel before `Stop` |
| `Requests.StepFrame` | Worker.cpp:117-235 | The flags change only as their events say, a session comes by `Accept` and goes by the completion of its close, no id is used up otherwise, and no event touches a session it is not about |
| `Requests.AcceptEffect` | Session.cpp:9-12 | A new session is in its handshake with nothing queued, held back or pending, and its receive is posted; nothing else happens |
| `Requests.LoopEnds` | Worker.cpp:99-106 | The loop ends exactly on a completion that finds the server not running and no session |
| `Stranding.FlushDrains` | Session.cpp:105-113 | One flush empties the TLS library's write side if and only if it held at most 4096 bytes |
| `Stranding.GracefulStepSentQueue` | Session.cpp:397-400 | At the step that closes a session in turn, all that was queued has been accepted and no send is in flight; all that was produced has been if and only if the TLS library holds nothing back |
| `Stranding.GracefulCloseLoses` | Session.cpp:397-400 | At a graceful close, after any run, the accepted bytes are those produced but the last n, where n is the backlog in the account of the session's events; so everything was sent exactly when that is 0 |
| `Stranding.LongCiphertextCut` | Session.cpp:105-120 | From any state of any run before `Stop`, with nothing queued or held back: a ciphertext longer than 4096 bytes, sent without an error, is cut by a graceful close, which loses exactly what is longer |
| `Stranding.MessageCutShort` | Session.cpp:105-120 | Such a run from the start, after a handshake and a first request |
| `Stranding.ClosesHow` | Session.cpp:231-259 | A session is asked to close exactly by a graceful step, or at once by a failed write into the TLS library, a receive that ended or whose bytes were refused, a broken handshake, a read that ends in an error, or a failed send; at once nothing is taken from the queue |
| `Stranding.QueueAtClose` | Session.cpp:261-285 | After any run, when any event asks for the close of a session, all it had queued has been accepted exactly if the account of its events shows no more produced than taken and held back; a graceful close always finds it so |
| `Stranding.CancelledReceiveCuts` | Session.cpp:263-267 | After `Stop` the cancelled receive closes its session at once, and what is queued then stays unsent |
| `Stranding.AnswerCutByCancel` | Session.cpp:209-229 | Such a run from the start: an answer is in the queue when the cancelled receive completes |
| `Accounts.HandshakeLeaves` | Session.cpp:122-150 | The handshake call and its flushes leave exactly what one flush, or two if the library wants to write, could not take |
| `Accounts.ReadLeaves` | Session.cpp:308-319 | After the read only a library that wants to write is flushed, by one buffer; otherwise all new ciphertext is left |
| `Accounts.StepAgrees` | Worker.cpp:117-198 | Every event changes what a session has received, produced and had taken, what waits and what is held back as the account of the event alone says, whatever the state |
| `Accounts.AccountKept` | Worker.cpp:85-115 | So after any run the stream received, the bytes produced and taken, the plaintext waiting and the ciphertext held back of a session are known from the events |
| `Accounts.BooksBalance` | Session.cpp:105-175 | At any time of any run the bytes produced by a session are those taken by the kernel, those queued and those held back, all but the queue known from the events; so the queue is empty exactly when produced is taken plus held back |
| `Accounts.DispatchedExactly` | Session.cpp:303-369 | After any run, what was dispatched and kept is the greedy parse of the received stream less what waits, both known from the events; every frame received has been dispatched exactly when no more waits than the incomplete end of the stream |
| `Greeting.HelloRun` | Session.cpp:290-301 | The model runs an ordinary connection through its handshake and its first request |
| `Receiving.ProcessOk` | Session.cpp:177-207 | Processing the kept tail with a new piece behind it continues the parse of everything drained |
| `Receiving.DeliverRx` | Session.cpp:333-368 | Either way of delivering a piece, with or without a pending buffer, continues that parse, and a buffer is pending iff a tail is left |
| `Receiving.DeliverPool` | Session.cpp:333-368 | ... and leaves every pool buffer with one owner, within its size bound |
| `Receiving.OnRecvKeeps` | Session.cpp:261-370 | A receive completion keeps every pool buffer with exactly one owner |
| `Receiving.RemoveStep` | SessionManager.cpp:21-26 | Removing a session keeps the books of the pool once its pending buffer counts as dropped |
| `Receiving.AcceptStep` | Worker.cpp:231-235 | A new session has an empty parse and holds no buffer |
| `Receiving.RxStep` | Worker.cpp:117-198 | Every event keeps the receive invariant of all sessions and the pool |
| `Receiving.RxRun` | Worker.cpp:85-115 | So does every run |
| `Delivery.DispatchIsParse` | Session.cpp:324-369 | After any run, what a session dispatched is the greedy parse of the plaintext drained so far, the pending buffer holds exactly the unparsed tail of at most 65536 bytes, and there is none iff the tail is empty |
| `Delivery.ChunkingInvariance` | Session.cpp:303-369 | Two runs in which a session received the same stream, cut in any ways among any other sessions, dispatch the same frames and keep the same bytes |
| `Delivery.MessagesDelivered` | Session.cpp:177-207 | While framed messages arrive, at any time and also inside a frame, exactly the first ones have been dispatched, and what is kept and what waits is the beginning of the frames of the others; all are dispatched once all arrived and the TLS library is drained |
| `Delivery.ReadTakesAll` | TLS.cpp:36-55 | One receive takes all waiting plaintext if and only if it is at most 4096 bytes |
| `Delivery.DispatchUpToDate` | Session.cpp:303-306 | Every complete frame received has been dispatched if and only if what waits in the TLS library completes none |
| `Delivery.LongFrameWaits` | Session.cpp:303-306 | At any session past its handshake with nothing kept or waiting, a frame longer than 4096 bytes that arrives at once is not dispatched |
| `Delivery.FrameLeftWaiting` | Session.cpp:303-306 | Such a run from the start, after a handshake and a first request: a frame of 5002 bytes arrives in receives of 4096 and 1000 bytes |
| `Delivery.NothingBeforeHandshake` | Session.cpp:290-301 | After any run a session that is still in its handshake has read nothing, holds no buffer and has dispatched nothing |
| `Delivery.OneOwner` | Session.cpp:333-368 | After any run each pool buffer is in exactly one of: lent once to the ring at its present size, pending in one session, dropped; its size is between 4096 and 69632; so a completion never names a pending buffer |
| `Delivery.StepLoses` | Session.cpp:280-285 | A step drops exactly the buffer it loses: that of a receive whose bytes the TLS library refuses, or that yields no plaintext, or the pending one of a session that is removed; it was not dropped before |
| `Delivery.RunLoses` | Session.cpp:324 | Over any run the dropped buffers are exactly those lost on the way, each lost once |
| `Delivery.LossesBounded` | Worker.cpp:59-64 | Over any run at most 128 steps lose a buffer, and once they have, no receive can complete with data any more |
| `Exhaustion.BoundReached` | Session.cpp:324 | For every n up to 128 a run of n connections, whose clients end their handshakes with bytes that carry no plaintext, loses exactly n buffers; after 128 of them no receive can complete with data |
| `Protocol.FreshLeases` | Worker.cpp:59-64 | At the start every pool buffer is lent once, with 4096 bytes |
| `WorkerLoop.Tls.GetRecvText` | TLS.cpp:36-55 | Fills the buffer with the first waiting plaintext, as much as fits, whatever pieces `SSL_read` returns; the error is none iff the buffer was filled |
| `WorkerLoop.Tls.GetSecretText` | TLS.cpp:57-70 | Fills the buffer with the first waiting ciphertext, as much as fits |
| `WorkerLoop.Session.constructor` | Session.cpp:9-12 | A new session has an empty queue and no pending buffer |
| `WorkerLoop.Session.SendInternal` | Session.cpp:152-175 | Posts a copy of the queue front and counts it in sixteen bits |
| `WorkerLoop.Session.FlushTLSWriteBuffer` | Session.cpp:105-120 | The object does what the step function `Flush` says, fields and requests both |
| `WorkerLoop.Session.StartClose` | Session.cpp:209-229 | One cancel, the first time only |
| `WorkerLoop.Session.Close` | Session.cpp:231-259 | One close request, under the checks of the parameter |
| `WorkerLoop.Session.AdvanceFront` | Session.cpp:382-395 | The front loses the accepted bytes, leaves the queue when empty, and sending stops with an empty queue; no other buffer is touched |
| `WorkerLoop.Session.OnSend` | Session.cpp:372-401 | The object does what the step function `OnSend` says |
| `WorkerLoop.Session.Serialize` | Session.cpp:46-53 | The three writes build the frame of the message in a buffer of exactly its size: bytes 0 and 1 are the length, high byte first, bytes 2 and 3 the id, and then comes the payload |
| `WorkerLoop.Session.Send` | Session.cpp:44-79 | The plaintext given to the TLS library is the frame, and the session then does what `SendCipher` says |
| `WorkerLoop.Session.DispatchFrames` | Session.cpp:179-197 | The loop dispatches exactly the frames of the greedy parse and stops at its tail |
| `WorkerLoop.Session.ProcessPacket` | Session.cpp:177-207 | On a buffer nothing was read from, dispatches the frames of the greedy parse, keeps exactly its tail at the start of the buffer, and answers whether the tail is empty |
| `WorkerLoop.Session.AppendChunk` | Session.cpp:336-342 | The piece goes behind the pending tail and its buffer back to the ring, reset and at its own size, while the pending one may grow |
| `WorkerLoop.Session.DeliverPending` | Session.cpp:333-354 | With a pending buffer the object does what `Deliver` says |
| `WorkerLoop.Session.DeliverFresh` | Session.cpp:355-368 | Without one too: the buffer itself becomes pending or goes back |
| `WorkerLoop.Session.StoreAndDeliver` | Session.cpp:324-369 | The plaintext replaces the ciphertext in the pool buffer, which is always large enough, so the resize is never reached |
| `WorkerLoop.Session.TLSHandshake` | Session.cpp:122-150 | One flush, a second one if the library wants to write, a close if it failed; true iff the handshake is complete |
| `WorkerLoop.Session.AfterRead` | Session.cpp:308-319 | What each error of the read asks for: nothing, a flush, a close |
| `WorkerLoop.Session.FeedTls` | Session.cpp:276-288 | All received bytes are taken by the TLS library in whatever pieces, or the loop stops at its refusal |
| `WorkerLoop.Session.OnRecv` | Session.cpp:261-370 | A whole receive completion: both halves of the session, the pool, the ring and the requests are as the step functions say |
| `WorkerLoop.Worker.constructor` | Worker.cpp:26-65 | A new worker looks like the initial state |
| `WorkerLoop.Worker.RegisterBufRing` | Worker.cpp:26-65 | 128 buffers of 4096 bytes, each lent once, both positions at zero |
| `WorkerLoop.Worker.Lend` | Session.cpp:363-366 | A buffer given back is reset and recorded at its present size; every lent buffer has both positions at zero |
| `WorkerLoop.Worker.HandleSend` | Worker.cpp:189-192 | A send completion reaches its session and no other |
| `WorkerLoop.Worker.HandleCancel` | Worker.cpp:181-184 | A cancel completion asks for the checked close of its session |
| `WorkerLoop.Worker.HandleRecvData` | Worker.cpp:141-157 | A receive with data changes its session and the buffers it works on, and nothing of any other session |
| `WorkerLoop.Worker.HandleStrayData` | Worker.cpp:141-157 | Data for a session that was removed changes no session, and its buffer is dropped |
| `WorkerLoop.Worker.HandleRecvEnd` | Worker.cpp:141-157 | A receive that ended closes its session |
| `WorkerLoop.Worker.HandleClose` | Worker.cpp:185-188 | A close completion removes the session and may post the stop request |
| `WorkerLoop.Worker.HandleCompletion` | Worker.cpp:117-198 | The dispatch as a whole does what the step function `Handle` says |
| `WorkerLoop.Worker.Turn` | Worker.cpp:89-112 | One turn of the loop is one step of the state machine, ends the loop exactly when the server is stopped and no session is left, and keeps both invariants |
| `WorkerLoop.Worker.Run` | Worker.cpp:85-115 | Over any possible sequence of completions, accepted connections, messages, the end of the server and `Stop`, the worker object looks as the state machine does after the same run, with both invariants kept at every turn; the loop has ended only with the server stopped and no session left |
| `WorkerLoop.Worker.Live` | Worker.cpp:26-115 | So does a worker from its creation on |
| `WorkerLoop.Worker.AddSession` | Worker.cpp:231-235 | A new session joins with its receive posted |
| `WorkerLoop.Worker.RemoveSession` | SessionManager.cpp:21-26 | The session is gone; a pending buffer of its is dropped |
| `WorkerLoop.Worker.CloseSessions` | SessionManager.cpp:3-13 | Every session is told to close once, in whatever order the table has them |
| `WorkerLoop.Worker.StopSQE` | Worker.cpp:237-251 | The stop request is posted iff the server is not running and no session is left, and otherwise nothing is |
| `WorkerLoop.Worker.Stop` | Worker.cpp:67-71 | `Stop` is the stop step of the state machine |
| `WorkerLoop.Worker.SendTo` | Session.cpp:44-79 | A message sent to a live session is one step of the state machine |
| `Rooms.KeyRoundTrip` | Session.h:33-34 | Storing a room key in a session and looking it up finds the same key, always; the stored number is the key itself iff below 2^31, and means no room iff the key is 2^32-1 |
| `Rooms.LeastFree` | RoomManager.cpp:7-17 | The first key not taken is at most the number of keys taken, and every smaller one is taken |
| `Rooms.NewKey` | RoomManager.cpp:7-17 | The key for a new room: free, least, at most the number of rooms |
| `Rooms.ListedWithout` | Room.cpp:29-39 | The user list does not depend on the order in which members are visited |
| `Lobby.StepKeeps` | PacketHandler.cpp:115-246 | Every handler run keeps the room table in order |
| `Lobby.RoomsEveryRun` | Room.cpp:5-63 | After any run no room exceeds its maximum, each is filed under its own id and is empty only if its maximum is 0, and a session that believes it is in a room is a member of that live room |
| `Lobby.StepHosts` | Room.cpp:46-63 | A handler run keeps the host of every room with members the user of one of them exactly if it is not a sign-in that takes a room's only session of the host's id away from it |
| `Lobby.SignInKeepsHosts` | Session.h:29 | For a sign-in: exactly if in each room it sits in the session was not the only one under the host's id, or it keeps its id |
| `Lobby.HostEveryRun` | Room.cpp:60 | Over any run without such a sign-in, with any creates, joins, leaves and name changes and any number of sessions under one id, the host of a room with members is the user of one of them |
| `Lobby.FreeKeyExists` | RoomManager.cpp:7-17 | The key search ends iff fewer than 2^32 rooms exist |
| `Lobby.KeysEveryRun` | RoomManager.cpp:25-40 | Over any run every live key is below the highest number of rooms ever; up to 2^31 rooms the stored room number is the key, and below 2^32 a session finds no room iff it believes it is in none |
| `Lobby.MatchingFound` | RoomManager.cpp:42-57 | A listing is found iff it is that of a live room whose name is something, the query, and something |
| `Effects.JoinEffect` | PacketHandler.cpp:152-177 | A session enters exactly a room that exists and has fewer members than its maximum: it becomes a member, keeps the number, is told the room with its host, the other members are told the room, and no table or client changes besides; otherwise it is told that it cannot, and nothing else happens |
| `Effects.CreateEffect` | RoomManager.cpp:3-23 | A room is opened under the least free number with its maker as host and only member, who is told so; with maximum 0 the room is opened empty and its maker told that it cannot enter |
| `Effects.FindEffect` | PacketHandler.cpp:130-143 | The client gets one more message, a list of exactly the rooms whose name has the query in it, as they stand; nothing else happens |
| `Effects.LeaveEffect` | PacketHandler.cpp:186-204 | The room whose number the session keeps loses it, and goes with its last member; if the host's id leaves, the user of the first member left is host; those who stay are told the room; the client is answered with the matching rooms as they are then |
| `Effects.BroadcastEffect` | PacketHandler.cpp:213-225 | What a session on record says goes once to every member of the room whose number it keeps; without such a room, or off the record, nobody gets anything |
| `Effects.StartGameEffect` | PacketHandler.cpp:234-246 | The address goes once to every other member of that room, and without one nobody gets anything |
| `Effects.NameHeard` | Session.h:29 | Once a session has signed in and its user has a name, what it says carries that name, and nothing else has changed |
| `Effects.Newcomer` | Session.h:44-46 | A client that connects, signs in and registers a name is in no room and was sent nothing |
| `Effects.RosterCounts` | Room.cpp:29-39 | A list shows a user once for every member under that id, with the name on record, and nobody else |
| `Views.StepCoherent` | Room.cpp:5-130 | For the room and its count, for the ids, and for the names: a handler run leaves each member told how its room stands exactly if it changes nothing of that kind that the last word about a room shows; the room and its count it never changes unnoticed |
| `Views.CountEveryRun` | Room.cpp:101-130 | After any run whatever, the last join response or update a member was sent for its room has the room's name, its number of members and its maximum as they are |
| `Views.IdsEveryRun` | Room.cpp:101-130 | After any run in which nobody signs in as somebody else, or comes on record, while seated, with any other changes of names, it also has the member's own id, and lists each user on record as often as members sit there under that id, and nobody else |
| `Views.IdsListed` | Room.cpp:29-39 | What a list shows of ids: each id on record once for every member under it, whatever the names, and no other |
| `Views.ViewEveryRun` | Room.cpp:101-130 | Over any run in which nobody seated signs in as somebody else or gets a new name, the list shown has the names on record as well: it is the user list of the room as it is |
| `Views.ListedCounts` | Room.cpp:29-39 | What a list shows: a user on record once for every member under that id, with the name on record, and nothing else |
| `Views.SignInCoherent` | PacketHandler.cpp:44 | Signing in keeps the counts right, and the rest iff the session sits in no room or the user stays the same |
| `Views.RenameCoherent` | PacketHandler.cpp:101 | A new user name keeps the counts right; the ids iff the user was on record or nobody seated is that user; the names iff it is the old one or nobody seated is that user |
| `Views.StepOneRoom` | Room.cpp:15-16 | A handler run keeps membership exact iff it lets no session into a room while it sits in another |
| `Views.MembershipExact` | Room.cpp:5-63 | So over runs without that, a session is a member of exactly the room it believes it is in |
| `Views.TwoRoomsAtOnce` | RoomManager.cpp:20-21 | A run with it: a session that opens a second room stays a member of the first |
| `Views.JoinAnswered` | PacketHandler.cpp:152-177 | A join is answered with the room as it then is, host and newcomer included, if the room exists and has fewer members than its maximum; otherwise with a failure, and nothing else happens |
| `Views.LeaveAnswered` | PacketHandler.cpp:186-204 | A leave is answered with exactly the rooms whose name has the query in it, whether or not there was a room to leave; the session then believes it is in none and is not a member of the one it left |
| `Views.JoinThenLeave` | Room.cpp:46-63 | Leaving undoes joining, except that a session under the host's id passes the host's place on |
| `Views.CreateThenLeave` | RoomManager.cpp:25-30 | A room opened and left again is gone, and the table is as before |
| `Views.RoomHears` | Room.cpp:65-99 | Over runs in which nobody enters a room while it sits in another, what a session says, if its user is on record, is heard exactly by the sessions that believe they are in its room, itself among them, and the game it starts by the others of them |
| `LobbyServer.Room.UserList` | Room.cpp:29-39 | The loop over the members builds the list of those on record |
| `LobbyServer.Room.UpdateRoomBroadcast` | Room.cpp:101-130 | Every member but the ignored one is sent the room as it stands, once, in whatever order |
| `LobbyServer.Room.Enter` | Room.cpp:5-44 | Lets the session in iff the room has fewer members than its maximum: then seats it, tells the others, and returns the response; otherwise changes nothing |
| `LobbyServer.Room.Leave` | Room.cpp:46-63 | The seat is given up, an empty room removed, the host's place passed on, the rest told, as the step function says |
| `LobbyServer.Room.Broadcast` | Room.cpp:65-86 | Every member is sent the text if the sender is on record, otherwise nobody |
| `LobbyServer.Room.StartGame` | Room.cpp:88-99 | Every member but the starter is sent the address |
| `LobbyServer.RoomManager.FreeKey` | RoomManager.cpp:7-17 | The counting loop ends, without wrapping around, at the least free key |
| `LobbyServer.RoomManager.CreateRoom` | RoomManager.cpp:3-23 | A room is filed under the least free key with its creator as host, and entered by the creator unless its maximum is 0 |
| `LobbyServer.RoomManager.RemoveRoom` | RoomManager.cpp:25-30 | The room under the converted id is gone |
| `LobbyServer.RoomManager.GetRoom` | RoomManager.cpp:32-40 | The room under the converted id, or null iff there is none |
| `LobbyServer.RoomManager.FindRooms` | RoomManager.cpp:42-57 | Exactly the rooms whose name is something, the query, and something, each with its count and maximum |
| `LobbyServer.RoomManager.CreateRoomRequest` | PacketHandler.cpp:115-128 | The handler is the create step of the lobby |
| `LobbyServer.RoomManager.FindRoomRequest` | PacketHandler.cpp:130-143 | The handler is the find step, whose answer `Effects.FindEffect` gives |
| `LobbyServer.RoomManager.JoinRoomRequest` | PacketHandler.cpp:152-177 | The handler is the join step, whose condition and answers `Effects.JoinEffect` gives |
| `LobbyServer.RoomManager.LeaveRoomRequest` | PacketHandler.cpp:186-204 | The handler is the leave step; the room list is sent even if there was no room to leave |
| `LobbyServer.RoomManager.BroadcastRequest` | PacketHandler.cpp:213-225 | The handler is the broadcast step |
| `LobbyServer.RoomManager.GameRequest` | PacketHandler.cpp:234-246 | The handler is the game step |
| `LobbyServer.RoomManager.SigninRequest` | PacketHandler.cpp:31-49 | A granted sign-in is the sign-in step; a refused one changes nothing |
| `LobbyServer.RoomManager.RegisterRequest` | PacketHandler.cpp:93-106 | The handler is the step that gives the session's user a name |
| `Registry.NameRoundTrip` | PacketHandler.cpp:256-293 | After any registrations, however ids and names repeat, creating a message by the id of a name gives that name iff it was registered and its last registration was not overwritten under the same id |
| `Registry.IdRoundTrip` | PacketHandler.cpp:256-293 | Looking up the name created by an id gives that id iff the name was not registered under another id afterwards |
| `Registry.Inverse` | PacketHandler.cpp:256-281 | With distinct ids and names the two lookups are inverse and an id leads to its handler |
| `Registry.StandardInverse` | PacketHandler.cpp:6-254 | After `Init` a type name has an id that leads back to it exactly if it is one of the nineteen, and the id leads to its handler; any other name gets the id of `Ping`; an id creates a message exactly below 19, and that message's name leads back to it |
| `Registry.StandardTable` | PacketHandler.cpp:6-254 | The table of `Init`, entry by entry: for each of the nineteen ids its type and its handler |
| `Registry.PacketHandler.Init` | PacketHandler.cpp:6-254 | The nineteen registrations fill the tables as listed |
| `Registry.PacketHandler.Register` | PacketHandler.cpp:256-266 | Both tables get the new entry |
| `Registry.PacketHandler.CreateMessageById` | PacketHandler.cpp:268-281 | The registered type, or nothing beyond the table |
| `Registry.PacketHandler.GetMessageIdByName` | PacketHandler.cpp:283-293 | The registered id, or 0 for an unknown name |
| `Registry.PacketHandler.HandlePacket` | PacketHandler.cpp:295-308 | The registered handler, or none beyond the table |
| `Dispatch.SentIsHandled` | Session.cpp:44-97 | Messages with payloads that fit, cut in any way among any other sessions: at any time, also with a frame half received, exactly the first ones were handed, as they were sent, to the handlers of their own types, or to that of `Ping` if their type is not registered, and the rest of what arrived is the beginning of the other frames; all were once all arrived and the TLS library is drained |
| `Dispatch.FrameHandled` | Session.cpp:81-97 | A framed message reaches the handler side as itself iff the id of its name creates its own type |
| `Service.ServedBytes` | PacketHandler.cpp:6-308 | On the wire: a body whose first two bytes are 0 and 2, 6, 8, 9, 11, 13, 15 or 17 signs in, registers a name, creates, finds, joins, leaves, says or starts a game, with the fields read in its payload, and any other does nothing to the lobby |
| `Service.ServedAsAsked` | Session.cpp:81-97 | A message that is encoded, framed and handled does to the lobby what its type asks for |
| `Service.SentIsServed` | Session.cpp:81-97 | Whatever a client sends, cut in any way among any other sessions: each body dispatched does to the lobby what the message sent in its place asks for |
| `Service.RequestHeard` | PacketHandler.cpp:213-246 | Over runs in which nobody enters a room while it sits in another, a `BroadcastRequest` is heard exactly by the sessions that believe they are in the sender's room, if its user is on record, and a `GameRequest` by the others of them |
| `Service.RequestJoins` | PacketHandler.cpp:152-177 | A `JoinRoomRequest` lets its session into exactly a room that exists and has fewer members than its maximum |
| `Service.Server.HandlePacket` | Session.cpp:81-97 | The message is created by its id, and its handler runs on the rooms: the lobby takes exactly the step of that body, or none |
| `Service.Server.RunHandler` | PacketHandler.cpp:6-254 | Each handler calls what it is registered to do |

## Left out

- WorkerLoop.Session.HandlePacket: only records the body; the step from a body to its handler, and to the lobby, is `Service.Server.HandlePacket`.
- OpenSSL, certificates and the handshake itself: the TLS library is two byte queues, and what it answers is a parameter of each completion.
- MySQL, password hashing and the sign-in, sign-up and name-registration replies: the user table is a map, whether it grants a sign-in is a parameter, and these replies, like `Pong`, are not among the messages of the lobby.
- The listening socket, accept, peer names, signals, logging and the choice of a worker for a new session (Worker.cpp:200-229, ThreadManager.cpp): a session simply arrives.
- Protobuf encoding: a payload is any byte sequence, and a message type stands for its type name, with `Other` for every name not registered; what protobuf reads in a payload, and whether it can, is a parameter.
- Threads and mutexes, the double lock in `Buffer::Resize` (Buffer.cpp:111-117, a branch proved unreachable), and object lifetime: handlers and completions are atomic, and sessions and rooms are named by ids, so a completion that names a removed session changes no session, where the source would follow its pointer.
- A session accepted after `Stop`: the listener has stopped by then (main.cpp:55-60), and the model admits none.
- Who is on record: `Rename` gives a name to the user id of any session, also one the user table does not know, where the source's update may find no row.
- A handler that sends while a receive is being processed: those sends come after all other effects of that receive on the sending half, as separate steps.
- A file descriptor used again before its close completion was handled; session ids are never reused.
- A submission queue that is full: a request is always posted.
- `Session::Send(const std::string&)` (Session.cpp:32-42): it has no caller, and its completion carries no context.
- The pending buffer id starts at -1, which `OnRecv` relies on (Session.cpp:333); Session.h:40 gives it no initial value.
- A frame body of fewer than two bytes: it is logged as dispatched, while `HandlePacket` reads its id beyond the frame (Session.cpp:83-85).
- A client that disconnects stays a member of its rooms in the source's tables; the lobby model has no disconnect.
- The running flag of a worker is cleared by an event of its own, before `Stop`.
- The order of user lists and room lists, which is that of a hash table, is not modelled: lists are multisets and sets.
