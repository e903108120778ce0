# Chat server core: Hub registry and client session

A Dafny model of the core of a Go chat server. Users hold WebSocket sessions.
A single Hub event loop keeps a registry from user id to live session, and it
routes messages. Each message is checked against the store, inserted into the
message log, and then handed to the recipient's outbound queue. A recipient
whose queue cannot take a message right away is dropped: its queue is closed
and its registry entry is deleted. Each session also runs three loops:

- a reader that forwards inbound messages to the Hub;
- a writer that sends queued messages as text frames and sends keepalive pings;
- a listener on the session's broker topic that feeds broker payloads back into the Hub.

The model has five modules:

- `ChatHub` (`hub.dfy`, internal/hub.go). The three handlers are pure step
  functions over a `HubState`. The state holds the registry, the set of closed
  queues, the store's users, the message log, and the history of queue
  hand-offs. `Run` is a fold of the handlers over a sequence of events. The
  class `Hub` keeps the same state in fields and updates it in place. Each of
  its methods is proved against the matching step function. Go panics are
  modelled explicitly: closing a closed channel, and sending on one. A step
  that would panic yields `None`, and `Run` reports the index of the event
  that panicked.
- `ChatClient` (`client.dfy`, internal/client.go). This holds the `Message`
  record, the session class `Client` (object identity stands for the Go
  pointer), the keepalive constants, the broker topic, the listener loop and
  the reader loop.
- `ClientWriter` (`writer.dfy`, internal/client.go). This is the writer loop,
  modelled as a state machine over received messages, a closed queue and
  ticks. It includes the frame-batching buffer exactly as written.
- `Filenames` (`filenames.dfy`, utils/password.go). This is the upload file
  name: a generated id followed by the original name's extension.
- `Decimal` (`decimal.dfy`). This is the `%d` rendering used for topic names,
  together with its inverse.

Inputs the code does not decide are parameters or event fields:

- whether the store insert succeeds;
- whether a queue can accept a message now;
- what the socket reads and write calls return;
- what the broker delivers;
- the JSON encoder, written `enc`;
- the generated UUID string.

## Model

| member | source | states |
|---|---|---|
| `ChatHub.Hub.constructor` | internal/hub.go:22-32 | NewHub starts with an empty registry, no closed queues, an empty log and no deliveries |
| `ChatHub.RegisterStep` | internal/hub.go:51-56 | the session becomes the registered one for its user id. An earlier session under that key is replaced and its queue is not closed. Every other key, the closed set, the log and the deliveries are unchanged. Keying by user id is preserved |
| `ChatHub.Hub.HandleUserRegisterEvent` | internal/hub.go:51-56 | the in-place update equals `RegisterStep` of the old state and keeps the registry keyed by user id |
| `ChatHub.UnregisterStep` | internal/hub.go:59-66 | with the key present, the key is deleted and the passed session's queue is closed, whichever session held the key. With the key absent, nothing changes. It panics exactly when the key is present and the passed queue is already closed |
| `ChatHub.Hub.HandleUserDisconnectEvent` | internal/hub.go:59-66 | the in-place update equals `UnregisterStep`. It requires that it does not close a closed channel |
| `ChatHub.Hub.CloseQueue` | internal/hub.go:62 | `close(sendTo)` adds the session to the closed set. The queue must not already be closed, because Go panics otherwise |
| `ChatHub.RouteStep` | internal/hub.go:69-107 | with a failed lookup of `From` or `To`, or a failed insert, nothing changes. Otherwise the message is logged once. A registered recipient whose queue accepts gets exactly this message and the registry is unchanged. One whose queue does not accept is closed and its key deleted, with no delivery. An unregistered recipient gets nothing and the registry and queues are untouched. A delivery only ever goes to the registered session of `To`. It panics exactly when that session's queue is already closed |
| `ChatHub.Hub.HandleMessageBroadcast` | internal/hub.go:69-107 | the in-place update equals `RouteStep`. It requires that it does not send on a closed channel |
| `ChatHub.Step` | internal/hub.go:36-47 | each handled event keeps the store's users, only appends to the log, never reopens a queue, and keeps keying by user id |
| `ChatHub.RunFrom` | internal/hub.go:35-48 | over a run of events: the users are fixed, the log is append-only, closed queues stay closed, and keying is kept. A crash names an event of the run that panics in the state it found |
| `ChatHub.Hub.Run` | internal/hub.go:35-48 | the event loop's in-place state, and the index of a panicking event if there is one, equal the fold `RunEvents` |
| `ChatHub.CreateNewSocketUser` | internal/client.go:142-157 | a fresh session with an open queue for the user id is registered with the Hub |
| `ChatHub.UnregisterTwiceIsNoOp` | internal/hub.go:59-66 | a repeated unregister of the same session changes nothing |
| `ChatHub.StaleUnregisterOrphansCurrent` | internal/hub.go:60-62 | unregistering a stale session removes the current session of that user without closing its queue, and closes the stale one |
| `ChatHub.ReRegisterOrphansPrevious` | internal/hub.go:53 | a re-registration leaves the earlier session unregistered with its queue open |
| `ChatHub.RegisterThenUnregisterCloses` | internal/hub.go:51-66 | Register(c) followed by Unregister(c) closes c's queue and removes its key, under either unregister policy |
| `ChatHub.BrokerMessageReachesOwnSession` | internal/hub.go:92-96 | a broker-synthesised message for user u is logged as u-to-u and handed to u's registered session when its queue accepts |
| `ChatHub.DoubleCloseAfterDropAndReregister` | internal/hub.go:59-66 | the trace Register(a), a dropped delivery to a, Register(b) for the same user, Unregister(a) panics at the last event by closing a's queue twice |
| `ChatHub.UnregisterOwnedStep` | internal/hub.go:59-66 | the corrected unregister removes and closes only the session that is registered under the key |
| `ChatHub.OwnerCheckedStepKeepsHealth` | internal/hub.go:59-107 | with the owner check, a healthy Hub stays healthy and never panics. Healthy means keyed by user id, with no registered session closed. A queue is closed only when its session leaves the registry |
| `ChatHub.OwnerCheckedRunNeverCrashes` | internal/hub.go:35-107 | with the owner check and sessions registered once, every run from a healthy Hub completes and ends healthy |
| `ChatHub.OwnerCheckedHubNeverCrashes` | internal/hub.go:35-66 | from NewHub, the owner-checked loop never closes a queue twice, for any event order in which each session registers once |
| `ChatClient.Client.constructor` | internal/client.go:144-150 | a session carries the user id it was created for |
| `ChatClient.PingPeriodBeforePongWait` | internal/client.go:19-23 | the ping period is 54 s, strictly less than the 60 s pong wait |
| `ChatClient.Topic` | internal/client.go:127 | the topic is "user_" followed by a canonical decimal (no leading zero, no "-0") that reads back as the user id |
| `ChatClient.TopicInjective` | internal/client.go:127 | distinct users subscribe to distinct topics |
| `ChatClient.TopicIsUnique` | internal/client.go:127 | any "user_" string whose suffix is a canonical decimal of the user id equals the topic, byte for byte |
| `ChatClient.BrokerMessage` | internal/client.go:134-138 | a broker payload becomes a message from the session's user to itself, with the payload as content |
| `ChatClient.SubscribeToRedis` | internal/client.go:125-141 | subscribes to the session's topic and submits exactly one message per payload, in order, each from and to the session's user with that payload |
| `ChatClient.AcceptedPrefix` | internal/client.go:54-66 | the reads before the first one the reader rejects: an oversized frame, an undecodable frame or a connection error |
| `ChatClient.ReaderSpec` | internal/client.go:48-72 | each accepted message is forwarded unchanged, with no check of `From` against the session. The first rejected read ends the loop with the connection closed and then the session sent to unregister |
| `ChatClient.ReadPump` | internal/client.go:48-72 | the reader loop's effects equal `ReaderSpec` |
| `ChatClient.ReaderUnregistersOnce` | internal/client.go:50-53 | the session is sent to unregister exactly once when the reader stops, as its last effect after closing the connection, and never while it runs |
| `ClientWriter.EncodeBatch` | internal/client.go:89-107 | the text frame is the concatenation of growing prefixes: `enc(m1)`, then `enc(m1)+enc(m2)`, and so on up to the whole batch |
| `ClientWriter.BatchFrameEndsWithAll` | internal/client.go:99-106 | every batch frame ends with the encodings of the whole batch, in order |
| `ClientWriter.BatchFrameSingle` | internal/client.go:89-100 | with nothing drained, the frame is the message's own encoding |
| `ClientWriter.WriterStep` | internal/client.go:80-118 | per event: a closed queue gives exactly one close frame and a stop, and only it gives a close frame. A tick gives one ping frame and goes on exactly when the ping succeeded; only a tick gives a ping. A failed NextWriter writes nothing and stops. Otherwise one text frame is written, and the loop goes on exactly when closing the frame writer succeeded |
| `ClientWriter.HandleEvent` | internal/client.go:80-118 | one pass of the writer's select writes what `WriterStep` says |
| `ClientWriter.WritePumpSpec` | internal/client.go:79-121 | events are handled in order until the first one that stops the writer: a closed queue, a failed NextWriter, a failed frame Close or a failed ping. Nothing after it is consumed. A close frame, if written, is the last frame |
| `ClientWriter.WritePump` | internal/client.go:73-122 | the writer loop's frames, events consumed and stop flag equal `WritePumpSpec` |
| `ClientWriter.ClosedQueueEndsRun` | internal/client.go:81-87 | when the queue is found closed and no earlier event stopped the writer, the writer consumes that event, returns, and its last frame is the close frame |
| `ClientWriter.OnePingPerTick` | internal/client.go:113-117 | the number of ping frames equals the number of ticks the writer consumed |
| `ClientWriter.UnbufferedFramesCarryOneMessage` | internal/client.go:103-107 | when nothing is ever queued (the queue is unbuffered, client.go:148), every text frame is the encoding of one received message |
| `ClientWriter.BatchFrameRepeatsFirst` | internal/client.go:103-106 | a drained batch of two or more messages starts `enc(m1)+enc(m1)+enc(m2)` and is longer than the batch's encodings |
| `ClientWriter.IntendedBatchIsTransparent` | internal/client.go:102-107 | with each message encoded once, one frame for `a + b` carries the same bytes as a frame for `a` followed by a frame for `b` |
| `Decimal.IntString` | internal/client.go:127 | `%d` gives a canonical decimal: an optional '-', present exactly for negatives, then digits with no leading zero |
| `Decimal.IntStringRoundTrip` | internal/client.go:127 | reading the `%d` text back gives the same integer |
| `Decimal.IntStringInjective` | internal/client.go:127 | distinct integers print as distinct `%d` texts |
| `Decimal.CanonicalIsPrinted` | internal/client.go:127 | every canonical decimal is the `%d` text of the integer it denotes, so the `%d` text is the only canonical decimal for that integer |
| `Filenames.LastIndex` | utils/password.go:27 | the result is the last index of the character, or -1 when it does not occur |
| `Filenames.GenerateUniqueFilename` | utils/password.go:25-31 | with no '.', the result is the id. Otherwise it is the id followed by the name from its last '.'. The length is `len(id) + len(name) - lastDot`, or `len(id)` |
| `Filenames.ExtensionShape` | utils/password.go:27-28 | the extension is a suffix of the name. When it is not empty it starts with '.' and contains no other '.' |
| `Filenames.ExtensionExamples` | utils/password.go:27-28 | "a.tar.gz" keeps ".gz", ".env" keeps ".env" (its dot is at index 0), and "README" keeps nothing |
| `Filenames.ExtensionPreserved` | utils/password.go:25-31 | for an id with no '.', the generated name has the original name's extension |

## Left out

- Goroutines, `select` fairness, channel blocking, tickers, read and write deadlines, and the pong handler. These are concurrency and time. Whether a queue accepts now, and which case a `select` picks, are event inputs.
- WebSocket I/O and JSON decoding in the reader. Each read is an input: a frame's size and decoded message, or a connection error. The 512-byte read limit is applied to the size.
- JSON encoding. It is the parameter `enc`, the text `json.Encoder.Encode` appends, including its newline.
- Redis subscribe and publish. The payloads the broker delivers are an input sequence. The topic name is modelled.
- The store is a fixed set of existing user ids and an append-only message log. `GetUserById` fails exactly when the id is not in the set, so a database error other than "not found" is folded into that case. The outcome of `InsertMessage` is an input. The `IsSent: true` column that `chat.handler.go` writes is not modelled.
- Log output (`log.Printf`, `fmt.Printf`, the reader's log of unexpected close errors).
- HTTP and gin wiring, login and signup, and the token check before the upgrade. The router calls `CreateNewSocketUser` with three arguments against four parameters (internal/routes.go:64). The model's `CreateNewSocketUser` takes the Hub and the user id only. The connection and the broker client are not state of the model.
- bcrypt `HashPassword` and `CheckPassword` (foreign crypto), and `uuid.New` (randomness). The id is a parameter of `GenerateUniqueFilename`.
- Filenames.GenerateUniqueFilename: lengths and indices are counted in characters, whereas Go counts bytes. The two agree for ASCII names. A '.' is never part of a multi-byte UTF-8 sequence, so the same extension is kept.
- ChatHub.Hub.Run: when a handler panics, the reported state is the one the event found. Go has already deleted the key in `HandleUserDisconnectEvent` before the panicking `close`, but the process ends there.
- ClientWriter.WritePumpSpec: a frame whose writer `Close` fails is still listed as written. Likewise a failed ping (`Tick(false)`) is listed as a written `PingFrame`, and `OnePingPerTick` counts it. The model lists write attempts; it does not say how much of a failed write reached the peer.
- User ids are unbounded integers. The source uses `int64`, but the core does no arithmetic on them.

## Findings

| source | as written | input that shows it | evidently intended | confidence | as-written member | corrected member |
|---|---|---|---|---|---|---|
| internal/hub.go:59-66 | Unregister tests only that the user id is registered, then deletes that key and closes the passed session's queue | Register(a); a route to a's user whose queue does not accept, which closes a's queue and removes a; Register(b) for the same user; Unregister(a) sent by a's reader. a's queue is closed a second time, which panics, and b is removed without being closed | remove and close only when the registered session under the key is the one unregistering, so that each queue is closed at most once and only when its session leaves the registry | high; not executed | `ChatHub.DoubleCloseAfterDropAndReregister` | `ChatHub.OwnerCheckedHubNeverCrashes` |
| internal/client.go:103-106 | after each drained message, the whole accumulated buffer is written into the frame again | a batch [m1, m2] gives the frame `enc(m1)+enc(m1)+enc(m2)`, so the peer receives m1 twice | write each drained message's encoding once, so that a batched frame carries the same bytes as separate frames | medium: the queue is unbuffered (client.go:148), so `len(sendTo)` is 0 and the drain never runs as the code stands; not executed | `ClientWriter.BatchFrameRepeatsFirst` | `ClientWriter.IntendedBatchIsTransparent` |

The event loop is modelled under both policies. `RunFrom` takes the
unregister policy as a parameter: `ByKey` is the code as written, which is
what `Hub.Run` implements, and `ByOwner` is the corrected check. The writer
model keeps the frame as the code builds it. `IntendedBatchFrame` is the
corrected frame.
