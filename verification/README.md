# MockServer web socket callback client, modelled in Dafny

MockServer's `WebSocketClient` connects to a MockServer instance over a web
socket. The server pushes intercepted HTTP requests down that socket, and
the client replies to each one by running a locally registered callback.
There are two kinds of callback:

- a response callback, which turns a request into an HTTP response;
- a forward callback, which turns a request into a request to forward.

Each reply carries the correlation id of the request it answers.

This project models the client's sequential logic as pure functions over an
immutable state. The state is the `channel` field plus the two callback
fields, with `None` standing for `null`. The model covers:

- callback registration and the rule that only one kind of callback may be set;
- the handling of one inbound text frame: classifying it, dispatching it to
  a callback, stamping the reply with the correlation id, and wrapping errors;
- `stopClient`;
- how `clientId` turns a settled registration future into an id or an error.

Files:

- `wrappers.dfy`: `Option` and `Result`.
- `websocket_client.dfy` (module `WebSocketClient`): the state, messages,
  frames and exceptions, and the operations of the class.
- `registration.dfy` (module `Registration`): `clientId`.
- `binding.dfy` (module `Binding`): a reference definition of the registry
  and of dispatch over one tagged binding (Unbound, response callback or
  forward callback). The client's two fields are proved to behave like it
  whenever at most one of them is set.
- `sessions.dfy` (module `Sessions`): sequences of calls made one at a
  time, together with the peer closing the connection, and the invariants
  that hold over every such sequence.

Modelling choices:

- A callback is a function value `Req -> Result<X, Throwable>`. `Failure`
  stands for an exception thrown inside the callback.
- Registering `None` models passing `null`. The Java code accepts `null`,
  and doing so clears the field.
- Frame handling receives what the deserializer produced, as a
  `Result<Message, Throwable>`. A deserializer failure is therefore wrapped
  like any other failure.
- An outbound frame is the callback's result paired with the correlation id.
  Header-map semantics and the text encoding are not modelled.
- The environment (`Env`) supplies two abstract functions: reading the
  correlation header of a request (`getFirstHeader`), and a message's
  `toString`, which is used in the "unsupported message" error text.
- Calling `writeAndFlush` through a `null` channel field (after `stopClient`)
  throws a NullPointerException. The catch-all at lines 104-105 wraps it.
  On a channel that is not null but closed, Netty fails the returned future
  and nobody inspects it. The model therefore counts that frame as handed to
  the channel, with no exception.
- If both callback fields were set, the code runs the response callback and
  then the forward callback. The model keeps that order. Frames written
  before a later failure stay in the `sent` list. Sequential registration
  never reaches this state (`Sessions.RunKeepsExclusive`).
- The model follows the code's exception classes (`IllegalArgumentException`,
  `WebSocketException`) and message texts.

## Model

| member | source | states |
|---|---|---|
| WebSocketClient.Connected | mockserver-core/src/main/java/org/mockserver/client/netty/websocket/WebSocketClient.java:43-79 | after construction the channel is open and no callback is set |
| WebSocketClient.RegisterResponseCallback | mockserver-core/src/main/java/org/mockserver/client/netty/websocket/WebSocketClient.java:120-127 | registering a response callback succeeds exactly when no forward callback is set. On success it replaces the response callback (last write wins), changes nothing else, and leaves at most one kind set. Otherwise it throws IllegalArgumentException with the source's message |
| WebSocketClient.RegisterForwardCallback | mockserver-core/src/main/java/org/mockserver/client/netty/websocket/WebSocketClient.java:129-136 | the symmetric rule for forward callbacks: succeeds exactly when no response callback is set, and otherwise throws IllegalArgumentException with its own message |
| WebSocketClient.ResponseCallbackLastWriteWins | mockserver-core/src/main/java/org/mockserver/client/netty/websocket/WebSocketClient.java:120-127 | with no forward callback set, registering a then b succeeds and gives the same state as registering b alone |
| WebSocketClient.ForwardCallbackLastWriteWins | mockserver-core/src/main/java/org/mockserver/client/netty/websocket/WebSocketClient.java:129-136 | the same for forward callbacks while no response callback is set |
| WebSocketClient.Receive | mockserver-core/src/main/java/org/mockserver/client/netty/websocket/WebSocketClient.java:85-107 | frames are written only for request messages, and at most one per set callback. Each frame carries the request's correlation id and is the result of the callback of its kind on that request. A client-id message succeeds. Any other message, or a deserializer failure, throws "Exception while receiving web socket message" wrapping the cause. Every escaping exception is wrapped that way |
| WebSocketClient.DispatchToResponseCallback | mockserver-core/src/main/java/org/mockserver/client/netty/websocket/WebSocketClient.java:88-95 | with only a response callback set, a request yields exactly one frame: the callback's response stamped with the request's correlation id. Nothing is thrown |
| WebSocketClient.DispatchToForwardCallback | mockserver-core/src/main/java/org/mockserver/client/netty/websocket/WebSocketClient.java:96-100 | with only a forward callback set, a request yields exactly one frame: the forwarded request stamped with the inbound correlation id |
| WebSocketClient.DispatchUnbound | mockserver-core/src/main/java/org/mockserver/client/netty/websocket/WebSocketClient.java:88-100 | with no callback set, a request writes nothing and throws nothing |
| WebSocketClient.DispatchCallbackThrows | mockserver-core/src/main/java/org/mockserver/client/netty/websocket/WebSocketClient.java:91-106 | if the one set callback throws, nothing is written and its exception escapes wrapped once |
| WebSocketClient.DispatchAfterStop | mockserver-core/src/main/java/org/mockserver/client/netty/websocket/WebSocketClient.java:88-106 | after stopClient, a request whose callback returns normally writes nothing and ends in a wrapped NullPointerException (a callback that throws ends in its own wrapped exception instead) |
| WebSocketClient.StopClient | mockserver-core/src/main/java/org/mockserver/client/netty/websocket/WebSocketClient.java:109-118 | an open channel is closed and the field nulled. A closed or null channel is left exactly as it was. The callbacks are untouched, and the channel is never open afterwards |
| WebSocketClient.StopClientIdempotent | mockserver-core/src/main/java/org/mockserver/client/netty/websocket/WebSocketClient.java:109-118 | stopping twice is the same as stopping once |
| Registration.GenericMessageIsNoConflict | mockserver-core/src/main/java/org/mockserver/client/netty/websocket/WebSocketClient.java:142-145 | the generic retrieval-failure text does not contain the conflict text, so the two outcomes cannot be confused |
| Registration.ClientId | mockserver-core/src/main/java/org/mockserver/client/netty/websocket/WebSocketClient.java:138-148 | a resolved future yields its id, and every failure is a WebSocketException. The surfaced message contains the callback-conflict text exactly when the future failed with a WebSocketException whose message contains it, and that message is then passed on verbatim. In every other case the error is the generic retrieval failure wrapping what get() threw |
| Binding.BindResponse | mockserver-core/src/main/java/org/mockserver/client/netty/websocket/WebSocketClient.java:120-127 | reference registry: binding a response callback is refused exactly while a forward callback is bound |
| Binding.BindForward | mockserver-core/src/main/java/org/mockserver/client/netty/websocket/WebSocketClient.java:129-136 | reference registry: binding a forward callback is refused exactly while a response callback is bound |
| Binding.DispatchSpec | mockserver-core/src/main/java/org/mockserver/client/netty/websocket/WebSocketClient.java:88-100 | reference dispatch: at most one frame, carrying the given correlation id. Nothing is written or thrown when unbound. A frame is written exactly when something is bound and nothing is thrown |
| Binding.RegisterResponseRefinesBind | mockserver-core/src/main/java/org/mockserver/client/netty/websocket/WebSocketClient.java:120-127 | on fields with at most one callback set, response registration agrees with the reference registry in success, resulting binding and error |
| Binding.RegisterForwardRefinesBind | mockserver-core/src/main/java/org/mockserver/client/netty/websocket/WebSocketClient.java:129-136 | the same for forward registration |
| Binding.ReceiveRefinesDispatch | mockserver-core/src/main/java/org/mockserver/client/netty/websocket/WebSocketClient.java:88-106 | on fields with at most one callback set, handling a request frame equals the reference dispatch with the request's own correlation id |
| Binding.ExclusiveReceiveSendsAtMostOne | mockserver-core/src/main/java/org/mockserver/client/netty/websocket/WebSocketClient.java:88-100 | on such fields, one inbound request yields at most one outbound frame |
| Sessions.Apply | mockserver-core/src/main/java/org/mockserver/client/netty/websocket/WebSocketClient.java:85-136 | each call preserves "at most one callback kind set". A call that throws leaves the state unchanged. Frame handling changes no field. The channel changes only by stopClient (open to null) or by the peer closing the connection (open to closed), and neither touches the callbacks |
| Sessions.AfterPeerClose | mockserver-core/src/main/java/org/mockserver/client/netty/websocket/WebSocketClient.java:88-118 | after the peer closes an open channel the field still holds it, closed. stopClient then leaves it as it is, and a request is handled exactly as on the open channel: the write to the closed channel throws nothing, unlike after stopClient, so a set response callback that returns normally gets exactly one frame handed over |
| Sessions.RunKeepsExclusive | mockserver-core/src/main/java/org/mockserver/client/netty/websocket/WebSocketClient.java:120-136 | no sequence of calls starting with at most one callback set ever sets both |
| Sessions.ConnectedStaysExclusive | mockserver-core/src/main/java/org/mockserver/client/netty/websocket/WebSocketClient.java:120-136 | from a freshly constructed client, no sequence of calls sets both callback kinds |
| Sessions.RunNeverReopens | mockserver-core/src/main/java/org/mockserver/client/netty/websocket/WebSocketClient.java:109-118 | a channel that is closed or null stays so through any sequence of calls |
| Sessions.TraceAtMostOnePerRequest | mockserver-core/src/main/java/org/mockserver/client/netty/websocket/WebSocketClient.java:85-136 | over any sequence of calls starting with at most one callback set, no more frames are written than request frames arrived |
| Sessions.EchoScenario | mockserver-core/src/main/java/org/mockserver/client/netty/websocket/WebSocketClient.java:88-95 | a fresh client with an echo response callback answers a request for "/x" with correlation id "Q1" with the single frame ("/x", "Q1") |

## Left out

- The constructor's Netty bootstrap, the SSL context with its trust-all manager, and the HTTP codec pipeline (lines 43-79). These are network I/O and foreign library calls. `Connected` gives only the state a successful construction leaves. A failed construction leaves no object at all.
- The blocking of `registrationFuture.get()` and the handler that completes the future. The handler is not part of this model, and blocking is concurrency. `Registration.ClientId` starts from an already settled future.
- WebSocketClient.Receive: callbacks and the deserializer are assumed to throw only `Exception`s. An `Error` (an `AssertionError` in a callback, say) is not caught by the `catch (Exception e)` at line 104, so it would escape `receivedTextWebSocketFrame` unwrapped; the model wraps every failure.
- Interruption of `channel.close().sync()` in `stopClient` (lines 115-116). This is thread interruption, which a sequential model does not have.
- Concurrent `registerExpectationCallback` calls and their check-then-set race. The model is sequential, so each call sees the state the previous one left.
- The serializer: the text format, failures of `serialize`, and header-map semantics of `getFirstHeader` and `withHeader`. Deserialization is taken as already done, and stamping pairs a payload with its correlation id.
- Delivery of written frames. A frame in `sent` has been handed to `writeAndFlush`. Whether it reaches the server is not modelled.
- A callback that returns `null`. `withHeader` would then throw a NullPointerException, which lines 104-105 wrap. The model expresses this as the callback failing with that exception.
