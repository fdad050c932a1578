/** The sequential core of MockServer's web socket callback client: the two
    callback fields and the channel field, registration of a callback, the
    handling of one inbound text frame, and shutdown.

    The state is an immutable record and every operation a pure function of
    it. A Java exception becomes a `Failure` (or the `thrown` field of an
    `Effect`); a frame passed to `channel.writeAndFlush` becomes an element of
    `sent`. Callbacks are function values chosen by the caller; the serializer
    is out of the picture because messages arrive already deserialized and
    frames carry the outbound object together with its correlation id. */
module WebSocketClient {
  import opened Wrappers

  /** The value of the correlation header, copied from request to reply. */
  type CorrelationId = string

  /** The `channel` field: an open channel, a channel that is no longer open
      although the field still holds it (the peer closed it), or `null` after
      `stopClient`. */
  datatype Channel = Open | Closed | Null

  /** The exceptions the client throws, wraps or inspects. */
  datatype Throwable =
    | IllegalArgumentException(message: string)
    | WebSocketException(message: string, cause: Option<Throwable>)
    | NullPointerException
    | ExecutionException(reason: Throwable)
    | CancellationException
    | InterruptedException
      /** Any other `Exception` (not an `Error`), raised by a callback or by the deserializer. */
    | Raised(className: string, message: string)

  /** A message as the serializer hands it over: an HTTP request, an HTTP
      response, the client-id registration message, or some other object. */
  datatype Message<Req, Resp> =
    | RequestMsg(request: Req)
    | ResponseMsg(response: Resp)
    | ClientIdMsg(clientId: string)
    | OtherMsg(className: string)

  /** An outbound frame: the callback's result stamped with a correlation id. */
  datatype Frame<Req, Resp> =
    | ResponseFrame(response: Resp, correlationId: CorrelationId)
    | ForwardFrame(request: Req, correlationId: CorrelationId)

  /** `ExpectationResponseCallback.handle`: a request to a response, or an exception. */
  type ResponseCallback<!Req, Resp> = Req -> Result<Resp, Throwable>

  /** `ExpectationForwardCallback.handle`: a request to the request to forward, or an exception. */
  type ForwardCallback<!Req> = Req -> Result<Req, Throwable>

  /** The mutable fields of one client, `None` standing for `null`. */
  datatype Client<!Req, Resp> = Client(
    channel: Channel,
    responseCallback: Option<ResponseCallback<Req, Resp>>,
    forwardCallback: Option<ForwardCallback<Req>>)

  /** What the environment supplies to frame handling: the reading of the
      correlation header of a request, and `toString` of a message. */
  datatype Env<!Req, !Resp> = Env(
    correlationOf: Req -> CorrelationId,
    describe: Message<Req, Resp> -> string)

  /** The observable result of handling one frame: the frames written, in
      order, and the exception that escapes, if any. */
  datatype Effect<Req, Resp> = Effect(sent: seq<Frame<Req, Resp>>, thrown: Option<Throwable>)

  const ResponseAfterForward := "It is not possible to set response callback once a forward callback has been set"
  const ForwardAfterResponse := "It is not possible to set forward callback once a response callback has been set"
  const ReceiveFailure := "Exception while receiving web socket message"
  const UnsupportedPrefix := "Unsupported web socket message "

  /** The state a successful constructor leaves: a connected channel and no callback. */
  function Connected<Req, Resp>(): (c: Client<Req, Resp>)
    ensures c.channel == Open
    ensures Exclusive(c) && BoundCount(c) == 0
  {
    Client(Open, None, None)
  }

  /** At most one kind of callback is set. */
  predicate Exclusive<Req, Resp>(c: Client<Req, Resp>) {
    c.responseCallback.None? || c.forwardCallback.None?
  }

  /** How many callbacks are set. */
  function BoundCount<Req, Resp>(c: Client<Req, Resp>): nat {
    (if c.responseCallback.Some? then 1 else 0) + (if c.forwardCallback.Some? then 1 else 0)
  }

  /** `registerExpectationCallback(ExpectationResponseCallback)`. Passing
      `None` models passing `null`, which clears the field. */
  function RegisterResponseCallback<Req, Resp>(c: Client<Req, Resp>, cb: Option<ResponseCallback<Req, Resp>>)
    : (r: Result<Client<Req, Resp>, Throwable>)
    ensures r.Success? <==> c.forwardCallback.None?
    ensures r.Success? ==> r.value.responseCallback == cb
    ensures r.Success? ==> r.value.forwardCallback == c.forwardCallback && r.value.channel == c.channel
    ensures r.Success? ==> Exclusive(r.value)
    ensures r.Failure? ==> r.error == IllegalArgumentException(ResponseAfterForward)
  {
    if c.forwardCallback.None? then
      Success(c.(responseCallback := cb))
    else
      Failure(IllegalArgumentException(ResponseAfterForward))
  }

  /** `registerExpectationCallback(ExpectationForwardCallback)`, the mirror image. */
  function RegisterForwardCallback<Req, Resp>(c: Client<Req, Resp>, cb: Option<ForwardCallback<Req>>)
    : (r: Result<Client<Req, Resp>, Throwable>)
    ensures r.Success? <==> c.responseCallback.None?
    ensures r.Success? ==> r.value.forwardCallback == cb
    ensures r.Success? ==> r.value.responseCallback == c.responseCallback && r.value.channel == c.channel
    ensures r.Success? ==> Exclusive(r.value)
    ensures r.Failure? ==> r.error == IllegalArgumentException(ForwardAfterResponse)
  {
    if c.responseCallback.None? then
      Success(c.(forwardCallback := cb))
    else
      Failure(IllegalArgumentException(ForwardAfterResponse))
  }

  /** `channel.writeAndFlush(frame)`: dereferencing a null channel throws; a
      channel that is not null accepts the frame (on a closed channel Netty
      fails the returned future, which nobody inspects). */
  function Write<Req, Resp>(channel: Channel, frame: Frame<Req, Resp>): Result<seq<Frame<Req, Resp>>, Throwable> {
    if channel == Null then Failure(NullPointerException) else Success([frame])
  }

  /** The response-callback branch of the request case. */
  function RespondStage<Req, Resp>(c: Client<Req, Resp>, request: Req, id: CorrelationId)
    : Result<seq<Frame<Req, Resp>>, Throwable>
  {
    match c.responseCallback
    case None => Success([])
    case Some(cb) =>
      match cb(request)
      case Failure(e) => Failure(e)
      case Success(response) => Write(c.channel, ResponseFrame(response, id))
  }

  /** The forward-callback branch of the request case. */
  function ForwardStage<Req, Resp>(c: Client<Req, Resp>, request: Req, id: CorrelationId)
    : Result<seq<Frame<Req, Resp>>, Throwable>
  {
    match c.forwardCallback
    case None => Success([])
    case Some(cb) =>
      match cb(request)
      case Failure(e) => Failure(e)
      case Success(forwarded) => Write(c.channel, ForwardFrame(forwarded, id))
  }

  /** The catch-all of `receivedTextWebSocketFrame`: every exception leaves
      it wrapped once. */
  function Wrap(cause: Throwable): Throwable {
    WebSocketException(ReceiveFailure, Some(cause))
  }

  /** Every frame produced by a callback, with the callback that produced it. */
  ghost predicate FramesFromCallbacks<Req, Resp>(c: Client<Req, Resp>, request: Req, id: CorrelationId, sent: seq<Frame<Req, Resp>>) {
    forall f <- sent ::
      && f.correlationId == id
      && (f.ResponseFrame? ==> c.responseCallback.Some? && c.responseCallback.value(request) == Success(f.response))
      && (f.ForwardFrame? ==> c.forwardCallback.Some? && c.forwardCallback.value(request) == Success(f.request))
  }

  /** `receivedTextWebSocketFrame`, given what the deserializer made of the
      frame's text. The client's fields are not changed by it. */
  function Receive<Req, Resp>(c: Client<Req, Resp>, decoded: Result<Message<Req, Resp>, Throwable>, env: Env<Req, Resp>)
    : (e: Effect<Req, Resp>)
    ensures |e.sent| <= BoundCount(c)
    ensures decoded.Success? && decoded.value.RequestMsg? ==>
      FramesFromCallbacks(c, decoded.value.request, env.correlationOf(decoded.value.request), e.sent)
    ensures !(decoded.Success? && decoded.value.RequestMsg?) ==> e.sent == []
    ensures e.thrown.Some? ==> e.thrown.value.WebSocketException? && e.thrown.value.message == ReceiveFailure
    ensures decoded.Success? && decoded.value.ClientIdMsg? ==> e.thrown.None?
    ensures decoded.Success? && (decoded.value.ResponseMsg? || decoded.value.OtherMsg?) ==>
      e.thrown == Some(Wrap(WebSocketException(UnsupportedPrefix + env.describe(decoded.value), None)))
    ensures decoded.Failure? ==> e.thrown == Some(Wrap(decoded.error))
  {
    match decoded
    case Failure(cause) => Effect([], Some(Wrap(cause)))
    case Success(RequestMsg(request)) =>
      var id := env.correlationOf(request);
      var first := RespondStage(c, request, id);
      if first.Failure? then
        Effect([], Some(Wrap(first.error)))
      else
        var second := ForwardStage(c, request, id);
        if second.Failure? then
          Effect(first.value, Some(Wrap(second.error)))
        else
          Effect(first.value + second.value, None)
    case Success(ClientIdMsg(_)) => Effect([], None)
    case Success(m) =>
      Effect([], Some(Wrap(WebSocketException(UnsupportedPrefix + env.describe(m), None))))
  }

  /** `stopClient`: an open channel is closed and the field set to null;
      otherwise nothing happens. */
  function StopClient<Req, Resp>(c: Client<Req, Resp>): (r: Client<Req, Resp>)
    ensures r.channel != Open
    ensures c.channel == Open ==> r.channel == Null
    ensures c.channel != Open ==> r == c
    ensures r.responseCallback == c.responseCallback && r.forwardCallback == c.forwardCallback
  {
    if c.channel == Open then c.(channel := Null) else c
  }

  lemma StopClientIdempotent<Req, Resp>(c: Client<Req, Resp>)
    ensures StopClient(StopClient(c)) == StopClient(c)
  {
  }

  /** Registering a response callback twice with no forward callback set:
      both succeed and the second one wins. */
  lemma ResponseCallbackLastWriteWins<Req, Resp>(c: Client<Req, Resp>, a: Option<ResponseCallback<Req, Resp>>, b: Option<ResponseCallback<Req, Resp>>)
    requires c.forwardCallback.None?
    ensures RegisterResponseCallback(c, a).Success?
    ensures RegisterResponseCallback(RegisterResponseCallback(c, a).value, b) == RegisterResponseCallback(c, b)
    ensures RegisterResponseCallback(c, b).value.responseCallback == b
  {
  }

  lemma ForwardCallbackLastWriteWins<Req, Resp>(c: Client<Req, Resp>, a: Option<ForwardCallback<Req>>, b: Option<ForwardCallback<Req>>)
    requires c.responseCallback.None?
    ensures RegisterForwardCallback(c, a).Success?
    ensures RegisterForwardCallback(RegisterForwardCallback(c, a).value, b) == RegisterForwardCallback(c, b)
    ensures RegisterForwardCallback(c, b).value.forwardCallback == b
  {
  }

  /** A request meeting only a response callback yields exactly one frame:
      the callback's response stamped with the request's correlation id. */
  lemma DispatchToResponseCallback<Req, Resp>(c: Client<Req, Resp>, request: Req, response: Resp, env: Env<Req, Resp>)
    requires c.responseCallback.Some? && c.forwardCallback.None? && c.channel != Null
    requires c.responseCallback.value(request) == Success(response)
    ensures Receive(c, Success(RequestMsg(request)), env)
      == Effect([ResponseFrame(response, env.correlationOf(request))], None)
  {
  }

  /** A request meeting only a forward callback yields exactly one frame:
      the forwarded request stamped with the inbound correlation id. */
  lemma DispatchToForwardCallback<Req, Resp>(c: Client<Req, Resp>, request: Req, forwarded: Req, env: Env<Req, Resp>)
    requires c.forwardCallback.Some? && c.responseCallback.None? && c.channel != Null
    requires c.forwardCallback.value(request) == Success(forwarded)
    ensures Receive(c, Success(RequestMsg(request)), env)
      == Effect([ForwardFrame(forwarded, env.correlationOf(request))], None)
  {
  }

  /** With no callback set a request is dropped silently. */
  lemma DispatchUnbound<Req, Resp>(c: Client<Req, Resp>, request: Req, env: Env<Req, Resp>)
    requires c.responseCallback.None? && c.forwardCallback.None?
    ensures Receive(c, Success(RequestMsg(request)), env) == Effect([], None)
  {
  }

  /** A callback that throws: nothing is written and its exception escapes wrapped. */
  lemma DispatchCallbackThrows<Req, Resp>(c: Client<Req, Resp>, request: Req, cause: Throwable, env: Env<Req, Resp>)
    requires Exclusive(c)
    requires (c.responseCallback.Some? && c.responseCallback.value(request) == Failure(cause))
          || (c.forwardCallback.Some? && c.forwardCallback.value(request) == Failure(cause))
    ensures Receive(c, Success(RequestMsg(request)), env) == Effect([], Some(Wrap(cause)))
  {
  }

  /** After `stopClient` the channel field is null: a request whose callback
      returns normally ends in a wrapped NullPointerException at the write,
      and nothing is written. */
  lemma DispatchAfterStop<Req, Resp>(c: Client<Req, Resp>, request: Req, env: Env<Req, Resp>)
    requires Exclusive(c) && c.channel == Null
    requires (c.responseCallback.Some? && c.responseCallback.value(request).Success?)
          || (c.forwardCallback.Some? && c.forwardCallback.value(request).Success?)
    ensures Receive(c, Success(RequestMsg(request)), env) == Effect([], Some(Wrap(NullPointerException)))
  {
  }
}
