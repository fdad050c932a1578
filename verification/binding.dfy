/** A reference definition of the callback registry and of request dispatch
    over a single tagged binding, Unbound | response callback | forward
    callback, where exclusivity holds by construction. The lemmas show that
    the client's two nullable fields behave exactly like it whenever at most
    one of them is set. */
module Binding {
  import opened Wrappers
  import opened WebSocketClient

  datatype CallbackBinding<!Req, Resp> =
    | Unbound
    | ResponseBound(respond: ResponseCallback<Req, Resp>)
    | ForwardBound(forward: ForwardCallback<Req>)

  /** The binding two exclusive fields stand for. */
  function Abstract<Req, Resp>(c: Client<Req, Resp>): CallbackBinding<Req, Resp>
    requires Exclusive(c)
  {
    if c.responseCallback.Some? then ResponseBound(c.responseCallback.value)
    else if c.forwardCallback.Some? then ForwardBound(c.forwardCallback.value)
    else Unbound
  }

  /** Binding a response callback (or clearing it, with `None`): refused only
      while a forward callback is bound. */
  function BindResponse<Req, Resp>(b: CallbackBinding<Req, Resp>, cb: Option<ResponseCallback<Req, Resp>>)
    : (r: Result<CallbackBinding<Req, Resp>, Throwable>)
    ensures r.Failure? <==> b.ForwardBound?
  {
    if b.ForwardBound? then Failure(IllegalArgumentException(ResponseAfterForward))
    else if cb.Some? then Success(ResponseBound(cb.value))
    else Success(Unbound)
  }

  function BindForward<Req, Resp>(b: CallbackBinding<Req, Resp>, cb: Option<ForwardCallback<Req>>)
    : (r: Result<CallbackBinding<Req, Resp>, Throwable>)
    ensures r.Failure? <==> b.ResponseBound?
  {
    if b.ResponseBound? then Failure(IllegalArgumentException(ForwardAfterResponse))
    else if cb.Some? then Success(ForwardBound(cb.value))
    else Success(Unbound)
  }

  /** Dispatch of one request over a binding: at most one callback runs and
      at most one frame, carrying `id`, is written. */
  function DispatchSpec<Req, Resp>(b: CallbackBinding<Req, Resp>, channel: Channel, request: Req, id: CorrelationId)
    : (e: Effect<Req, Resp>)
    ensures |e.sent| <= 1
    ensures forall f <- e.sent :: f.correlationId == id
    ensures b.Unbound? ==> e == Effect([], None)
    ensures e.sent != [] <==> e.thrown.None? && !b.Unbound?
  {
    match b
    case Unbound => Effect([], None)
    case ResponseBound(cb) =>
      (match cb(request)
       case Failure(cause) => Effect([], Some(Wrap(cause)))
       case Success(response) =>
         if channel == Null then Effect([], Some(Wrap(NullPointerException)))
         else Effect([ResponseFrame(response, id)], None))
    case ForwardBound(cb) =>
      match cb(request)
      case Failure(cause) => Effect([], Some(Wrap(cause)))
      case Success(forwarded) =>
        if channel == Null then Effect([], Some(Wrap(NullPointerException)))
        else Effect([ForwardFrame(forwarded, id)], None)
  }

  /** Registering a response callback on exclusive fields is binding it on the
      abstract binding: same success, same error, same resulting binding. */
  lemma RegisterResponseRefinesBind<Req, Resp>(c: Client<Req, Resp>, cb: Option<ResponseCallback<Req, Resp>>)
    requires Exclusive(c)
    ensures var r := RegisterResponseCallback(c, cb);
      && (r.Success? <==> BindResponse(Abstract(c), cb).Success?)
      && (r.Success? ==> Abstract(r.value) == BindResponse(Abstract(c), cb).value && r.value.channel == c.channel)
      && (r.Failure? ==> r.error == BindResponse(Abstract(c), cb).error)
  {
  }

  lemma RegisterForwardRefinesBind<Req, Resp>(c: Client<Req, Resp>, cb: Option<ForwardCallback<Req>>)
    requires Exclusive(c)
    ensures var r := RegisterForwardCallback(c, cb);
      && (r.Success? <==> BindForward(Abstract(c), cb).Success?)
      && (r.Success? ==> Abstract(r.value) == BindForward(Abstract(c), cb).value && r.value.channel == c.channel)
      && (r.Failure? ==> r.error == BindForward(Abstract(c), cb).error)
  {
  }

  /** On exclusive fields, handling a request frame is the reference dispatch
      over the abstract binding with the request's own correlation id. */
  lemma ReceiveRefinesDispatch<Req, Resp>(c: Client<Req, Resp>, request: Req, env: Env<Req, Resp>)
    requires Exclusive(c)
    ensures Receive(c, Success(RequestMsg(request)), env)
      == DispatchSpec(Abstract(c), c.channel, request, env.correlationOf(request))
  {
  }

  /** Hence on exclusive fields a request produces at most one frame. */
  lemma ExclusiveReceiveSendsAtMostOne<Req, Resp>(c: Client<Req, Resp>, request: Req, env: Env<Req, Resp>)
    requires Exclusive(c)
    ensures |Receive(c, Success(RequestMsg(request)), env).sent| <= 1
  {
    ReceiveRefinesDispatch(c, request, env);
  }
}
