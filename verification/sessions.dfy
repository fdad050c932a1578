/** A client's life as a sequence of calls made one at a time: callback
    registrations, inbound frames and `stopClient`. The invariants of the
    component hold over every such sequence. */
module Sessions {
  import opened Wrappers
  import opened WebSocketClient

  datatype Event<!Req, !Resp> =
    | RegisterResponse(respond: Option<ResponseCallback<Req, Resp>>)
    | RegisterForward(forward: Option<ForwardCallback<Req>>)
    | Inbound(decoded: Result<Message<Req, Resp>, Throwable>)
    | Stop
      /** The server or the network closes the connection: no method of the
         client runs, but `channel.isOpen()` turns false. */
    | PeerClosed

  /** One call: the client afterwards, the frames written, the exception thrown. */
  datatype Step<!Req, Resp> = Step(client: Client<Req, Resp>, sent: seq<Frame<Req, Resp>>, thrown: Option<Throwable>)

  function Apply<Req, Resp>(c: Client<Req, Resp>, ev: Event<Req, Resp>, env: Env<Req, Resp>): (s: Step<Req, Resp>)
    ensures Exclusive(c) ==> Exclusive(s.client)
    ensures s.thrown.Some? ==> s.client == c
    ensures s.client.channel == c.channel
         || (c.channel == Open && ev.Stop? && s.client.channel == Null)
         || (c.channel == Open && ev.PeerClosed? && s.client.channel == Closed)
    ensures !ev.Inbound? ==> s.sent == []
    ensures ev.Inbound? ==> s.client == c
    ensures ev.Stop? || ev.PeerClosed? ==> s.thrown.None?
    ensures ev.Stop? || ev.PeerClosed? ==>
      s.client.responseCallback == c.responseCallback && s.client.forwardCallback == c.forwardCallback
  {
    match ev
    case RegisterResponse(cb) =>
      (match RegisterResponseCallback(c, cb)
       case Success(c') => Step(c', [], None)
       case Failure(e) => Step(c, [], Some(e)))
    case RegisterForward(cb) =>
      (match RegisterForwardCallback(c, cb)
       case Success(c') => Step(c', [], None)
       case Failure(e) => Step(c, [], Some(e)))
    case Inbound(decoded) =>
      var effect := Receive(c, decoded, env);
      Step(c, effect.sent, effect.thrown)
    case Stop => Step(StopClient(c), [], None)
    case PeerClosed =>
      Step(if c.channel == Open then c.(channel := Closed) else c, [], None)
  }

  /** The client after a whole sequence of calls. */
  function Run<Req, Resp>(c: Client<Req, Resp>, events: seq<Event<Req, Resp>>, env: Env<Req, Resp>): Client<Req, Resp>
    decreases |events|
  {
    if events == [] then c else Run(Apply(c, events[0], env).client, events[1..], env)
  }

  /** Every frame written during a sequence of calls, in order. */
  function Trace<Req, Resp>(c: Client<Req, Resp>, events: seq<Event<Req, Resp>>, env: Env<Req, Resp>): seq<Frame<Req, Resp>>
    decreases |events|
  {
    if events == [] then []
    else
      var s := Apply(c, events[0], env);
      s.sent + Trace(s.client, events[1..], env)
  }

  /** No sequence of calls sets both callback kinds. */
  lemma {:induction false} RunKeepsExclusive<Req, Resp>(c: Client<Req, Resp>, events: seq<Event<Req, Resp>>, env: Env<Req, Resp>)
    requires Exclusive(c)
    ensures Exclusive(Run(c, events, env))
    decreases |events|
  {
    if events != [] {
      RunKeepsExclusive(Apply(c, events[0], env).client, events[1..], env);
    }
  }

  /** From a freshly constructed client, whatever is called, at most one
      callback is ever set. */
  lemma ConnectedStaysExclusive<Req, Resp>(events: seq<Event<Req, Resp>>, env: Env<Req, Resp>)
    ensures Exclusive(Run(Connected(), events, env))
  {
    RunKeepsExclusive(Connected(), events, env);
  }

  /** A channel that is not open never becomes open again: a stopped client
      stays stopped and a closed channel stays closed. */
  lemma {:induction false} RunNeverReopens<Req, Resp>(c: Client<Req, Resp>, events: seq<Event<Req, Resp>>, env: Env<Req, Resp>)
    requires c.channel != Open
    ensures Run(c, events, env).channel == c.channel
    decreases |events|
  {
    if events != [] {
      RunNeverReopens(Apply(c, events[0], env).client, events[1..], env);
    }
  }

  /** Once the peer has closed the channel, `stopClient` finds it not open and
      leaves it in the field. A request is then handled exactly as on the open
      channel: the write to the closed channel throws nothing, unlike after
      `stopClient`, so a callback that returns normally gets its frame handed
      over without an exception. */
  lemma AfterPeerClose<Req, Resp>(c: Client<Req, Resp>, request: Req, env: Env<Req, Resp>)
    requires c.channel == Open
    ensures Apply(c, PeerClosed, env).client == c.(channel := Closed)
    ensures StopClient(c.(channel := Closed)) == c.(channel := Closed)
    ensures Receive(c.(channel := Closed), Success(RequestMsg(request)), env)
         == Receive(c, Success(RequestMsg(request)), env)
    ensures (Exclusive(c) && c.responseCallback.Some? && c.responseCallback.value(request).Success?) ==>
      (var e := Receive(c.(channel := Closed), Success(RequestMsg(request)), env);
       |e.sent| == 1 && e.thrown.None?)
  {
  }

  /** Over a run starting from exclusive fields, no more frames are written
      in total than request frames arrived. */
  lemma {:induction false} TraceAtMostOnePerRequest<Req, Resp>(c: Client<Req, Resp>, events: seq<Event<Req, Resp>>, env: Env<Req, Resp>)
    requires Exclusive(c)
    ensures |Trace(c, events, env)| <= RequestCount(events)
    decreases |events|
  {
    if events != [] {
      var s := Apply(c, events[0], env);
      assert BoundCount(c) <= 1;
      TraceAtMostOnePerRequest(s.client, events[1..], env);
    }
  }

  /** The number of inbound request frames among the calls. */
  function RequestCount<Req, Resp>(events: seq<Event<Req, Resp>>): nat
    decreases |events|
  {
    if events == [] then 0
    else
      (if events[0].Inbound? && events[0].decoded.Success? && events[0].decoded.value.RequestMsg? then 1 else 0)
      + RequestCount(events[1..])
  }

  /** A request as a pair of path and correlation header, for the scenario below. */
  datatype PathRequest = PathRequest(path: string, correlation: CorrelationId)

  /** A response callback that echoes the request path as the response body
      is registered on a fresh client; a request for "/x" with correlation id
      "Q1" then produces exactly one frame, the body "/x" stamped "Q1". */
  lemma EchoScenario(describe: Message<PathRequest, string> -> string)
    ensures
      var echo := (r: PathRequest) => Success(r.path);
      var env := Env((r: PathRequest) => r.correlation, describe);
      var events := [RegisterResponse(Some(echo)), Inbound(Success(RequestMsg(PathRequest("/x", "Q1"))))];
      Trace(Connected(), events, env) == [ResponseFrame("/x", "Q1")]
  {
    var echo := (r: PathRequest) => Success(r.path);
    var env := Env((r: PathRequest) => r.correlation, describe);
    var request := PathRequest("/x", "Q1");
    var events := [RegisterResponse(Some(echo)), Inbound(Success(RequestMsg(request)))];
    var registered := Apply(Connected(), events[0], env).client;
    assert registered == Client(Open, Some(echo), None);
    assert events[1..] == [Inbound(Success(RequestMsg(request)))];
    DispatchToResponseCallback(registered, request, "/x", env);
    assert Trace(registered, events[1..][1..], env) == [];
  }
}
