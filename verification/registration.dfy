/** `clientId`: reading the registration future and mapping its failure to
    the error the caller sees. The future's blocking and its resolution by
    the channel handler are outside this model; what is modelled is how the
    settled future is turned into a result. */
module Registration {
  import opened Wrappers
  import opened WebSocketClient

  /** How `registrationFuture.get()` ends. */
  datatype Settled =
    | Resolved(clientId: string)
      /** The handler set the future's exception to `cause`. */
    | Failed(cause: Throwable)
    | Cancelled
    | Interrupted

  /** The message of the server's rejection of a client that sets both
      callback kinds; recognised inside a cause and passed on verbatim. */
  const ConflictText := "ExpectationResponseCallback and ExpectationForwardCallback is not supported"
  const RetrievalFailure := "Unable to retrieve client registration id"

  /** Java's `String.contains`: `part` occurs in `s` at some offset. */
  predicate Contains(s: string, part: string) {
    exists i | 0 <= i <= |s| - |part| :: part <= s[i..]
  }

  /** The generic message cannot be mistaken for the conflict rejection: it
      is too short to contain it. */
  lemma GenericMessageIsNoConflict()
    ensures !Contains(RetrievalFailure, ConflictText)
  {
  }

  /** The exception `get()` throws when the future does not yield a value. */
  function Thrown(s: Settled): Throwable
    requires !s.Resolved?
  {
    match s
    case Failed(cause) => ExecutionException(cause)
    case Cancelled => CancellationException
    case Interrupted => InterruptedException
  }

  /** `Throwable.getCause()`. */
  function CauseOf(t: Throwable): Option<Throwable> {
    match t
    case WebSocketException(_, cause) => cause
    case ExecutionException(reason) => Some(reason)
    case _ => None
  }

  /** A cause the client recognises as the server's callback-conflict rejection. */
  predicate IsConflict(cause: Option<Throwable>) {
    cause.Some? && cause.value.WebSocketException? && Contains(cause.value.message, ConflictText)
  }

  /** `clientId()`: the registered id, or a WebSocketException whose message
      is the conflict rejection's own text when that was the cause, and a
      generic message otherwise. `GenericMessageIsNoConflict` is what keeps
      the two outcomes apart. */
  function ClientId(s: Settled): (r: Result<string, Throwable>)
    ensures r.Success? <==> s.Resolved?
    ensures s.Resolved? ==> r.value == s.clientId
    ensures r.Failure? ==> r.error.WebSocketException?
    ensures r.Failure? ==>
      (Contains(r.error.message, ConflictText) <==> s.Failed? && IsConflict(Some(s.cause)))
    ensures s.Failed? && IsConflict(Some(s.cause)) ==> r.error.message == s.cause.message
    ensures r.Failure? && !(s.Failed? && IsConflict(Some(s.cause))) ==>
      r.error == WebSocketException(RetrievalFailure, Some(Thrown(s)))
  {
    if s.Resolved? then
      Success(s.clientId)
    else
      var e := Thrown(s);
      if IsConflict(CauseOf(e)) then
        Failure(WebSocketException(CauseOf(e).value.message, None))
      else
        GenericMessageIsNoConflict();
        Failure(WebSocketException(RetrievalFailure, Some(e)))
  }
}
