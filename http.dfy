/**
 * What the client sees of one HTTP exchange.  The transport itself is not part
 * of this model: a reply is an input, and the code only decides what it does
 * with it (`raise_for_status`, then `json()`).
 */
module Http {
  import opened Wrappers

  /** A reply with its status code and its body, if the body decodes as JSON; or no reply at all. */
  datatype Reply<T> = Reply(status: int, body: Option<T>) | TransportFailed

  /** Why a request raised instead of yielding a decoded body. */
  datatype Failure = Transport | BadStatus(code: int) | NotJson

  /** `raise_for_status` raises for the client-error and server-error ranges. */
  predicate RaisesForStatus(code: int) {
    400 <= code < 600
  }

  /** `response.raise_for_status(); response.json()` */
  function Receive<T>(r: Reply<T>): (res: Result<T, Failure>)
    ensures res.Success? <==> r.Reply? && !RaisesForStatus(r.status) && r.body.Some?
    ensures res.Success? ==> res.value == r.body.value
    ensures r.Reply? && RaisesForStatus(r.status) ==> res == Failure(BadStatus(r.status))
  {
    match r
    case TransportFailed => Failure(Transport)
    case Reply(status, body) =>
      if RaisesForStatus(status) then Failure(BadStatus(status))
      else match body
        case None => Failure(NotJson)
        case Some(b) => Success(b)
  }

  /** `response.json()` alone, with no status check: any reply with a JSON body is accepted. */
  function Decode<T>(r: Reply<T>): (res: Result<T, Failure>)
    ensures res.Success? <==> r.Reply? && r.body.Some?
    ensures res.Success? ==> res.value == r.body.value
    ensures r.TransportFailed? ==> res == Failure(Transport)
  {
    match r
    case TransportFailed => Failure(Transport)
    case Reply(_, body) =>
      match body
      case None => Failure(NotJson)
      case Some(b) => Success(b)
  }

  /** A status that makes `raise_for_status` raise still yields its body to a bare `json()`. */
  lemma DecodeIgnoresStatus<T>(r: Reply<T>)
    requires r.Reply? && r.body.Some? && RaisesForStatus(r.status)
    ensures Receive(r).Failure? && Decode(r) == Success(r.body.value)
  {
  }
}
