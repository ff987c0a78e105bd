/**
 * The credential state of a session and how `authenticate`,
 * `_get_auth_headers`, `refresh_auth_token` and `_get_floorsheet_payload_id`
 * of nepse_data_api/market.py change it, as functions from the old state and
 * the server's replies to the new state and the result.
 *
 * Python's `None` for an unset token or salt list is written as the empty
 * string or list: the code only ever tests these fields for truth, and both
 * are false.
 */
module Session {
  import opened Wrappers
  import opened Json
  import opened Wasm
  import PyInt
  import Http
  import TokenParser
  import Signer

  datatype Credentials = Credentials(accessToken: string, refreshToken: string, salts: seq<int>, tokenTimestamp: int)

  /** The state `__init__` sets up before its first authentication. */
  const Unauthenticated := Credentials("", "", [], 0)

  /** Why `authenticate` raised. */
  datatype AuthError = FetchFailed(failure: Http.Failure) | Malformed(parseError: TokenParser.ParseError)

  /**
   * `authenticate()`: fetch the scrambled reply `prove`, descramble it with the
   * client's token parser `parse`, store the triple and the clock reading `now`.
   */
  function Authenticate(c: Credentials, parse: TokenParser.Parser, prove: Http.Reply<TokenParser.AuthReply>, now: int): (r: (Credentials, Option<AuthError>))
    ensures r.1.None? <==> Http.Receive(prove).Success? && parse(Http.Receive(prove).value).Success?
    ensures r.1.Some? ==> r.0 == c
    ensures r.1.None? ==>
              var p := parse(Http.Receive(prove).value).value;
              r.0 == Credentials(p.accessToken, p.refreshToken, p.salts, now)
  {
    match Http.Receive(prove)
    case Failure(e) => (c, Some(FetchFailed(e)))
    case Success(data) =>
      match parse(data)
      case Failure(e) => (c, Some(Malformed(e)))
      case Success(p) => (Credentials(p.accessToken, p.refreshToken, p.salts, now), None)
  }

  /** A successful authentication replaces every field: nothing of the old state survives. */
  lemma AuthenticateReplacesWholesale(c1: Credentials, c2: Credentials, parse: TokenParser.Parser, prove: Http.Reply<TokenParser.AuthReply>, now: int)
    requires Authenticate(c1, parse, prove, now).1.None?
    ensures Authenticate(c2, parse, prove, now) == Authenticate(c1, parse, prove, now)
  {
  }

  /** The Authorization header value. */
  function Salter(token: string): (r: string)
    ensures |r| == |token| + 7
    ensures r[..7] == "Salter " && r[7..] == token
  {
    "Salter " + token
  }

  /**
   * `_get_auth_headers()`: authenticate first if no access token is held, then
   * give the Authorization value for the token now held.
   */
  function AuthHeader(c: Credentials, parse: TokenParser.Parser, prove: Http.Reply<TokenParser.AuthReply>, now: int): (r: (Credentials, Result<string, AuthError>))
    ensures c.accessToken != "" ==> r == (c, Success(Salter(c.accessToken)))
    ensures c.accessToken == "" ==>
              var (c', err) := Authenticate(c, parse, prove, now);
              r.0 == c' && (r.1.Success? <==> err.None?) && (err.Some? ==> r.1 == Failure(err.value))
    ensures r.1.Success? ==> r.1.value == Salter(r.0.accessToken)
  {
    if c.accessToken != "" then (c, Success(Salter(c.accessToken)))
    else
      var (c', err) := Authenticate(c, parse, prove, now);
      match err
      case Some(e) => (c', Failure(e))
      case None => (c', Success(Salter(c'.accessToken)))
  }

  /**
   * Once a call has left a token in place, a second call uses it and does not
   * authenticate again, whatever the server would answer.
   */
  lemma SecondHeaderCallReusesToken(c: Credentials, parse: TokenParser.Parser, prove1: Http.Reply<TokenParser.AuthReply>, now1: int,
                                    prove2: Http.Reply<TokenParser.AuthReply>, now2: int)
    requires AuthHeader(c, parse, prove1, now1).1.Success?
    requires AuthHeader(c, parse, prove1, now1).0.accessToken != ""
    ensures var (c', h) := AuthHeader(c, parse, prove1, now1);
            AuthHeader(c', parse, prove2, now2) == (c', h)
  {
  }

  // ----- refresh_auth_token -----

  /** The JSON body posted to the refresh endpoint. */
  datatype RefreshPayload = WithToken(refreshToken: string) | EmptyBody

  /** The fields of a refresh reply the code reads; absent keys are `None`. */
  datatype RefreshReply = RefreshReply(accessToken: Option<string>, serverTime: Option<Value>, salt: Option<seq<int>>)

  /** `{}`: what `refresh_auth_token` returns after an exception. */
  const EmptyReply := RefreshReply(None, None, None)

  /** `int(a / b)`: the quotient rounded toward zero, so never further from zero than `a / b`. */
  function TruncDiv(a: int, b: nat): (q: int)
    requires b > 0
    ensures 0 <= a ==> 0 <= q && q * b <= a < q * b + b
    ensures a < 0 ==> q <= 0 && q * b - b < a <= q * b
  {
    if a >= 0 then a / b else -((-a) / b)
  }

  /** `int(server_time / 1000)`; None when the division raises TypeError. */
  function ServerSeconds(v: Value): (r: Option<int>)
    ensures v.JInt? ==> r == Some(TruncDiv(v.i, 1000))
    ensures v.JStr? || v.JNull? || v.JCompound? ==> r == None
  {
    match v
    case JInt(ms) => Some(TruncDiv(ms, 1000))
    case JBool(b) => Some(0)
    case JStr(_) => None
    case JNull => None
    case JCompound => None
  }

  /** What happened in a refresh: the new state, what was posted (None: nothing), and what was returned. */
  datatype RefreshOutcome = RefreshOutcome(creds: Credentials, sent: Option<RefreshPayload>, returned: RefreshReply)

  /** The field updates for a received reply `d`, applied to `c`; `ok` is false when they stop at a TypeError. */
  function ApplyRefresh(c: Credentials, d: RefreshReply): (r: (Credentials, bool))
    ensures r.0.refreshToken == c.refreshToken
    ensures d.accessToken.None? ==> r == (c, true)
    ensures d.accessToken.Some? ==> r.0.accessToken == d.accessToken.value
    ensures r.0.tokenTimestamp != c.tokenTimestamp ==> d.accessToken.Some? && d.serverTime.Some?
    ensures r.0.salts != c.salts ==> d.accessToken.Some? && d.salt.Some? && r.1
    ensures !r.1 <==> d.accessToken.Some? && d.serverTime.Some? && ServerSeconds(d.serverTime.value).None?
    ensures d.accessToken.Some? && d.serverTime.Some? && r.1 ==>
              r.0.tokenTimestamp == ServerSeconds(d.serverTime.value).value
    ensures d.accessToken.Some? && d.salt.Some? && r.1 ==> r.0.salts == d.salt.value
    ensures !r.1 ==> r.0 == c.(accessToken := d.accessToken.value)
  {
    match d.accessToken
    case None => (c, true)
    case Some(token) =>
      var c1 := c.(accessToken := token);
      match d.serverTime
      case Some(v) =>
        (match ServerSeconds(v)
         case None => (c1, false)
         case Some(secs) =>
           var c2 := c1.(tokenTimestamp := secs);
           (if d.salt.Some? then c2.(salts := d.salt.value) else c2, true))
      case None => (if d.salt.Some? then c1.(salts := d.salt.value) else c1, true)
  }

  /**
   * `refresh_auth_token()`.  The payload is built from the refresh token held
   * on entry, before `_get_auth_headers` may authenticate; every exception is
   * caught and answered with `{}`.
   */
  function Refresh(c: Credentials, parse: TokenParser.Parser, prove: Http.Reply<TokenParser.AuthReply>, now: int,
                   reply: Http.Reply<RefreshReply>): (r: RefreshOutcome)
    ensures r.creds.refreshToken == AuthHeader(c, parse, prove, now).0.refreshToken
    ensures c.accessToken != "" ==> r.creds.refreshToken == c.refreshToken
    ensures r.sent.Some? <==> AuthHeader(c, parse, prove, now).1.Success?
    ensures r.sent.Some? ==> r.sent.value == (if c.refreshToken != "" then WithToken(c.refreshToken) else EmptyBody)
    ensures Http.Receive(reply).Failure? || r.sent.None? ==>
              r.returned == EmptyReply && r.creds == AuthHeader(c, parse, prove, now).0
    ensures Http.Receive(reply).Success? && r.sent.Some? ==>
              var d := Http.Receive(reply).value;
              r.creds == ApplyRefresh(AuthHeader(c, parse, prove, now).0, d).0
              && r.returned == (if ApplyRefresh(AuthHeader(c, parse, prove, now).0, d).1 then d else EmptyReply)
  {
    var payload := if c.refreshToken != "" then WithToken(c.refreshToken) else EmptyBody;
    var (c1, header) := AuthHeader(c, parse, prove, now);
    if header.Failure? then RefreshOutcome(c1, None, EmptyReply)
    else match Http.Receive(reply)
      case Failure(_) => RefreshOutcome(c1, Some(payload), EmptyReply)
      case Success(d) =>
        var (c2, ok) := ApplyRefresh(c1, d);
        RefreshOutcome(c2, Some(payload), if ok then d else EmptyReply)
  }

  /**
   * With a token already held, a refresh whose request fails leaves every
   * field as it was and returns `{}`; one that succeeds touches only the
   * fields its reply names, and never the refresh token.
   */
  lemma RefreshWithTokenHeld(c: Credentials, parse: TokenParser.Parser, prove: Http.Reply<TokenParser.AuthReply>, now: int, reply: Http.Reply<RefreshReply>)
    requires c.accessToken != ""
    ensures var r := Refresh(c, parse, prove, now, reply);
            && r.creds.refreshToken == c.refreshToken
            && (Http.Receive(reply).Failure? ==> r.creds == c && r.returned == EmptyReply)
            && (Http.Receive(reply).Success? && Http.Receive(reply).value.accessToken.None? ==> r.creds == c)
  {
  }

  // ----- _get_floorsheet_payload_id -----

  datatype PayloadError = BadStatusId | AuthFailed(authError: AuthError) | SignFailed(signError: Signer.SignError)

  /** `int(status.get('id', 147))`: the base id, or None when `int` rejects the field. */
  function BaseId(statusId: Option<Value>): (r: Option<int>)
    ensures statusId.None? ==> r == Some(Signer.DefaultBaseId)
    ensures statusId.Some? ==> r == PyInt.ToInt(statusId.value)
  {
    match statusId
    case None => Some(Signer.DefaultBaseId)
    case Some(v) => PyInt.ToInt(v)
  }

  /**
   * `_get_floorsheet_payload_id(_, date)`: the base id is the market status's
   * `id` (147 when absent), read before anything else; then, when no salts are
   * held, authenticate; then sign.
   */
  function PayloadId(c: Credentials, parse: TokenParser.Parser, statusId: Option<Value>, day: int,
                     prove: Http.Reply<TokenParser.AuthReply>, now: int): (r: (Credentials, Result<int, PayloadError>))
    ensures BaseId(statusId).None? ==> r == (c, Failure(BadStatusId))
    ensures BaseId(statusId).Some? && c.salts != [] ==> r.0 == c
    ensures BaseId(statusId).Some? && c.salts == [] ==> r.0 == Authenticate(c, parse, prove, now).0
    ensures r.1.Failure? && r.1.error.AuthFailed? ==> c.salts == [] && r.0 == c
    ensures r.1.Success? ==>
              BaseId(statusId).Some? && Signer.PayloadId(BaseId(statusId).value, day, r.0.salts) == Success(r.1.value)
    ensures BaseId(statusId).Some? && |c.salts| >= 4 ==> r.1.Success?
    ensures BaseId(statusId).Some? && (c.salts != [] || Authenticate(c, parse, prove, now).1.None?) ==>
              (r.1.Success? <==> Signer.PayloadId(BaseId(statusId).value, day, r.0.salts).Success?)
  {
    match BaseId(statusId)
    case None => (c, Failure(BadStatusId))
    case Some(base) =>
      var (c1, err) := if c.salts == [] then Authenticate(c, parse, prove, now) else (c, None);
      match err
      case Some(e) => (c1, Failure(AuthFailed(e)))
      case None =>
        match Signer.PayloadId(base, day, c1.salts)
        case Failure(e) => (c1, Failure(SignFailed(e)))
        case Success(id) => (c1, Success(id))
  }

  /**
   * With the token parser of a transform module, a successful authentication
   * stores the two descrambled tokens and all five salts of the reply.
   */
  lemma AuthenticateStoresParsedReply(c: Credentials, t: Transform, prove: Http.Reply<TokenParser.AuthReply>, now: int)
    requires Authenticate(c, TokenParser.ParserOf(t), prove, now).1.None?
    ensures var c' := Authenticate(c, TokenParser.ParserOf(t), prove, now).0;
            var p := TokenParser.ParseTokenResponse(t, Http.Receive(prove).value);
            && p.Success?
            && c' == Credentials(p.value.accessToken, p.value.refreshToken, p.value.salts, now)
            && |c'.salts| == 5
  {
  }

  /** Signing never fails once an authentication has supplied the salts. */
  lemma PayloadIdAfterAuthenticate(c: Credentials, t: Transform, statusId: Option<Value>, day: int,
                                   prove: Http.Reply<TokenParser.AuthReply>, now: int)
    requires BaseId(statusId).Some?
    requires c.salts == [] && Authenticate(c, TokenParser.ParserOf(t), prove, now).1.None?
    ensures PayloadId(c, TokenParser.ParserOf(t), statusId, day, prove, now).1.Success?
  {
    AuthenticateStoresParsedReply(c, t, prove, now);
  }
}
