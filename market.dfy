/**
 * The `Nepse` client of nepse_data_api/market.py: the credential fields it
 * updates in place and the operations that update them.  Each method says
 * what the new fields are in terms of the functions of module Session, whose
 * contracts and lemmas state what the source promises.
 *
 * Every server reply a method may need is a parameter: `prove` is the answer
 * to an authentication request made during the call, `now` the clock reading.
 */
module Market {
  import opened Wrappers
  import opened Json
  import opened Wasm
  import Http
  import TokenParser
  import Signer
  import Floorsheet
  import opened Session

  class Nepse {
    /** The client's `NepseTokenParser`, with its transform module loaded. */
    const tokenParser: TokenParser.Parser
    var accessToken: string
    var refreshToken: string
    var salts: seq<int>
    var tokenTimestamp: int

    function Creds(): Credentials
      reads this
    {
      Credentials(accessToken, refreshToken, salts, tokenTimestamp)
    }

    /** The state fields as `__init__` sets them, before its call to `authenticate`. */
    constructor (transform: Transform)
      ensures Creds() == Unauthenticated
      ensures tokenParser == TokenParser.ParserOf(transform)
    {
      tokenParser := TokenParser.ParserOf(transform);
      accessToken, refreshToken, salts, tokenTimestamp := "", "", [], 0;
    }

    method Authenticate(prove: Http.Reply<TokenParser.AuthReply>, now: int) returns (err: Option<AuthError>)
      modifies this
      ensures (Creds(), err) == Session.Authenticate(old(Creds()), tokenParser, prove, now)
    {
      ghost var spec := Session.Authenticate(Creds(), tokenParser, prove, now);
      var data := Http.Receive(prove);
      if data.Failure? {
        assert spec == (Creds(), Some(FetchFailed(data.error)));
        return Some(FetchFailed(data.error));
      }
      var parsed := tokenParser(data.value);
      if parsed.Failure? {
        assert spec == (Creds(), Some(Malformed(parsed.error)));
        return Some(Malformed(parsed.error));
      }
      var p := parsed.value;
      assert spec == (Credentials(p.accessToken, p.refreshToken, p.salts, now), None);
      accessToken, refreshToken, salts := p.accessToken, p.refreshToken, p.salts;
      tokenTimestamp := now;
      err := None;
    }

    /** The Authorization value of `_get_auth_headers`. */
    method GetAuthHeaders(prove: Http.Reply<TokenParser.AuthReply>, now: int) returns (header: Result<string, AuthError>)
      modifies this
      ensures (Creds(), header) == AuthHeader(old(Creds()), tokenParser, prove, now)
    {
      if accessToken == "" {
        var err := Authenticate(prove, now);
        if err.Some? {
          return Failure(err.value);
        }
      }
      header := Success(Salter(accessToken));
    }

    method RefreshAuthToken(prove: Http.Reply<TokenParser.AuthReply>, now: int, reply: Http.Reply<RefreshReply>)
      returns (sent: Option<RefreshPayload>, returned: RefreshReply)
      modifies this
      ensures RefreshOutcome(Creds(), sent, returned) == Refresh(old(Creds()), tokenParser, prove, now, reply)
    {
      var payload := if refreshToken != "" then WithToken(refreshToken) else EmptyBody;
      var header := GetAuthHeaders(prove, now);
      if header.Failure? {
        return None, EmptyReply;
      }
      sent := Some(payload);
      var data := Http.Receive(reply);
      if data.Failure? {
        return sent, EmptyReply;
      }
      var d := data.value;
      returned := d;
      if d.accessToken.Some? {
        accessToken := d.accessToken.value;
        if d.serverTime.Some? {
          var secs := ServerSeconds(d.serverTime.value);
          if secs.None? {
            return sent, EmptyReply;
          }
          tokenTimestamp := secs.value;
        }
        if d.salt.Some? {
          salts := d.salt.value;
        }
      }
    }

    /**
     * The signing step of `_get_floorsheet_payload_id`, with the held salts:
     * `e` from the table, then `e + salts[i] * day - salts[i - 1]`.
     */
    method Sign(base: int, day: int) returns (r: Result<int, Signer.SignError>)
      ensures r == Signer.PayloadId(base, day, salts)
    {
      var e := Signer.Seed(base, day);
      var i := Signer.SaltIndex(e);
      if i >= |salts| {
        return Failure(Signer.SaltIndexOutOfRange(i, |salts|));
      }
      r := Success(e + salts[i] * day - salts[i - 1]);
    }

    method GetFloorsheetPayloadId(statusId: Option<Value>, day: int, prove: Http.Reply<TokenParser.AuthReply>, now: int)
      returns (r: Result<int, PayloadError>)
      modifies this
      ensures (Creds(), r) == Session.PayloadId(old(Creds()), tokenParser, statusId, day, prove, now)
    {
      ghost var c0 := Creds();
      var b := BaseId(statusId);
      if b.None? {
        return Failure(BadStatusId);
      }
      if salts == [] {
        var err := Authenticate(prove, now);
        if err.Some? {
          return Failure(AuthFailed(err.value));
        }
      }
      assert Session.PayloadId(c0, tokenParser, statusId, day, prove, now).0 == Creds();
      var signed := Sign(b.value, day);
      match signed
      case Failure(err) => r := Failure(SignFailed(err));
      case Success(id) => r := Success(id);
    }

    /**
     * `get_floorsheet`: any exception before the page loop answers `[]`.  The
     * company id is the result of the symbol lookup (None when the symbol is
     * unknown), `src` the server's pages for this request.
     */
    method GetFloorsheet<R>(symbol: string, companyId: Option<int>, statusId: Option<Value>, day: int,
                            prove: Http.Reply<TokenParser.AuthReply>, now: int,
                            src: Floorsheet.Server<R>, limit: Option<int>, page: nat)
      returns (records: seq<R>)
      modifies this
      ensures var (c1, h) := AuthHeader(old(Creds()), tokenParser, prove, now);
              if h.Failure? then Creds() == c1 && records == []
              else if symbol != "" && (companyId.None? || companyId.value == 0) then Creds() == c1 && records == []
              else
                var (c2, id) := Session.PayloadId(c1, tokenParser, statusId, day, prove, now);
                && Creds() == c2
                && records == if id.Failure? then [] else Floorsheet.Collected(src, page, page, Floorsheet.EffectiveLimit(limit, symbol != ""))
    {
      var header := GetAuthHeaders(prove, now);
      if header.Failure? {
        return [];
      }
      if symbol != "" && (companyId.None? || companyId.value == 0) {
        return [];
      }
      var id := GetFloorsheetPayloadId(statusId, day, prove, now);
      if id.Failure? {
        return [];
      }
      var fetched;
      records, fetched := Floorsheet.CollectPages(src, page, Floorsheet.EffectiveLimit(limit, symbol != ""));
    }
  }

  /**
   * A fresh client (its fields as `__init__` leaves them before its own
   * authentication) asks for headers twice.  The first request authenticates,
   * and succeeds exactly when that authentication does; once it has left a
   * non-empty token, the second request returns the same header without
   * authenticating again, whatever the server would have answered.
   */
  method TwoHeaderRequests(t: Transform, prove1: Http.Reply<TokenParser.AuthReply>, prove2: Http.Reply<TokenParser.AuthReply>, now: int)
    returns (h1: Result<string, AuthError>, h2: Result<string, AuthError>, authenticated: Credentials)
    ensures (authenticated, h1) == AuthHeader(Unauthenticated, TokenParser.ParserOf(t), prove1, now)
    ensures h1.Success? <==> Session.Authenticate(Unauthenticated, TokenParser.ParserOf(t), prove1, now).1.None?
    ensures h1.Success? && authenticated.accessToken != "" ==> h2 == h1
  {
    var n := new Nepse(t);
    h1 := n.GetAuthHeaders(prove1, now);
    authenticated := n.Creds();
    h2 := n.GetAuthHeaders(prove2, now + 1);
    if h1.Success? && authenticated.accessToken != "" {
      assert n.Creds() == authenticated;
    }
  }
}
