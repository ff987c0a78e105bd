/**
 * nepse_data_api/security.py: a second `NepseTokenParser`, written out as six
 * literal slices per token, and the `MyNepseSession` client that uses it.
 * The parser is proved to compute exactly what the parser of
 * nepse_data_api/market.py (module TokenParser) computes.
 */
module Security {
  import opened Wrappers
  import opened Json
  import opened PySlice
  import opened Wasm
  import Http
  import TokenParser
  import opened Session

  /**
   * `tok[0:n] + tok[n+1:l] + tok[l+1:o] + tok[o+1:p] + tok[p+1:q] + tok[q+1:]`,
   * with Python's slicing.
   */
  function Unscramble(tok: string, n: int, l: int, o: int, p: int, q: int): (r: string)
    ensures forall ch :: ch in r ==> ch in tok
  {
    Slice(tok, 0, n) + Slice(tok, n + 1, l) + Slice(tok, l + 1, o) + Slice(tok, o + 1, p)
    + Slice(tok, p + 1, q) + SliceFrom(tok, q + 1)
  }

  /**
   * `parse_token_response(response_data)` with the transform module `t`: the
   * salts are read first (a bad one raises before any export is called), then
   * the ten cut points, then the two token fields, then the slices.
   */
  function ParseTokenResponse(t: Transform, response: TokenParser.AuthReply): (r: Result<TokenParser.Parsed, TokenParser.ParseError>)
    ensures !TokenParser.AllSaltsOk(response) ==>
              r == Failure(TokenParser.InvalidSalt(TokenParser.FirstBadSalt(response)))
    ensures r.Success? ==> |r.value.salts| == 5
    ensures r.Success? ==> forall k :: 1 <= k <= 5 ==> TokenParser.ReadSalt(response, k) == Success(r.value.salts[k - 1])
    ensures TokenParser.AllSaltsOk(response) && response.accessToken.None? ==> r == Failure(TokenParser.MissingToken("accessToken"))
  {
    match TokenParser.ReadSalts(response)
    case Failure(e) => Failure(e)
    case Success(salts) =>
      var n := t(Cdx, salts);
      var l := t(Rdx, [salts[0], salts[1], salts[3], salts[2], salts[4]]);
      var o := t(Bdx, [salts[0], salts[1], salts[3], salts[2], salts[4]]);
      var p := t(Ndx, [salts[0], salts[1], salts[3], salts[2], salts[4]]);
      var q := t(Mdx, [salts[0], salts[1], salts[3], salts[2], salts[4]]);
      var reversed := [salts[1], salts[0], salts[2], salts[4], salts[3]];
      var a := t(Cdx, reversed);
      var b := t(Rdx, [salts[1], salts[0], salts[2], salts[3], salts[4]]);
      var c := t(Bdx, [salts[1], salts[0], salts[3], salts[2], salts[4]]);
      var d := t(Ndx, [salts[1], salts[0], salts[3], salts[2], salts[4]]);
      var e := t(Mdx, [salts[1], salts[0], salts[3], salts[2], salts[4]]);
      match (response.accessToken, response.refreshToken)
      case (None, _) => Failure(TokenParser.MissingToken("accessToken"))
      case (_, None) => Failure(TokenParser.MissingToken("refreshToken"))
      case (Some(access), Some(refresh)) =>
        if !access.JStr? then Failure(TokenParser.NotSliceable("accessToken"))
        else if !refresh.JStr? then Failure(TokenParser.NotSliceable("refreshToken"))
        else Success(TokenParser.Parsed(Unscramble(access.s, n, l, o, p, q), Unscramble(refresh.s, a, b, c, d, e), salts))
  }

  /** The `NepseTokenParser` of this file whose transform module is `t`. */
  function ParserOf(t: Transform): TokenParser.Parser {
    r => ParseTokenResponse(t, r)
  }

  /** The literal six slices are the reassembly of module TokenParser for the same cut points. */
  lemma UnscrambleIsDescramble(tok: string, n: int, l: int, o: int, p: int, q: int)
    ensures Unscramble(tok, n, l, o, p, q) == TokenParser.Descramble(tok, TokenParser.Cuts(n, l, o, p, q))
  {
    DescrambleNested(tok, n, l, o, p, q);
    AppendAssoc6(Slice(tok, 0, n), Slice(tok, n + 1, l), Slice(tok, l + 1, o), Slice(tok, o + 1, p),
                 Slice(tok, p + 1, q), SliceFrom(tok, q + 1));
  }

  lemma AppendAssoc6<T>(s0: seq<T>, s1: seq<T>, s2: seq<T>, s3: seq<T>, s4: seq<T>, s5: seq<T>)
    ensures s0 + s1 + s2 + s3 + s4 + s5 == s0 + (s1 + (s2 + (s3 + (s4 + s5))))
  {
  }

  /** The reassembly of module TokenParser, unfolded into its six slices. */
  lemma DescrambleNested(tok: string, n: int, l: int, o: int, p: int, q: int)
    ensures TokenParser.Descramble(tok, TokenParser.Cuts(n, l, o, p, q))
         == Slice(tok, 0, n) + (Slice(tok, n + 1, l) + (Slice(tok, l + 1, o) + (Slice(tok, o + 1, p)
            + (Slice(tok, p + 1, q) + SliceFrom(tok, q + 1)))))
  {
    var cs := TokenParser.CutList(TokenParser.Cuts(n, l, o, p, q));
    assert |cs| == 5 && cs[0] == n && cs[1] == l && cs[2] == o && cs[3] == p && cs[4] == q;
    TokenParser.ReassembleLast(tok, q + 1, cs);
    TokenParser.ReassembleUnfold(tok, p + 1, cs, 4, q);
    TokenParser.ReassembleUnfold(tok, o + 1, cs, 3, p);
    TokenParser.ReassembleUnfold(tok, l + 1, cs, 2, o);
    TokenParser.ReassembleUnfold(tok, n + 1, cs, 1, l);
    TokenParser.ReassembleUnfold(tok, 0, cs, 0, n);
  }

  /**
   * The two copies of `parse_token_response` agree on every reply: same cut
   * point argument tuples, same reassembly, same errors.
   */
  lemma SameTripleAsMarketParser(t: Transform, response: TokenParser.AuthReply)
    ensures ParseTokenResponse(t, response) == TokenParser.ParseTokenResponse(t, response)
  {
    var salts := TokenParser.ReadSalts(response);
    if salts.Success? && response.accessToken.Some? && response.refreshToken.Some?
       && response.accessToken.value.JStr? && response.refreshToken.value.JStr? {
      var s := salts.value;
      var ac, rc := TokenParser.AccessCuts(t, s), TokenParser.RefreshCuts(t, s);
      UnscrambleIsDescramble(response.accessToken.value.s, ac.c0, ac.c1, ac.c2, ac.c3, ac.c4);
      UnscrambleIsDescramble(response.refreshToken.value.s, rc.c0, rc.c1, rc.c2, rc.c3, rc.c4);
    }
  }

  /**
   * With five strictly increasing cut points inside the token, the literal six
   * slices drop exactly the five characters at the cut points, order kept.
   */
  lemma UnscrambleRemovesCuts(tok: string, n: int, l: int, o: int, p: int, q: int)
    requires 0 <= n < l < o < p < q < |tok|
    ensures Unscramble(tok, n, l, o, p, q) == TokenParser.RemoveAt(tok, {n, l, o, p, q})
    ensures |Unscramble(tok, n, l, o, p, q)| == |tok| - 5
  {
    UnscrambleIsDescramble(tok, n, l, o, p, q);
    assert TokenParser.Increasing(TokenParser.Cuts(n, l, o, p, q), |tok|);
  }

  // ----- _get_dummy_id -----

  /** The market-status reply; `id` is absent when the key is missing. */
  datatype MarketStatus = MarketStatus(id: Option<Value>)

  /** Why `_get_dummy_id` raised. */
  datatype DummyIdError = HeadersFailed(authError: AuthError) | StatusFailed(failure: Http.Failure) | MissingId

  /**
   * `_get_dummy_id()`: `get_market_status()` (which takes the auth headers, so
   * may authenticate, and decodes the reply without a status check), then
   * `status['id']`, returned as it is.
   */
  function DummyId(c: Credentials, parse: TokenParser.Parser, prove: Http.Reply<TokenParser.AuthReply>, now: int,
                   status: Http.Reply<MarketStatus>): (r: (Credentials, Result<Value, DummyIdError>))
    ensures r.0 == AuthHeader(c, parse, prove, now).0
    ensures r.1.Success? <==>
              && AuthHeader(c, parse, prove, now).1.Success?
              && Http.Decode(status).Success? && Http.Decode(status).value.id.Some?
    ensures r.1.Success? ==> status.Reply? && status.body == Some(MarketStatus(Some(r.1.value)))
    ensures AuthHeader(c, parse, prove, now).1.Failure? ==> r.1 == Failure(HeadersFailed(AuthHeader(c, parse, prove, now).1.error))
  {
    var (c1, h) := AuthHeader(c, parse, prove, now);
    if h.Failure? then (c1, Failure(HeadersFailed(h.error)))
    else match Http.Decode(status)
      case Failure(e) => (c1, Failure(StatusFailed(e)))
      case Success(body) =>
        match body.id
        case None => (c1, Failure(MissingId))
        case Some(v) => (c1, Success(v))
  }

  /**
   * Once a token is held, the dummy id depends on the market status alone:
   * no salt, token or timestamp enters it.
   */
  lemma DummyIdIgnoresCredentials(c1: Credentials, c2: Credentials, parse: TokenParser.Parser,
                                  prove: Http.Reply<TokenParser.AuthReply>, now: int, status: Http.Reply<MarketStatus>)
    requires c1.accessToken != "" && c2.accessToken != ""
    ensures DummyId(c1, parse, prove, now, status).1 == DummyId(c2, parse, prove, now, status).1
    ensures DummyId(c1, parse, prove, now, status).0 == c1
  {
  }

  class MyNepseSession {
    /** The session's `NepseTokenParser`, with its transform module loaded. */
    const tokenParser: TokenParser.Parser
    var accessToken: string
    var refreshToken: string
    var salts: seq<int>
    var tokenTimestamp: int

    function Creds(): Credentials
      reads this
    {
      Credentials(accessToken, refreshToken, salts, tokenTimestamp)
    }

    /** The state fields as `__init__` sets them, before its call to `authenticate`. */
    constructor (transform: Transform)
      ensures Creds() == Unauthenticated
      ensures tokenParser == ParserOf(transform)
    {
      tokenParser := ParserOf(transform);
      accessToken, refreshToken, salts, tokenTimestamp := "", "", [], 0;
    }

    /** `authenticate()`: the three parsed values and the clock replace the state wholesale. */
    method Authenticate(prove: Http.Reply<TokenParser.AuthReply>, now: int) returns (err: Option<AuthError>)
      modifies this
      ensures (Creds(), err) == Session.Authenticate(old(Creds()), tokenParser, prove, now)
    {
      var data := Http.Receive(prove);
      if data.Failure? {
        return Some(FetchFailed(data.error));
      }
      var parsed := tokenParser(data.value);
      if parsed.Failure? {
        return Some(Malformed(parsed.error));
      }
      accessToken, refreshToken, salts := parsed.value.accessToken, parsed.value.refreshToken, parsed.value.salts;
      tokenTimestamp := now;
      err := None;
    }

    /** The Authorization value of `_get_auth_headers`. */
    method GetAuthHeaders(prove: Http.Reply<TokenParser.AuthReply>, now: int) returns (header: Result<string, AuthError>)
      modifies this
      ensures (Creds(), header) == AuthHeader(old(Creds()), tokenParser, prove, now)
    {
      if accessToken == "" {
        var err := Authenticate(prove, now);
        if err.Some? {
          return Failure(err.value);
        }
      }
      header := Success(Salter(accessToken));
    }

    method GetDummyId(prove: Http.Reply<TokenParser.AuthReply>, now: int, status: Http.Reply<MarketStatus>)
      returns (r: Result<Value, DummyIdError>)
      modifies this
      ensures (Creds(), r) == DummyId(old(Creds()), tokenParser, prove, now, status)
    {
      var header := GetAuthHeaders(prove, now);
      if header.Failure? {
        return Failure(HeadersFailed(header.error));
      }
      var body := Http.Decode(status);
      if body.Failure? {
        return Failure(StatusFailed(body.error));
      }
      if body.value.id.None? {
        return Failure(MissingId);
      }
      r := Success(body.value.id.value);
    }
  }
}
