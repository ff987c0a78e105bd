# nepse_data_api: the authentication and signing core, in Dafny

This project models the part of the `nepse_data_api` client that lets it talk
to the NEPSE portal at all:

- **Token descrambling** (`NepseTokenParser.parse_token_response`, in both
  `nepse_data_api/market.py` and `nepse_data_api/security.py`). The five salts
  of the `/api/authenticate/prove` reply are coerced with Python's `int`. The
  portal's compiled transform module computes five cut points for each token
  from fixed arrangements of the salts. Each token is rebuilt from six Python
  slices, which drops the characters at the cut points.
- **Payload-id signing** (`Nepse._get_floorsheet_payload_id`). The signature
  is integer arithmetic over the embedded 100-entry `DUMMY_DATA` table, the
  market-status id, the day of the month and one pair of salts.
- **Session credentials** of `Nepse` and `MyNepseSession`: the fields
  `access_token`, `refresh_token`, `salts` and `token_timestamp`. The model
  covers how `authenticate`, `_get_auth_headers`, `refresh_auth_token`,
  `_get_floorsheet_payload_id` and `_get_dummy_id` update them.
- **The client-side plumbing the core names**: the `CacheManager` TTL
  dictionary, the page loop of `get_floorsheet`, the `limit` slice of
  `get_top_gainers` / `get_top_losers`, and the time filter of
  `get_historical_chart`.

Layout, one module per file:

| file | module | models |
|---|---|---|
| `wrappers.dfy` | `Wrappers` | `Option`, `Result` |
| `json.dfy` | `Json` | decoded JSON scalars |
| `http.dfy` | `Http` | `raise_for_status()` + `json()` on a reply given as input |
| `pyint.dfy` | `PyInt` | Python's `int(x)` on a decoded JSON value |
| `pyslice.dfy` | `PySlice` | Python's `s[i:j]`: counting from the end, clamping, empty ranges |
| `wasm.dfy` | `Wasm` | the five exports `cdx rdx bdx ndx mdx` as one function parameter |
| `token_parser.dfy` | `TokenParser` | `parse_token_response` of market.py, and what the reassembly means |
| `security.dfy` | `Security` | the second parser, `MyNepseSession`, `_get_dummy_id` |
| `signer.dfy` | `Signer` | the payload-id arithmetic |
| `session.dfy` | `Session` | the credential transitions, as functions of the old state and the replies |
| `market.dfy` | `Market` | the `Nepse` class, whose methods are proved against `Session` |
| `cache.dfy` | `Cache` | `CacheManager`, a class over a `map` with a clock parameter |
| `floorsheet.dfy` | `Floorsheet` | the page loop of `get_floorsheet` |
| `market_data.dfy` | `MarketData` | the limit slice and the chart time filter |

The transform module is an opaque function `Transform = (Export, seq<int>) -> int`.
Nothing is assumed about it. Every lemma holds for every transform module.
Server replies and the clock are parameters of the operations that use them.

Facts about the code that the model keeps:

- The reassembly drops five characters per token: there are five cut points,
  and the six slices lie between and around them.
- Python slicing never raises. Out-of-range, negative or out-of-order cut
  points give the clamped-slice concatenation (`PySlice.Slice`), not an error.
- A bad salt raises `ValueError`, a missing token field `KeyError`, and a
  token that cannot be sliced `TypeError`. The model keeps the three apart
  (`TokenParser.ParseError`).
- `refresh_auth_token` never replaces the refresh token, even when the reply
  carries one. On any failure it returns `{}`. An access token it has already
  stored stays stored, even when the later `serverTime` conversion fails.
- `_get_floorsheet_payload_id` authenticates first when no salts are held.
- `_get_dummy_id` of security.py returns the market-status `id` unchanged and
  signs nothing.
- The fallback `val = 147` of the table lookup is unreachable:
  `base % 100` is always a valid index.

## Model

| member | source | states |
|---|---|---|
| `Http.Receive` | nepse_data_api/market.py:162-164 | a reply yields its body iff it arrived, `raise_for_status` accepts its status (not 400..599) and the body is JSON; a 4xx/5xx status is reported as such |
| `Http.Decode` | nepse_data_api/security.py:164-165 | a bare `json()` yields the body iff the reply arrived with a JSON body, whatever its status |
| `Http.DecodeIgnoresStatus` | nepse_data_api/security.py:161-165 | a 4xx/5xx reply that `raise_for_status` rejects is still decoded when no status check is made |
| `PyInt.ToInt` | nepse_data_api/market.py:65-72 | `int(v)`: an integer is kept, a bool becomes 0/1, null and arrays/objects are rejected |
| `PyInt.ParseDecimal` | nepse_data_api/market.py:65-72 | `int(s)` on a string: the empty string is rejected |
| `PyInt.ForeignCharacterRejected` | nepse_data_api/market.py:65-72 | a string holding any character other than a digit, `_`, a sign or the six ASCII space characters `int` strips (e.g. `"1.5"`, `"x"`, a leading 0x1C) is rejected |
| `PyInt.ParseAcceptsSurroundingSpace` | nepse_data_api/market.py:65-72 | `int(" 12\n") == 12` |
| `PyInt.ParseAcceptsSignAndUnderscore` | nepse_data_api/market.py:65-72 | `int("-1_0") == -10` |
| `PyInt.ParseRejectsFractionAndSeparator` | nepse_data_api/market.py:65-72 | `int("1.5")` and `int("\x1c10")` raise `ValueError` |
| `PyInt.DecimalRoundTrip` | nepse_data_api/market.py:65-72 | parsing the decimal rendering of any integer of at most 4300 digits gives it back, so salts sent as decimal strings are coerced to their value; the rendering of a longer integer is refused, as `int` refuses it |
| `PySlice.Bound` | nepse_data_api/market.py:95-101 | a slice bound lands in `0..len`: in-range bounds are kept, negative ones count from the end, the rest are clamped |
| `PySlice.Slice` | nepse_data_api/market.py:95-101 | `s[i:j]` is never longer than `s`, holds only elements of `s`, and is empty when `0 <= j <= i` |
| `PySlice.SliceInRange` | nepse_data_api/market.py:95-101 | between in-range bounds, the Python slice is the plain subsequence `s[i..j]` |
| `PySlice.SliceFrom` | nepse_data_api/market.py:101 | `s[i:]` is the suffix from `i`, empty past the end |
| `PySlice.SliceTo` | nepse_data_api/market.py:227 | `s[:j]` is the prefix of length `j`, all of `s` past the end, and counts from the end for negative `j` |
| `TokenParser.ReadSalt` | nepse_data_api/market.py:65-74 | `salt<k>` is read iff the key is present and `int` accepts it; otherwise the read fails and the model records which salt failed (Python's `ValueError` message names the key only when it is missing) |
| `TokenParser.FirstBadSalt` | nepse_data_api/market.py:65-74 | the reported salt is bad and every salt before it is good |
| `TokenParser.ReadSalts` | nepse_data_api/market.py:65-74 | the salt list succeeds iff all five salts are good; it is then exactly `[salt1..salt5]` in order; otherwise the first bad salt is reported |
| `TokenParser.ParseTokenResponse` | nepse_data_api/market.py:63-113 | a bad salt fails before anything else; success iff the salts are good and both tokens are present strings; the returned salts are those read |
| `TokenParser.SaltErrorIndependentOfTransform` | nepse_data_api/market.py:65-89 | a bad salt is reported as the same `InvalidSalt` error whatever the transform module computes: no export is consulted |
| `TokenParser.AccessCuts` | nepse_data_api/market.py:77-81 | cut point k of the access token (n, l, o, p, q) is export k (cdx, rdx, bdx, ndx, mdx) applied to the salts in the order the plan table lists: `(s0..s4)` for n, `(s0,s1,s3,s2,s4)` for l, o, p, q |
| `TokenParser.RefreshCuts` | nepse_data_api/market.py:84-89 | cut point k of the refresh token (a..e) is export k applied to the listed tuple: `(s1,s0,s2,s4,s3)` for a, `(s1,s0,s2,s3,s4)` for b, `(s1,s0,s3,s2,s4)` for c, d, e |
| `TokenParser.PlansArePermutations` | nepse_data_api/market.py:77-89 | each of the ten argument tuples passes all five salts, each once |
| `TokenParser.Reassemble` | nepse_data_api/market.py:95-111 | the slice concatenation holds only characters of the token: nothing is invented |
| `TokenParser.ReassembleUnfold` | nepse_data_api/market.py:95-101 | each step of the reassembly is the slice up to a cut point followed by the rest from just past it |
| `TokenParser.ReassembleLast` | nepse_data_api/market.py:101 | the last piece of the reassembly is everything past the last cut point |
| `TokenParser.KeepUntouched` | nepse_data_api/market.py:95-101 | keeping all characters of a range with no cut point in it gives the range itself |
| `TokenParser.KeepStep` | nepse_data_api/market.py:95-101 | keeping characters up to and past the first cut point is the slice before it plus what is kept after it |
| `TokenParser.ReassembleKeeps` | nepse_data_api/market.py:95-111 | with ascending in-range cut points, the slice concatenation keeps exactly the characters that are not cut points, in order |
| `TokenParser.ReassembleLength` | nepse_data_api/market.py:95-111 | with ascending in-range cut points, the reassembly is one character shorter per cut point |
| `TokenParser.ReassembleRemovesCuts` | nepse_data_api/market.py:95-111 | if the five cut points strictly increase inside the token, the reassembly is `tok` with exactly the characters at the cut points removed, order kept, length `len(tok) - 5` |
| `TokenParser.Descramble` | nepse_data_api/market.py:95-111 | the six slices hold only characters of the token; if `0 <= n < l < o < p < q < len(tok)`, they give `tok` with exactly the characters at n,l,o,p,q removed, order kept, length `len(tok) - 5` |
| `TokenParser.ParsedTokensDropCutCharacters` | nepse_data_api/market.py:92-113 | in a parsed reply, each token with strictly increasing in-range cut points (n..q for access, a..e for refresh) has lost exactly its five cut characters |
| `Security.ParseTokenResponse` | nepse_data_api/security.py:19-76 | a missing or non-integer salt raises before any export call; on success the salts list has length 5 and is `[salt1..salt5]` |
| `Security.Unscramble` | nepse_data_api/security.py:57-74 | the literal six-slice expression holds only characters of the token |
| `Security.UnscrambleIsDescramble` | nepse_data_api/security.py:57-74 | the literal six-slice expression equals the reassembly of market.py for the same cut points |
| `Security.DescrambleNested` | nepse_data_api/market.py:95-111 | the reassembly of market.py unfolds into its six slices |
| `Security.SameTripleAsMarketParser` | nepse_data_api/security.py:19-76 | for every reply and transform module, the two copies of `parse_token_response` return the same triple or the same error |
| `Security.UnscrambleRemovesCuts` | nepse_data_api/security.py:57-74 | with strictly increasing in-range cut points, each token loses exactly the five characters at its cut indices |
| `Security.DummyId` | nepse_data_api/security.py:133-159 | `_get_dummy_id` changes the state only through the lazy authentication of the headers; it succeeds iff the headers and the status reply do and `id` is present, and returns `id` unchanged |
| `Security.DummyIdIgnoresCredentials` | nepse_data_api/security.py:145-159 | with a token held, the result is the same for any tokens, salts and timestamp: no salt arithmetic is done |
| `Security.MyNepseSession.constructor` | nepse_data_api/security.py:83-91 | a new session holds no token, no salts and timestamp 0 |
| `Security.MyNepseSession.Authenticate` | nepse_data_api/security.py:105-120 | the fields become exactly `Session.Authenticate` of the old fields |
| `Security.MyNepseSession.GetAuthHeaders` | nepse_data_api/security.py:122-131 | the fields and the header are exactly `Session.AuthHeader` of the old fields |
| `Security.MyNepseSession.GetDummyId` | nepse_data_api/security.py:133-165 | the fields and the result are exactly `Security.DummyId` of the old fields |
| `Signer.TableEntry` | nepse_data_api/market.py:856-868 | the table has 100 entries, `base % 100` is always a valid index, and the entry is `DUMMY_DATA[base % 100]`: the fallback 147 is never used |
| `Signer.Seed` | nepse_data_api/market.py:869 | `e` exceeds `base + 2*day` by the table entry at `base % 100`, never by the fallback |
| `Signer.SaltIndex` | nepse_data_api/market.py:872 | the selected index is 1 exactly when `e % 10 < 4`, and 3 otherwise |
| `Signer.PayloadId` | nepse_data_api/market.py:870-878 | signing succeeds iff the selected index is within the salt list, always with at least four salts; otherwise `IndexError` names the index |
| `Signer.PayloadIdFormula` | nepse_data_api/market.py:856-878 | with at least four salts the id is `e + salts[i]*day - salts[i-1]`, where `e = DUMMY_DATA[base % 100] + base + 2*day` and `i = 1 if e % 10 < 4 else 3` |
| `Signer.OnlySelectedPairMatters` | nepse_data_api/market.py:872-878 | two salt lists that agree on the selected pair give the same id |
| `Signer.BasePeriod` | nepse_data_api/market.py:865-878 | base ids 100 apart give ids 100 apart |
| `Signer.WorkedExample` | nepse_data_api/market.py:856-878 | base 147, day 12, salts (100,200,300,400,500): `DUMMY_DATA[47] = 863`, e = 1034, index 3, id 5534 |
| `Session.Authenticate` | nepse_data_api/market.py:159-168 | on success the three parsed values and the clock replace the fields wholesale; on any failure nothing changes |
| `Session.AuthenticateReplacesWholesale` | nepse_data_api/market.py:166-168 | a successful authentication leaves nothing of the old state |
| `Session.AuthenticateStoresParsedReply` | nepse_data_api/market.py:159-168 | with the parser of a transform module, a successful authentication stores the descrambled tokens and all five salts |
| `Session.Salter` | nepse_data_api/market.py:175 | the header value is `"Salter "` followed by the token, unchanged |
| `Session.AuthHeader` | nepse_data_api/market.py:170-178 | authentication runs iff no access token is held; a held token gives `"Salter " + token` with no change; a successful call always returns `"Salter "` + the token now held |
| `Session.SecondHeaderCallReusesToken` | nepse_data_api/market.py:170-178 | after a call that leaves a token, a second call returns the same header and state whatever the server would answer |
| `Session.TruncDiv` | nepse_data_api/market.py:631 | `int(a / b)` rounds toward zero: for `a >= 0` the quotient `q` has `q*b <= a < q*b + b`, for `a < 0` it has `q*b - b < a <= q*b` |
| `Session.ServerSeconds` | nepse_data_api/market.py:630-631 | an integer `serverTime` becomes its seconds; a string, null or compound value raises |
| `Session.ApplyRefresh` | nepse_data_api/market.py:629-633 | the refresh token never changes; nothing changes without `accessToken`; the access token is replaced when present; the timestamp changes only with `serverTime` and then becomes `int(serverTime / 1000)`; the salts change only with `salt` and then become that list; a `serverTime` that cannot be divided stops the update after the access token: only the access token has changed |
| `Session.Refresh` | nepse_data_api/market.py:620-638 | the body is built from the refresh token held on entry; a failed request returns `{}` and leaves the fields as the headers left them; a received reply is applied by `ApplyRefresh` |
| `Session.RefreshWithTokenHeld` | nepse_data_api/market.py:620-638 | with a token held, the refresh token is kept, a failed request changes nothing and returns `{}`, and a reply without `accessToken` changes nothing |
| `Session.BaseId` | nepse_data_api/market.py:849-850 | the base id is `int(status['id'])`, or 147 when the key is absent |
| `Session.PayloadId` | nepse_data_api/market.py:844-878 | a bad status id fails first with no change; otherwise authentication runs iff no salts are held; once the salts are held (already, or after a successful authentication), signing succeeds iff the signer succeeds over them, and success means the signer's id; with four salts held it always succeeds |
| `Session.PayloadIdAfterAuthenticate` | nepse_data_api/market.py:874-878 | once the lazy authentication succeeds, signing cannot fail |
| `Market.Nepse.constructor` | nepse_data_api/market.py:141-145 | a new client holds no token, no salts and timestamp 0 |
| `Market.Nepse.Authenticate` | nepse_data_api/market.py:159-168 | the fields become exactly `Session.Authenticate` of the old fields |
| `Market.Nepse.GetAuthHeaders` | nepse_data_api/market.py:170-178 | the fields and the header are exactly `Session.AuthHeader` of the old fields |
| `Market.Nepse.RefreshAuthToken` | nepse_data_api/market.py:620-638 | the fields, the body sent and the value returned are exactly `Session.Refresh` of the old fields |
| `Market.Nepse.Sign` | nepse_data_api/market.py:864-878 | the id computed from the held salts is exactly `Signer.PayloadId`, and nothing changes |
| `Market.Nepse.GetFloorsheetPayloadId` | nepse_data_api/market.py:844-878 | the fields and the result are exactly `Session.PayloadId` of the old fields |
| `Market.Nepse.GetFloorsheet` | nepse_data_api/market.py:683-828 | a header failure, an unknown symbol or a failed signing gives `[]`; otherwise the records are the pages collected with the effective limit |
| `Market.TwoHeaderRequests` | nepse_data_api/market.py:170-178 | a fresh client's first header request succeeds iff its authentication does; a second request with a token held returns the same header |
| `Cache.EffectiveTtl` | nepse_data_api/market.py:43 | `ttl or default_ttl`: a missing or zero ttl falls back to the default, any other ttl is kept |
| `Cache.Lookup` | nepse_data_api/market.py:31-39 | a value is returned iff the key is present and `now < expires_at`; an expired entry is deleted; no other key changes |
| `Cache.Store` | nepse_data_api/market.py:41-45 | the key maps to `(value, now + effective ttl)`; only that key changes |
| `Cache.GetAfterSet` | nepse_data_api/market.py:31-45 | a get before expiry after a set returns the value set and leaves the table unchanged |
| `Cache.GetAfterExpiry` | nepse_data_api/market.py:31-45 | a get from the expiry time on returns nothing and removes the key |
| `Cache.SetLeavesOtherKeys` | nepse_data_api/market.py:41-45 | a set does not change what a get of another key answers |
| `Cache.CacheManager.constructor` | nepse_data_api/market.py:27-29 | a new cache is empty and keeps its default ttl |
| `Cache.CacheManager.Get` | nepse_data_api/market.py:31-39 | the result and the new table are exactly `Lookup` of the old table |
| `Cache.CacheManager.Set` | nepse_data_api/market.py:41-45 | the new table is exactly `Store` of the old table |
| `Cache.CacheManager.Clear` | nepse_data_api/market.py:47-49 | the table becomes empty |
| `Floorsheet.FetchPage` | nepse_data_api/market.py:741-755 | a page request fails iff `raise_for_status` or `json` raises, with that failure; a reply without `floorsheets` gives no records and `totalPages` 1; a page past the server's last one gives no records |
| `Floorsheet.CollectedStep` | nepse_data_api/market.py:741-760 | what a run gathers from page `j` on is empty iff page `j` fails or is empty, starts with page `j`'s records, and is those records alone when the loop stops there |
| `Floorsheet.CollectPages` | nepse_data_api/market.py:732-770 | the records are the pages from `page` on, concatenated in page order; each gathered page had content; the loop stops at the first empty or failed page, at `current >= totalPages - 1`, or at `pages_fetched >= limit` when `limit > 0`; hence at most `limit` pages |
| `Floorsheet.EffectiveLimit` | nepse_data_api/market.py:730 | a given limit is used as is; by default, 0 (all pages) with a symbol and 1 without |
| `MarketData.TopEntries` | nepse_data_api/market.py:218-238 | `data[:limit] if limit else data`: a missing or zero limit keeps everything, a positive one keeps the first `limit` entries, a negative one counts from the end |
| `MarketData.FilterByTime` | nepse_data_api/market.py:598 | the kept points are exactly the points with a `t` inside `[start, end]`, none added |
| `MarketData.FilterByTimeAppend` | nepse_data_api/market.py:598 | filtering a concatenation is the concatenation of the filtered parts, so order and multiplicity are kept |
| `MarketData.FilterByTimeSingle` | nepse_data_api/market.py:598 | a single point is kept iff it has a `t` inside `[start, end]` |
| `MarketData.ChartData` | nepse_data_api/market.py:593-598 | the index chart, or a request without both dates, is returned unchanged; otherwise the result is exactly `FilterByTime` of the data |

## Left out

- HTTP: the transport, URLs, request headers other than the `Salter` value, timeouts and TLS settings. Each reply a step needs is an input.
- The bytecode runtime and the contents of `assets/css.wasm`. The five exports are an uninterpreted function. A module that fails to load or lacks an export is not modelled.
- `Nepse.__init__` and `MyNepseSession.__init__` call `authenticate` at the end. The constructors model the fields before that call, and callers call `Authenticate` themselves.
- `time.time()` is a float. The clock is an integer `now`, so cache expiry and `int(time.time())` are modelled on whole seconds.
- `datetime.now().day` is an integer `day` input. The chart filter gets its dates already converted to millisecond timestamps.
- `time.sleep` between pages, and `print` diagnostics, are left out.
- The market-status fetch inside `_get_floorsheet_payload_id` is left out, with its cache and its own header request. Its `id` field is an input.
- The symbol lookup of `get_floorsheet` (`_ensure_security_ids`, `symbol.upper()`) is an input `companyId`. `size` and `date` only shape the URL and are left out.
- `Floorsheet.CollectPages`: the server is a finite list of page replies, and pages past its end answer with no content. A server that keeps answering new pages forever is not modelled.
- `PyInt.ParseDecimal` covers the six ASCII space characters `int` strips (space, `\t`, `\n`, `\v`, `\f`, `\r`), signs, ASCII digits and underscores, and the default limit of 4300 digits. Python's `int` also accepts Unicode digits and Unicode whitespace, which are not modelled, and the limit is taken at its default: a program that changes it with `sys.set_int_max_str_digits` is not modelled.
- `PyInt.ToInt`: JSON numbers with a fraction are not modelled (`Json.Value` has no float). Python's `int(12.9) == 12` would accept such a salt or status id.
- `Session.ServerSeconds`: a float `serverTime` is not modelled, and `int(ms / 1000)` is modelled as exact integer division rounded toward zero (`Session.TruncDiv`). Python divides in floating point, which differs past 2^53 (for `ms = 2^60 + 999` Python gives 1152921504606848, the model 1152921504606847).
- `Session.ApplyRefresh`: a refresh reply's `accessToken` is taken to be a string. Python stores whatever JSON value is there, so a `null` or other falsy value makes the next header call authenticate again; that is not modelled.
- `Floorsheet.CollectPages`: the start page is a natural number. `get_floorsheet` also accepts a negative `page`, which it sends as is; negative pages are not modelled.
- `TokenParser.ParseTokenResponse`: a token field holding a JSON array is reported as `NotSliceable`. Python would slice the list and return lists.
- `MarketData.FilterByTime`: a chart point's `t` is taken to be an integer or absent. A string or null `t` makes the comparison raise `TypeError`, after which `get_historical_chart` returns `[]`; that path is not modelled. A float `t` compares normally in Python but is not modelled either.
- `Session.ApplyRefresh`: the `salt` field of a refresh reply is taken to be a list of integers. Other JSON shapes are not modelled.
- JSON bodies that are not objects are not modelled.
- `AsyncNepse` is left out. It is the asynchronous duplicate of the same authentication and does not keep the refresh token.
- The endpoint wrappers are left out, with `_cached_get` (nepse_data_api/market.py:180-194). It returns a cached value when one is live; otherwise it takes the headers from `_get_auth_headers` (modelled as `Market.Nepse.GetAuthHeaders`, which may authenticate), fetches, and stores the decoded reply in the cache (modelled as `Cache.CacheManager`). Their composition is not modelled. The `MyNepseSession` market-data getters are left out too.
- The command-line interface is left out.
