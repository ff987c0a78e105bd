/**
 * `NepseTokenParser.parse_token_response` of nepse_data_api/market.py: read
 * the five salts of an authentication reply, let the transform module compute
 * five cut points for each token, and rebuild each token by dropping the
 * characters at its cut points.
 */
module TokenParser {
  import opened Wrappers
  import opened Json
  import opened PyInt
  import opened PySlice
  import opened Wasm

  /** Why a reply could not be parsed: the exception the source raises. */
  datatype ParseError =
    | InvalidSalt(position: nat)     // ValueError: salt<position> is missing or `int` rejects it
    | MissingToken(field: string)    // KeyError: a token field is absent
    | NotSliceable(field: string)    // TypeError: a token field is not a string

  /**
   * The keys of the authentication reply the parser reads; an absent key is
   * `None`.  Other keys of the reply play no part.
   */
  datatype AuthReply = AuthReply(
    salt1: Option<Value>, salt2: Option<Value>, salt3: Option<Value>, salt4: Option<Value>, salt5: Option<Value>,
    accessToken: Option<Value>, refreshToken: Option<Value>)

  /** The five cut points of one token, in the order of the source's slices. */
  datatype Cuts = Cuts(c0: int, c1: int, c2: int, c3: int, c4: int)

  /** What the parser returns: the two descrambled tokens and the salts as read. */
  datatype Parsed = Parsed(accessToken: string, refreshToken: string, salts: seq<int>)

  /** The value under key `salt<k>`, for k in 1..5. */
  function SaltField(response: AuthReply, k: nat): Option<Value>
    requires 1 <= k <= 5
  {
    [response.salt1, response.salt2, response.salt3, response.salt4, response.salt5][k - 1]
  }

  /** `int(response["salt<k>"])`, with every failure reported as an invalid salt. */
  function ReadSalt(response: AuthReply, k: nat): (r: Result<int, ParseError>)
    requires 1 <= k <= 5
    ensures r.Success? <==> SaltField(response, k).Some? && ToInt(SaltField(response, k).value).Some?
    ensures r.Success? ==> r.value == ToInt(SaltField(response, k).value).value
    ensures r.Failure? ==> r.error == InvalidSalt(k)
  {
    match SaltField(response, k)
    case None => Failure(InvalidSalt(k))
    case Some(v) =>
      match ToInt(v)
      case Some(i) => Success(i)
      case None => Failure(InvalidSalt(k))
  }

  predicate SaltOk(response: AuthReply, k: nat)
    requires 1 <= k <= 5
  {
    ReadSalt(response, k).Success?
  }

  predicate AllSaltsOk(response: AuthReply) {
    SaltOk(response, 1) && SaltOk(response, 2) && SaltOk(response, 3) && SaltOk(response, 4) && SaltOk(response, 5)
  }

  /** The first of `salt1` .. `salt5` that is missing or that `int` rejects. */
  function FirstBadSalt(response: AuthReply): (k: nat)
    requires !AllSaltsOk(response)
    ensures 1 <= k <= 5 && !SaltOk(response, k)
    ensures forall j :: 1 <= j < k ==> SaltOk(response, j)
  {
    if !SaltOk(response, 1) then 1
    else if !SaltOk(response, 2) then 2
    else if !SaltOk(response, 3) then 3
    else if !SaltOk(response, 4) then 4
    else 5
  }

  /**
   * The list `[int(salt1), .., int(salt5)]`, read left to right: the first
   * bad salt raises.
   */
  function ReadSalts(response: AuthReply): (r: Result<seq<int>, ParseError>)
    ensures r.Success? <==> AllSaltsOk(response)
    ensures r.Success? ==> |r.value| == 5
    ensures r.Success? ==> forall k :: 1 <= k <= 5 ==> ReadSalt(response, k) == Success(r.value[k - 1])
    ensures r.Failure? ==> r.error == InvalidSalt(FirstBadSalt(response))
  {
    match ReadSalt(response, 1)
    case Failure(e) => Failure(e)
    case Success(s1) =>
      match ReadSalt(response, 2)
      case Failure(e) => Failure(e)
      case Success(s2) =>
        match ReadSalt(response, 3)
        case Failure(e) => Failure(e)
        case Success(s3) =>
          match ReadSalt(response, 4)
          case Failure(e) => Failure(e)
          case Success(s4) =>
            match ReadSalt(response, 5)
            case Failure(e) => Failure(e)
            case Success(s5) => Success([s1, s2, s3, s4, s5])
  }

  /** The access-token cut points n, l, o, p, q. */
  function AccessCuts(t: Transform, s: seq<int>): (r: Cuts)
    requires |s| == 5
    ensures forall k :: 0 <= k < 5 ==> PlanFits(AccessPlan[k].1) && CutAt(r, k) == t(AccessPlan[k].0, Permute(s, AccessPlan[k].1))
  {
    PlanArguments(s, 0); PlanArguments(s, 1); PlanArguments(s, 2); PlanArguments(s, 3); PlanArguments(s, 4);
    Cuts(t(Cdx, s),
         t(Rdx, [s[0], s[1], s[3], s[2], s[4]]),
         t(Bdx, [s[0], s[1], s[3], s[2], s[4]]),
         t(Ndx, [s[0], s[1], s[3], s[2], s[4]]),
         t(Mdx, [s[0], s[1], s[3], s[2], s[4]]))
  }

  /** The refresh-token cut points a, b, c, d, e. */
  function RefreshCuts(t: Transform, s: seq<int>): (r: Cuts)
    requires |s| == 5
    ensures forall k :: 0 <= k < 5 ==> PlanFits(RefreshPlan[k].1) && CutAt(r, k) == t(RefreshPlan[k].0, Permute(s, RefreshPlan[k].1))
  {
    PlanArguments(s, 0); PlanArguments(s, 1); PlanArguments(s, 2); PlanArguments(s, 3); PlanArguments(s, 4);
    Cuts(t(Cdx, [s[1], s[0], s[2], s[4], s[3]]),
         t(Rdx, [s[1], s[0], s[2], s[3], s[4]]),
         t(Bdx, [s[1], s[0], s[3], s[2], s[4]]),
         t(Ndx, [s[1], s[0], s[3], s[2], s[4]]),
         t(Mdx, [s[1], s[0], s[3], s[2], s[4]]))
  }

  /**
   * `tok[from:ck] + tok[ck+1:c(k+1)] + .. + tok[cn+1:]` for the cut points
   * `cuts[k..]` = [ck, .., cn]: the slices between the cut points, in order.
   */
  function Reassemble(tok: string, from: int, cuts: seq<int>, k: nat): (r: string)
    requires k <= |cuts|
    ensures forall ch :: ch in r ==> ch in tok
    decreases |cuts| - k
  {
    if k == |cuts| then SliceFrom(tok, from)
    else Slice(tok, from, cuts[k]) + Reassemble(tok, cuts[k] + 1, cuts, k + 1)
  }

  /** One step of the reassembly: the slice up to the cut point `cut` = `cuts[k]`, then the rest from just past it. */
  lemma ReassembleUnfold(tok: string, from: int, cuts: seq<int>, k: nat, cut: int)
    requires k < |cuts| && cuts[k] == cut
    ensures Reassemble(tok, from, cuts, k) == Slice(tok, from, cut) + Reassemble(tok, cut + 1, cuts, k + 1)
  {
  }

  /** The end of the reassembly: everything past the last cut point. */
  lemma ReassembleLast(tok: string, from: int, cuts: seq<int>)
    ensures Reassemble(tok, from, cuts, |cuts|) == SliceFrom(tok, from)
  {
  }

  function CutList(c: Cuts): seq<int> {
    [c.c0, c.c1, c.c2, c.c3, c.c4]
  }

  /**
   * The six-slice concatenation
   * `tok[0:c0] + tok[c0+1:c1] + tok[c1+1:c2] + tok[c2+1:c3] + tok[c3+1:c4] + tok[c4+1:]`.
   */
  function Descramble(tok: string, c: Cuts): (r: string)
    ensures forall ch :: ch in r ==> ch in tok
    ensures Increasing(c, |tok|) ==> r == RemoveAt(tok, CutSet(c)) && |r| == |tok| - 5
  {
    ReassembleRemovesCuts(tok, c);
    Reassemble(tok, 0, CutList(c), 0)
  }

  /** `parse_token_response(response)` with the transform module `t`. */
  function ParseTokenResponse(t: Transform, response: AuthReply): (r: Result<Parsed, ParseError>)
    ensures ReadSalts(response).Failure? ==> r == Failure(ReadSalts(response).error)
    ensures r.Success? <==>
              && ReadSalts(response).Success?
              && response.accessToken.Some? && response.accessToken.value.JStr?
              && response.refreshToken.Some? && response.refreshToken.value.JStr?
    ensures r.Success? ==> r.value.salts == ReadSalts(response).value
  {
    match ReadSalts(response)
    case Failure(e) => Failure(e)
    case Success(salts) =>
      var access := AccessCuts(t, salts);
      var refresh := RefreshCuts(t, salts);
      match (response.accessToken, response.refreshToken)
      case (None, _) => Failure(MissingToken("accessToken"))
      case (_, None) => Failure(MissingToken("refreshToken"))
      case (Some(a), Some(b)) =>
        if !a.JStr? then Failure(NotSliceable("accessToken"))
        else if !b.JStr? then Failure(NotSliceable("refreshToken"))
        else Success(Parsed(Descramble(a.s, access), Descramble(b.s, refresh), salts))
  }

  /** A loaded token parser: the map `parse_token_response` computes. */
  type Parser = AuthReply -> Result<Parsed, ParseError>

  /** The `NepseTokenParser` whose transform module is `t`. */
  function ParserOf(t: Transform): Parser {
    r => ParseTokenResponse(t, r)
  }

  // ----- The reference meaning of the reassembly -----

  /** The characters of `s[lo..hi]` whose positions are not in `drop`, in order. */
  function Keep<T>(s: seq<T>, drop: set<int>, lo: nat, hi: nat): seq<T>
    requires lo <= hi <= |s|
    decreases hi - lo
  {
    if lo == hi then []
    else Keep(s, drop, lo, hi - 1) + (if hi - 1 in drop then [] else [s[hi - 1]])
  }

  /** `s` with the characters at the positions in `drop` removed. */
  function RemoveAt<T>(s: seq<T>, drop: set<int>): seq<T> {
    Keep(s, drop, 0, |s|)
  }

  lemma {:induction false} KeepUntouched<T>(s: seq<T>, drop: set<int>, lo: nat, hi: nat)
    requires lo <= hi <= |s|
    requires forall k :: lo <= k < hi ==> k !in drop
    ensures Keep(s, drop, lo, hi) == s[lo..hi]
    decreases hi - lo
  {
    if lo < hi {
      KeepUntouched(s, drop, lo, hi - 1);
      assert s[lo..hi] == s[lo..hi - 1] + [s[hi - 1]];
    }
  }

  lemma {:induction false} KeepSplit<T>(s: seq<T>, drop: set<int>, lo: nat, mid: nat, hi: nat)
    requires lo <= mid <= hi <= |s|
    ensures Keep(s, drop, lo, hi) == Keep(s, drop, lo, mid) + Keep(s, drop, mid, hi)
    decreases hi - mid
  {
    if mid < hi {
      KeepSplit(s, drop, lo, mid, hi - 1);
    }
  }

  /** Keeping from `lo` up to the first dropped position `c`: `s[lo..c]`, then what follows `c`. */
  lemma KeepStep<T>(s: seq<T>, drop: set<int>, lo: nat, c: nat, hi: nat)
    requires lo <= c < hi <= |s| && c in drop
    requires forall k :: lo <= k < c ==> k !in drop
    ensures Keep(s, drop, lo, hi) == s[lo..c] + Keep(s, drop, c + 1, hi)
  {
    KeepSplit(s, drop, lo, c + 1, hi);
    KeepSplit(s, drop, lo, c, c + 1);
    KeepUntouched(s, drop, lo, c);
  }

  predicate Increasing(c: Cuts, len: nat) {
    0 <= c.c0 < c.c1 < c.c2 < c.c3 < c.c4 < len
  }

  function CutSet(c: Cuts): set<int> {
    {c.c0, c.c1, c.c2, c.c3, c.c4}
  }

  /** The cut points `cuts[k..]` strictly increase and lie in `from .. len - 1`. */
  predicate AscendingFrom(from: int, cuts: seq<int>, k: nat, len: nat)
    requires k <= |cuts|
  {
    && 0 <= from
    && (forall i :: k <= i < |cuts| ==> from <= cuts[i] < len)
    && (forall i, j :: k <= i < j < |cuts| ==> cuts[i] < cuts[j])
  }

  /** Past the first cut point `cuts[k]`, the remaining cut points are `cuts[k + 1..]`, and none lies before it. */
  lemma FirstCut(from: int, cuts: seq<int>, k: nat, len: nat)
    requires k < |cuts| && AscendingFrom(from, cuts, k, len)
    ensures forall p :: from <= p < cuts[k] ==> p !in cuts[k..]
    ensures forall p :: cuts[k] < p ==> (p in cuts[k..] <==> p in cuts[k + 1..])
    ensures AscendingFrom(cuts[k] + 1, cuts, k + 1, len)
  {
    assert cuts[k..] == [cuts[k]] + cuts[k + 1..];
  }

  /**
   * With ascending cut points inside the token, reassembling from `from` keeps
   * exactly the characters of `tok[from..]` whose positions are not cut
   * points, for any drop set that agrees with the cut points there.
   */
  lemma {:induction false} ReassembleKeeps(tok: string, from: int, cuts: seq<int>, k: nat, drop: set<int>)
    requires k <= |cuts| && AscendingFrom(from, cuts, k, |tok|) && from <= |tok|
    requires forall p :: from <= p < |tok| ==> (p in drop <==> p in cuts[k..])
    ensures Reassemble(tok, from, cuts, k) == Keep(tok, drop, from, |tok|)
    decreases |cuts| - k
  {
    if k == |cuts| {
      KeepUntouched(tok, drop, from, |tok|);
    } else {
      var c := cuts[k];
      FirstCut(from, cuts, k, |tok|);
      var rest := Reassemble(tok, c + 1, cuts, k + 1);
      assert rest == Keep(tok, drop, c + 1, |tok|) by { ReassembleKeeps(tok, c + 1, cuts, k + 1, drop); }
      assert Keep(tok, drop, from, |tok|) == tok[from..c] + Keep(tok, drop, c + 1, |tok|) by {
        KeepStep(tok, drop, from, c, |tok|);
      }
      SliceInRange(tok, from, c);
      assert Reassemble(tok, from, cuts, k) == tok[from..c] + rest;
    }
  }

  /** With ascending cut points inside the token, reassembling from `from` drops one character per cut point. */
  lemma {:induction false} ReassembleLength(tok: string, from: int, cuts: seq<int>, k: nat)
    requires k <= |cuts| && AscendingFrom(from, cuts, k, |tok|) && from <= |tok|
    ensures |Reassemble(tok, from, cuts, k)| == |tok| - from - (|cuts| - k)
    decreases |cuts| - k
  {
    if k < |cuts| {
      FirstCut(from, cuts, k, |tok|);
      ReassembleLength(tok, cuts[k] + 1, cuts, k + 1);
      SliceInRange(tok, from, cuts[k]);
    }
  }

  /**
   * With five strictly increasing cut points inside the token, the reassembly
   * over the five cut points is the token with exactly the characters at the
   * cut points removed, order kept, five characters shorter.
   */
  lemma ReassembleRemovesCuts(tok: string, c: Cuts)
    ensures Increasing(c, |tok|) ==> Reassemble(tok, 0, CutList(c), 0) == RemoveAt(tok, CutSet(c))
    ensures Increasing(c, |tok|) ==> |Reassemble(tok, 0, CutList(c), 0)| == |tok| - 5
  {
    if Increasing(c, |tok|) {
      var l := CutList(c);
      assert AscendingFrom(0, l, 0, |tok|);
      assert l[0..] == l;
      ReassembleKeeps(tok, 0, l, 0, CutSet(c));
      ReassembleLength(tok, 0, l, 0);
    }
  }

  /** The descrambled tokens of a parsed reply lose exactly their cut characters. */
  lemma ParsedTokensDropCutCharacters(t: Transform, response: AuthReply)
    requires ParseTokenResponse(t, response).Success?
    ensures var p := ParseTokenResponse(t, response).value;
            var access, refresh := response.accessToken.value.s, response.refreshToken.value.s;
            && (Increasing(AccessCuts(t, p.salts), |access|) ==>
                  p.accessToken == RemoveAt(access, CutSet(AccessCuts(t, p.salts)))
                  && |p.accessToken| == |access| - 5)
            && (Increasing(RefreshCuts(t, p.salts), |refresh|) ==>
                  p.refreshToken == RemoveAt(refresh, CutSet(RefreshCuts(t, p.salts)))
                  && |p.refreshToken| == |refresh| - 5)
  {
    var p := ParseTokenResponse(t, response).value;
    var access, refresh := response.accessToken.value.s, response.refreshToken.value.s;
    if Increasing(AccessCuts(t, p.salts), |access|) {
      
    }
    if Increasing(RefreshCuts(t, p.salts), |refresh|) {
      
    }
  }

  /** A bad salt is reported whatever the transform module computes: no export is consulted. */
  lemma SaltErrorIndependentOfTransform(t1: Transform, t2: Transform, response: AuthReply)
    requires ReadSalts(response).Failure?
    ensures ParseTokenResponse(t1, response) == ParseTokenResponse(t2, response)
    ensures ParseTokenResponse(t1, response).Failure?
    ensures ParseTokenResponse(t1, response).error.InvalidSalt?
  {
  }

  // ----- The salt permutations as protocol constants -----

  /** For each access cut point: the export called and the salt positions it is passed. */
  const AccessPlan: seq<(Export, seq<nat>)> :=
    [(Cdx, [0, 1, 2, 3, 4]), (Rdx, [0, 1, 3, 2, 4]), (Bdx, [0, 1, 3, 2, 4]),
     (Ndx, [0, 1, 3, 2, 4]), (Mdx, [0, 1, 3, 2, 4])]

  /** For each refresh cut point: the export called and the salt positions it is passed. */
  const RefreshPlan: seq<(Export, seq<nat>)> :=
    [(Cdx, [1, 0, 2, 4, 3]), (Rdx, [1, 0, 2, 3, 4]), (Bdx, [1, 0, 3, 2, 4]),
     (Ndx, [1, 0, 3, 2, 4]), (Mdx, [1, 0, 3, 2, 4])]

  /** Every position of the row names one of the five salts. */
  predicate PlanFits(row: seq<nat>) {
    forall j :: 0 <= j < |row| ==> row[j] < 5
  }

  /** The salts picked out in the order `order` gives. */
  function Permute(s: seq<int>, order: seq<nat>): (r: seq<int>)
    requires forall k :: 0 <= k < |order| ==> order[k] < |s|
    ensures |r| == |order|
    ensures forall k :: 0 <= k < |order| ==> r[k] == s[order[k]]
  {
    seq(|order|, k requires 0 <= k < |order| => s[order[k]])
  }

  function CutAt(c: Cuts, k: nat): int
    requires k < 5
  {
    [c.c0, c.c1, c.c2, c.c3, c.c4][k]
  }

  /** Five positions, each of 0 .. 4 among them: an ordering of all five salts, each once. */
  predicate Rearranges(row: seq<nat>) {
    |row| == 5 && forall v :: 0 <= v < 5 ==> v in row
  }

  /** Every argument tuple is a rearrangement of all five salts. */
  lemma PlansArePermutations()
    ensures forall k :: 0 <= k < 5 ==> Rearranges(AccessPlan[k].1)
    ensures forall k :: 0 <= k < 5 ==> Rearranges(RefreshPlan[k].1)
  {
  }

  /** The salt tuples the two plans pick out, row by row. */
  lemma PlanArguments(s: seq<int>, k: nat)
    requires |s| == 5 && k < 5
    ensures PlanFits(AccessPlan[k].1) && PlanFits(RefreshPlan[k].1)
    ensures Permute(s, AccessPlan[k].1) == if k == 0 then s else [s[0], s[1], s[3], s[2], s[4]]
    ensures Permute(s, RefreshPlan[k].1)
         == [[s[1], s[0], s[2], s[4], s[3]], [s[1], s[0], s[2], s[3], s[4]], [s[1], s[0], s[3], s[2], s[4]],
             [s[1], s[0], s[3], s[2], s[4]], [s[1], s[0], s[3], s[2], s[4]]][k]
  {
  }
}
