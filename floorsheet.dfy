/**
 * The page loop of `Nepse.get_floorsheet` (nepse_data_api/market.py): fetch
 * pages `page, page+1, ...` and gather their records until a page is empty or
 * fails, the last page is reached, or the page limit is met.
 *
 * The server is a finite sequence of replies indexed by page number; a page
 * past its end answers with no content, as a server does past its last page.
 */
module Floorsheet {
  import opened Wrappers
  import Http

  /** The `floorsheets` object of a page reply; absent keys are `None`. */
  datatype Sheet<R> = Sheet(content: Option<seq<R>>, totalPages: Option<int>)

  /** A page reply; `floorsheets` may be absent. */
  datatype PageBody<R> = PageBody(floorsheets: Option<Sheet<R>>)

  type Server<R> = seq<Http.Reply<PageBody<R>>>

  /** What one request for page `j` yields: its records and `totalPages`, or the exception. */
  function FetchPage<R>(src: Server<R>, j: nat): (r: Result<(seq<R>, int), Http.Failure>)
    ensures j >= |src| ==> r == Success(([], 1))
    ensures j < |src| ==> (r.Failure? <==> Http.Receive(src[j]).Failure?)
    ensures j < |src| && r.Failure? ==> r.error == Http.Receive(src[j]).error
    ensures j < |src| && r.Success? && Http.Receive(src[j]).value.floorsheets.None? ==> r.value == ([], 1)
  {
    if j >= |src| then Success(([], 1))
    else match Http.Receive(src[j])
      case Failure(e) => Failure(e)
      case Success(body) =>
        var sheet := body.floorsheets.GetOr(Sheet(None, None));
        Success((sheet.content.GetOr([]), sheet.totalPages.GetOr(1)))
  }

  /** Page `j` is fetched and has records. */
  predicate Delivers<R>(src: Server<R>, j: nat) {
    FetchPage(src, j).Success? && FetchPage(src, j).value.0 != []
  }

  /**
   * After gathering page `j` of a run that started at page `first` (so
   * `j - first + 1` pages are gathered), the loop asks for the next page.
   */
  predicate GoesOn<R>(src: Server<R>, first: nat, j: nat, limit: int)
    requires first <= j && Delivers(src, j)
  {
    var total := FetchPage(src, j).value.1;
    && !(j >= total - 1)
    && !(limit > 0 && j - first + 1 >= limit)
  }

  /** The records of pages `lo .. hi-1`, in page order. */
  function Records<R>(src: Server<R>, lo: nat, hi: nat): seq<R>
    requires lo <= hi
    requires forall j :: lo <= j < hi ==> Delivers(src, j)
    decreases hi - lo
  {
    if lo == hi then []
    else assert Delivers(src, hi - 1); Records(src, lo, hi - 1) + FetchPage(src, hi - 1).value.0
  }

  /**
   * The records a run that started at page `first` gathers from page `j` on:
   * page `j`'s records, then, if the loop goes on, those from page `j + 1`.
   */
  function Collected<R>(src: Server<R>, first: nat, j: nat, limit: int): seq<R>
    requires first <= j
    decreases |src| - j
  {
    if j >= |src| || !Delivers(src, j) then []
    else if GoesOn(src, first, j, limit) then FetchPage(src, j).value.0 + Collected(src, first, j + 1, limit)
    else FetchPage(src, j).value.0
  }

  /**
   * What a run gathers from page `j` on starts with page `j`'s records, is
   * empty exactly when page `j` fails or is empty, and is page `j`'s records
   * alone when the loop stops there.
   */
  lemma CollectedStep<R>(src: Server<R>, first: nat, j: nat, limit: int)
    requires first <= j
    ensures Collected(src, first, j, limit) != [] <==> Delivers(src, j)
    ensures Delivers(src, j) ==> FetchPage(src, j).value.0 <= Collected(src, first, j, limit)
    ensures Delivers(src, j) && GoesOn(src, first, j, limit) ==>
              Collected(src, first, j, limit) == FetchPage(src, j).value.0 + Collected(src, first, j + 1, limit)
    ensures Delivers(src, j) && !GoesOn(src, first, j, limit) ==>
              Collected(src, first, j, limit) == FetchPage(src, j).value.0
  {
  }

  /**
   * The loop.  `records` is the concatenation of the pages fetched, each of
   * which had records; every page but the last asked for another; and the loop
   * stopped for one of the source's three reasons.  With a positive limit, no
   * more than `limit` pages are gathered.
   */
  method CollectPages<R>(src: Server<R>, page: nat, limit: int) returns (records: seq<R>, fetched: nat)
    ensures forall j :: page <= j < page + fetched ==> Delivers(src, j)
    ensures records == Records(src, page, page + fetched)
    ensures forall j :: page <= j < page + fetched - 1 ==> GoesOn(src, page, j, limit)
    ensures fetched == 0 ==> !Delivers(src, page)
    ensures fetched > 0 ==> !GoesOn(src, page, page + fetched - 1, limit) || !Delivers(src, page + fetched)
    ensures limit > 0 ==> fetched <= limit
    ensures records == Collected(src, page, page, limit)
  {
    records := [];
    fetched := 0;
    var current := page;
    while true
      invariant current == page + fetched
      invariant forall j :: page <= j < current ==> Delivers(src, j)
      invariant records == Records(src, page, current)
      invariant forall j :: page <= j < current ==> GoesOn(src, page, j, limit)
      invariant limit > 0 ==> fetched < limit
      invariant records + Collected(src, page, current, limit) == Collected(src, page, page, limit)
      decreases |src| - current
    {
      var reply := FetchPage(src, current);
      if reply.Failure? {
        break;
      }
      var (content, totalPages) := reply.value;
      if content == [] {
        break;
      }
      records := records + content;
      fetched := fetched + 1;
      if current >= totalPages - 1 {
        return;
      }
      if limit > 0 && fetched >= limit {
        return;
      }
      current := current + 1;
    }
  }

  /** `limit if limit is not None else (0 if by symbol else 1)`: all pages for a symbol, one page for the whole market. */
  function EffectiveLimit(limit: Option<int>, bySymbol: bool): (r: int)
    ensures limit.Some? ==> r == limit.value
    ensures limit.None? && bySymbol ==> r == 0
    ensures limit.None? && !bySymbol ==> r == 1
  {
    limit.GetOr(if bySymbol then 0 else 1)
  }
}
