/**
 * Two list operations of nepse_data_api/market.py applied to fetched data:
 * the `limit` slice of `get_top_gainers` / `get_top_losers`, and the local
 * date-range filter `get_historical_chart` applies to company charts.
 */
module MarketData {
  import opened Wrappers
  import opened PySlice

  /** `data[:limit] if limit else data`: a missing or zero limit keeps everything. */
  function TopEntries<T>(data: seq<T>, limit: Option<int>): (r: seq<T>)
    ensures limit.None? || limit.value == 0 ==> r == data
    ensures limit.Some? && 0 < limit.value <= |data| ==> r == data[..limit.value] && |r| == limit.value
    ensures limit.Some? && limit.value > |data| ==> r == data
    ensures limit.Some? && limit.value < 0 && |data| + limit.value >= 0 ==> r == data[..|data| + limit.value]
    ensures limit.Some? && |data| + limit.value < 0 ==> r == []
  {
    if limit.None? || limit.value == 0 then data else SliceTo(data, limit.value)
  }

  /** A chart point; `t` is its timestamp in milliseconds, absent when the point has no `t` key. */
  datatype Point<V> = Point(t: Option<int>, rest: V)

  predicate InRange<V>(p: Point<V>, startTs: int, endTs: int) {
    p.t.Some? && startTs <= p.t.value <= endTs
  }

  /** `[d for d in data if 't' in d and start_ts <= d['t'] <= end_ts]` */
  function FilterByTime<V>(data: seq<Point<V>>, startTs: int, endTs: int): (r: seq<Point<V>>)
    ensures |r| <= |data|
    ensures forall p :: p in r ==> p in data && InRange(p, startTs, endTs)
    ensures forall p :: p in data && InRange(p, startTs, endTs) ==> p in r
    ensures (forall p :: p in data ==> InRange(p, startTs, endTs)) ==> r == data
  {
    if data == [] then []
    else
      var rest := FilterByTime(data[1..], startTs, endTs);
      if InRange(data[0], startTs, endTs) then [data[0]] + rest else rest
  }

  /** The filter keeps order and multiplicity: it distributes over concatenation ... */
  lemma {:induction false} FilterByTimeAppend<V>(a: seq<Point<V>>, b: seq<Point<V>>, startTs: int, endTs: int)
    ensures FilterByTime(a + b, startTs, endTs) == FilterByTime(a, startTs, endTs) + FilterByTime(b, startTs, endTs)
  {
    if a == [] {
      assert a + b == b;
    } else {
      assert (a + b)[1..] == a[1..] + b;
      FilterByTimeAppend(a[1..], b, startTs, endTs);
    }
  }

  /** ... and on one point it keeps that point exactly when it lies in the range. */
  lemma FilterByTimeSingle<V>(p: Point<V>, startTs: int, endTs: int)
    ensures InRange(p, startTs, endTs) ==> FilterByTime([p], startTs, endTs) == [p]
    ensures !InRange(p, startTs, endTs) ==> FilterByTime([p], startTs, endTs) == []
  {
    assert [p][1..] == [];
  }

  /** The security id of the NEPSE index, whose chart the server filters itself. */
  const IndexId := 58

  /**
   * The data `get_historical_chart` returns after a successful fetch: company
   * data is filtered locally when both dates are given and the data is not
   * empty; the dates are given here already converted to timestamps.
   */
  function ChartData<V>(securityId: int, startTs: Option<int>, endTs: Option<int>, data: seq<Point<V>>): (r: seq<Point<V>>)
    ensures securityId == IndexId || startTs.None? || endTs.None? ==> r == data
    ensures forall p :: p in r ==> p in data
    ensures securityId != IndexId && startTs.Some? && endTs.Some? ==>
              forall p :: p in data ==> (p in r <==> InRange(p, startTs.value, endTs.value))
    ensures securityId != IndexId && startTs.Some? && endTs.Some? ==>
              r == FilterByTime(data, startTs.value, endTs.value)
  {
    if securityId != IndexId && startTs.Some? && endTs.Some? && data != [] then
      FilterByTime(data, startTs.value, endTs.value)
    else data
  }
}
