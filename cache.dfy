/**
 * `CacheManager` of nepse_data_api/market.py: a dictionary from keys to
 * `(value, expires_at)` pairs, read and written in place.  The clock is an
 * integer parameter (seconds) instead of `time.time()`.
 */
module Cache {
  import opened Wrappers

  datatype Entry<V> = Entry(value: V, expiresAt: int)

  type Table<V> = map<string, Entry<V>>

  /** `ttl or default_ttl`: a missing or zero ttl falls back to the default. */
  function EffectiveTtl(ttl: Option<int>, defaultTtl: int): (r: int)
    ensures ttl.Some? && ttl.value != 0 ==> r == ttl.value
    ensures ttl.None? || ttl.value == 0 ==> r == defaultTtl
  {
    match ttl
    case Some(t) => if t != 0 then t else defaultTtl
    case None => defaultTtl
  }

  /**
   * `get(key)` at time `now`: the value while it is fresh; an expired entry is
   * deleted and nothing is returned.  No other key is touched.
   */
  function Lookup<V>(m: Table<V>, key: string, now: int): (r: (Option<V>, Table<V>))
    ensures r.0.Some? <==> key in m && now < m[key].expiresAt
    ensures r.0.Some? ==> r.0.value == m[key].value && r.1 == m
    ensures key in m && now >= m[key].expiresAt ==> r.1.Keys == m.Keys - {key}
    ensures key !in m ==> r.1 == m
    ensures forall k :: k in r.1 <==> k in m && (k != key || r.0.Some?)
    ensures forall k :: k in r.1 ==> r.1[k] == m[k]
  {
    if key in m then
      if now < m[key].expiresAt then (Some(m[key].value), m)
      else (None, m - {key})
    else (None, m)
  }

  /** `set(key, value, ttl)` at time `now`: only `key` changes, to a fresh entry. */
  function Store<V>(m: Table<V>, key: string, value: V, ttl: Option<int>, defaultTtl: int, now: int): (r: Table<V>)
    ensures key in r && r[key] == Entry(value, now + EffectiveTtl(ttl, defaultTtl))
    ensures r.Keys == m.Keys + {key}
    ensures forall k :: k in m && k != key ==> r[k] == m[k]
  {
    m[key := Entry(value, now + EffectiveTtl(ttl, defaultTtl))]
  }

  /** A get before the entry expires returns what was set and leaves the table as it was. */
  lemma GetAfterSet<V>(m: Table<V>, key: string, value: V, ttl: Option<int>, defaultTtl: int, setAt: int, now: int)
    requires now < setAt + EffectiveTtl(ttl, defaultTtl)
    ensures var m' := Store(m, key, value, ttl, defaultTtl, setAt);
            Lookup(m', key, now) == (Some(value), m')
  {
  }

  /** From the moment the entry expires, a get returns nothing and removes the key. */
  lemma GetAfterExpiry<V>(m: Table<V>, key: string, value: V, ttl: Option<int>, defaultTtl: int, setAt: int, now: int)
    requires now >= setAt + EffectiveTtl(ttl, defaultTtl)
    ensures var m' := Store(m, key, value, ttl, defaultTtl, setAt);
            Lookup(m', key, now) == (None, m - {key})
  {
    var m' := Store(m, key, value, ttl, defaultTtl, setAt);
    assert m' - {key} == m - {key};
  }

  /** Setting one key does not change what a get of another key answers. */
  lemma SetLeavesOtherKeys<V>(m: Table<V>, key: string, other: string, value: V, ttl: Option<int>,
                              defaultTtl: int, setAt: int, now: int)
    requires other != key
    ensures Lookup(Store(m, key, value, ttl, defaultTtl, setAt), other, now).0 == Lookup(m, other, now).0
  {
  }

  class CacheManager<V> {
    var entries: Table<V>
    const defaultTtl: int

    /** `CacheManager(default_ttl)`: an empty cache. */
    constructor (defaultTtl: int)
      ensures entries == map[] && this.defaultTtl == defaultTtl
    {
      entries := map[];
      this.defaultTtl := defaultTtl;
    }

    method Get(key: string, now: int) returns (r: Option<V>)
      modifies this
      ensures (r, entries) == Lookup(old(entries), key, now)
    {
      r := None;
      if key in entries {
        var e := entries[key];
        if now < e.expiresAt {
          return Some(e.value);
        } else {
          entries := entries - {key};
        }
      }
    }

    method Set(key: string, value: V, ttl: Option<int>, now: int)
      modifies this
      ensures entries == Store(old(entries), key, value, ttl, defaultTtl, now)
    {
      var t := EffectiveTtl(ttl, defaultTtl);
      var expiresAt := now + t;
      entries := entries[key := Entry(value, expiresAt)];
    }

    method Clear()
      modifies this
      ensures entries == map[]
    {
      entries := map[];
    }
  }
}
