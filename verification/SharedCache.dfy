/** Expiring cache entries (cache/gocache.go); the store itself is a map field of each service. */
module SharedCache {
  import opened Wrappers

  datatype Entry<V> = Entry(value: V, expires: Option<int>)

  /** A positive lifetime expires, zero means the cache's default, anything else never expires. */
  function Expiry(ttl: int, defaultTTL: int, now: int): Option<int> {
    var d := if ttl == 0 then defaultTTL else ttl;
    if d > 0 then Some(now + d) else None
  }

  predicate Live<V>(e: Entry<V>, now: int) {
    e.expires.None? || now <= e.expires.value
  }

  predicate Has<V>(cache: map<string, Entry<V>>, key: string, now: int) {
    key in cache && Live(cache[key], now)
  }
}
