/**
 * The site-path cache (APCu), as a map from key to value and expiry time,
 * read and written at an explicit time `now`. An entry is live while
 * `now < expiresAt`; an expired entry reads as absent. Writes go through
 * apcu_add, which stores only when no live entry has the key.
 */
module SiteCache {

  import opened Wrappers

  /** Seconds a resolved site path stays in the cache. */
  const SITE_PATH_TTL: nat := 3600

  const KEY_PREFIX := "valet_site_path"

  datatype CacheEntry = CacheEntry(value: string, expiresAt: int)

  type CacheMap = map<string, CacheEntry>

  /** The cache key of a site name: the name behind a fixed prefix, so distinct names never share a key. */
  function CacheKey(siteName: string): (key: string)
    ensures |key| == |KEY_PREFIX| + |siteName| && key[|KEY_PREFIX|..] == siteName
  {
    KEY_PREFIX + siteName
  }

  /** apcu_fetch: the value of a live entry, None for a missing or expired one. */
  function Fetch(cache: CacheMap, key: string, now: int): (r: Option<string>)
    ensures r.Some? <==> key in cache && now < cache[key].expiresAt
    ensures r.Some? ==> r.value == cache[key].value
  {
    if key in cache && now < cache[key].expiresAt then Some(cache[key].value) else None
  }

  /**
   * apcu_add: store `value` under `key` for `ttl` seconds from `now`, unless
   * a live entry already holds the key, in which case nothing changes. APCu
   * reads a ttl of 0 as "never expires"; the router always passes 3600, so
   * only positive ttls are modelled.
   */
  function Add(cache: CacheMap, key: string, value: string, ttl: nat, now: int): (r: CacheMap)
    requires ttl > 0
    ensures Fetch(cache, key, now).Some? ==> r == cache
    ensures Fetch(cache, key, now).None? ==>
      forall t :: now <= t < now + ttl ==> Fetch(r, key, t) == Some(value)
    ensures Fetch(cache, key, now).None? ==>
      forall t :: now + ttl <= t ==> Fetch(r, key, t).None?
    ensures forall k, t :: k != key ==> Fetch(r, k, t) == Fetch(cache, k, t)
  {
    if Fetch(cache, key, now).Some? then cache else cache[key := CacheEntry(value, now + ttl)]
  }

  /** The process-wide cache store. */
  class Store {
    var entries: CacheMap

    constructor ()
      ensures entries == map[]
    {
      entries := map[];
    }

    method FetchAt(key: string, now: int) returns (r: Option<string>)
      ensures r == Fetch(entries, key, now)
    {
      if key in entries && now < entries[key].expiresAt {
        r := Some(entries[key].value);
      } else {
        r := None;
      }
    }

    /** Returns whether the value was stored. */
    method AddAt(key: string, value: string, ttl: nat, now: int) returns (added: bool)
      requires ttl > 0
      modifies this
      ensures added <==> Fetch(old(entries), key, now).None?
      ensures entries == Add(old(entries), key, value, ttl, now)
    {
      added := !(key in entries && now < entries[key].expiresAt);
      if added {
        entries := entries[key := CacheEntry(value, now + ttl)];
      }
    }
  }
}
