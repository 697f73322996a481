/**
 * The in-memory cache: string keys to values, each entry with an optional
 * time-to-live in seconds counted from when it was stored. Expired entries
 * are dropped when read, or all at once by a cleanup.
 */
module TtlCache {
  import opened Optional
  import opened Schemas

  const MicrosPerSecond: int := 1_000_000

  /** The time-to-live `set` gives an entry when the caller names none: one hour. */
  const DefaultTtlSeconds: int := 3600

  /** A stored value, the time it was stored and its time-to-live (None: it never expires). */
  datatype CacheEntry<V> = CacheEntry(value: V, createdAt: Micros, ttlSeconds: Option<int>)

  /**
   * `CacheEntry.is_expired` read at time `now`: the seconds elapsed since the
   * entry was stored exceed its time-to-live. Elapsed microseconds compared
   * with the time-to-live in microseconds is the same test without division.
   */
  predicate IsExpired<V>(e: CacheEntry<V>, now: Micros): (expired: bool)
    ensures expired ==> e.ttlSeconds.Some?
    ensures expired && 0 <= e.ttlSeconds.value ==> e.createdAt < now
  {
    e.ttlSeconds.Some? && now - e.createdAt > e.ttlSeconds.value * MicrosPerSecond
  }

  /** An entry without a time-to-live never expires. */
  lemma NoTtlNeverExpires<V>(e: CacheEntry<V>, now: Micros)
    requires e.ttlSeconds.None?
    ensures !IsExpired(e, now)
  {
  }

  /** Once expired, an entry stays expired. */
  lemma ExpiryIsPermanent<V>(e: CacheEntry<V>, now: Micros, later: Micros)
    requires IsExpired(e, now) && now <= later
    ensures IsExpired(e, later)
  {
  }

  /**
   * An entry with a non-negative time-to-live is live for exactly that many
   * seconds after it was stored, including the last instant.
   */
  lemma LiveForItsTtl<V>(e: CacheEntry<V>, now: Micros)
    requires e.ttlSeconds.Some? && 0 <= e.ttlSeconds.value
    requires e.createdAt <= now
    ensures !IsExpired(e, now) <==> now - e.createdAt <= e.ttlSeconds.value * MicrosPerSecond
  {
  }

  /** The entries of `m` still live at `now`. */
  function LiveEntries<V>(m: map<string, CacheEntry<V>>, now: Micros): (r: map<string, CacheEntry<V>>)
    ensures forall k :: k in r <==> k in m && !IsExpired(m[k], now)
    ensures forall k :: k in r ==> r[k] == m[k]
  {
    map k | k in m && !IsExpired(m[k], now) :: m[k]
  }

  class MemoryCache<V> {
    /** Key to entry. */
    var cache: map<string, CacheEntry<V>>

    /** `MemoryCache.__init__`: an empty cache. */
    constructor ()
      ensures cache == map[]
    {
      cache := map[];
    }

    /**
     * `MemoryCache.set`: stores `value` under `key` at time `now`, replacing
     * any entry there; the time-to-live is one hour unless the caller gives
     * another, or None.
     */
    method Set(key: string, value: V, now: Micros, ttlSeconds: Option<int> := Some(DefaultTtlSeconds))
      modifies this
      ensures cache == old(cache)[key := CacheEntry(value, now, ttlSeconds)]
    {
      cache := cache[key := CacheEntry(value, now, ttlSeconds)];
    }

    /**
     * `MemoryCache.get` at time `now`: the value of a live entry; None for a
     * missing key, and None for an expired entry, which is removed.
     */
    method Get(key: string, now: Micros) returns (r: Option<V>)
      modifies this
      ensures key !in old(cache) ==> r == None && cache == old(cache)
      ensures key in old(cache) && IsExpired(old(cache)[key], now) ==>
        r == None && cache == old(cache) - {key}
      ensures key in old(cache) && !IsExpired(old(cache)[key], now) ==>
        r == Some(old(cache)[key].value) && cache == old(cache)
      ensures LiveEntries(cache, now) == LiveEntries(old(cache), now)
    {
      if key !in cache {
        return None;
      }
      var entry := cache[key];
      if IsExpired(entry, now) {
        cache := cache - {key};
        return None;
      }
      r := Some(entry.value);
    }

    /** `MemoryCache.delete`: removes the entry under `key`, if any. */
    method Delete(key: string)
      modifies this
      ensures cache == old(cache) - {key}
    {
      if key in cache {
        cache := cache - {key};
      }
    }

    /** `MemoryCache.clear`: removes every entry. */
    method Clear()
      modifies this
      ensures cache == map[]
    {
      cache := map[];
    }

    /**
     * `MemoryCache.cleanup_expired` at time `now`: removes every entry
     * expired at that time and keeps the rest untouched.
     */
    method CleanupExpired(now: Micros)
      modifies this
      ensures cache == LiveEntries(old(cache), now)
    {
      var expired := set k | k in cache && IsExpired(cache[k], now);
      ghost var original := cache;
      while expired != {}
        invariant expired <= original.Keys
        invariant forall k :: k in expired ==> IsExpired(original[k], now)
        invariant forall k :: k in cache <==> k in original && (k in expired || !IsExpired(original[k], now))
        invariant forall k :: k in cache ==> cache[k] == original[k]
        decreases expired
      {
        var k :| k in expired;
        cache := cache - {k};
        expired := expired - {k};
      }
    }
  }

  /**
   * A value stored with a time-to-live of `ttl` seconds is read back until
   * `ttl` seconds have passed, and after that is gone and reads as missing.
   */
  method SetThenGet<V>(key: string, value: V, ttl: nat, storedAt: Micros, readAt: Micros)
    returns (first: Option<V>, second: Option<V>, size: nat)
    requires storedAt <= readAt
    ensures readAt - storedAt <= ttl * MicrosPerSecond ==> first == Some(value) && second == Some(value) && size == 1
    ensures readAt - storedAt > ttl * MicrosPerSecond ==> first == None && second == None && size == 0
  {
    var c := new MemoryCache<V>();
    c.Set(key, value, storedAt, Some(ttl));
    first := c.Get(key, readAt);
    second := c.Get(key, readAt);
    size := |c.cache|;
  }

  /**
   * A value stored without naming a time-to-live is read back for one hour
   * after it was stored, and is gone after that.
   */
  method DefaultTtlIsOneHour<V>(key: string, value: V, storedAt: Micros, readAt: Micros) returns (r: Option<V>)
    ensures r == Some(value) <==> readAt - storedAt <= 3600 * MicrosPerSecond
    ensures r == None <==> readAt - storedAt > 3600 * MicrosPerSecond
  {
    var c := new MemoryCache<V>();
    c.Set(key, value, storedAt);
    r := c.Get(key, readAt);
  }
}
