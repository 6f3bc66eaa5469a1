/** The cache-aside layer: its code over a Redis that expires keys. */
module Cache {
  import opened Flights

  /** An awaited call returns or raises. */
  datatype Reply<+T> = Ok(value: T) | Raises

  /** A JSON text, and the instant from which Redis no longer has it. */
  datatype Stored = Stored(value: string, expires: int)

  function Lookup(store: map<string, Stored>, key: string, now: int): Option<string> {
    if key in store && now < store[key].expires then Some(store[key].value) else None
  }

  function Put(store: map<string, Stored>, key: string, value: string, now: int, ttl: nat): map<string, Stored> {
    store[key := Stored(value, now + ttl)]
  }

  class RedisStore {
    var store: map<string, Stored>

    constructor ()
      ensures store == map[]
    {
      store := map[];
    }

    method Get(key: string, now: int, ok: bool) returns (raw: Reply<Option<string>>)
      ensures raw == if ok then Ok(Lookup(store, key, now)) else Raises
    {
      if !ok {
        return Raises;
      }
      if key in store {
        if store[key].expires > now {
          return Ok(Some(store[key].value));
        }
      }
      return Ok(None);
    }

    method Set(key: string, value: string, now: int, ttl: nat, ok: bool, applied: bool) returns (done: Reply<()>)
      modifies this
      ensures store == if applied then Put(old(store), key, value, now, ttl) else old(store)
      ensures done == if ok then Ok(()) else Raises
    {
      if applied {
        store := store[key := Stored(value, now + ttl)];
      }
      done := if ok then Ok(()) else Raises;
    }

    method Delete(key: string, ok: bool, applied: bool) returns (done: Reply<()>)
      modifies this
      ensures store == if applied then old(store) - {key} else old(store)
      ensures done == if ok then Ok(()) else Raises
    {
      if applied {
        store := store - {key};
      }
      done := if ok then Ok(()) else Raises;
    }
  }

  /** When the awaits of one get_or_set happen and how they end, and what other
      calls, expiry and invalidation do between its get and its end: the store they
      leave, and the hits and misses other calls count on the same layer. */
  datatype Timing = Timing(
    getAt: int, got: bool,
    loaded: Reply<Option<string>>,
    between: map<string, Stored>, otherHits: nat, otherMisses: nat,
    setAt: int, stored: bool, setApplied: bool)

  /** The call goes on to load. */
  predicate Misses(store: map<string, Stored>, key: string, t: Timing) {
    t.got && Lookup(store, key, t.getAt).None?
  }

  /** What one get_or_set answers. */
  function Answer(store: map<string, Stored>, key: string, t: Timing): Reply<Option<string>> {
    if !t.got then Raises
    else if Lookup(store, key, t.getAt).Some? then Ok(Lookup(store, key, t.getAt))
    else if t.loaded.Ok? && t.loaded.value.Some? && !t.stored then Raises
    else t.loaded
  }

  /** What it leaves in Redis: only a loaded value that is not None is stored. */
  function StoreAfter(store: map<string, Stored>, key: string, ttl: nat, t: Timing): map<string, Stored> {
    if !Misses(store, key, t) then store
    else if t.loaded.Ok? && t.loaded.value.Some? && t.setApplied then Put(t.between, key, t.loaded.value.value, t.setAt, ttl)
    else t.between
  }

  /** The entry is there and has not expired. */
  ghost predicate Live(store: map<string, Stored>, key: string, at: int) {
    key in store && at < store[key].expires
  }

  /** A call that found nothing, loaded `v` and stored it answers `v`; a later call on
      what it left answers `v` without loading for as long as the TTL lasts, and then
      loads again. */
  lemma SecondCall(store: map<string, Stored>, key: string, ttl: nat, v: string, t: Timing, u: Timing)
    requires t.got && !Live(store, key, t.getAt) && t.loaded == Ok(Some(v)) && t.stored && t.setApplied && u.got
    ensures Answer(store, key, t) == Ok(Some(v))
    ensures var left := StoreAfter(store, key, ttl, t);
      && (u.getAt < t.setAt + ttl ==> !Misses(left, key, u) && Answer(left, key, u) == Ok(Some(v)))
      && (u.getAt >= t.setAt + ttl ==> Misses(left, key, u) && (u.loaded == Ok(None) ==> Answer(left, key, u) == Ok(None)))
  {
  }

  /** None is answered but never stored, a raising get, load or set raises, and no
      other key is touched: for every call the store ends as others left it, but for
      a loaded value under the call's own key. */
  lemma OnlyLoadedIsStored(store: map<string, Stored>, key: string, ttl: nat, t: Timing, other: string)
    requires t.got && !Live(store, key, t.getAt)
    ensures t.loaded == Ok(None) ==> Answer(store, key, t) == Ok(None) && StoreAfter(store, key, ttl, t) == t.between
    ensures t.loaded == Raises ==> Answer(store, key, t) == Raises && StoreAfter(store, key, ttl, t) == t.between
    ensures !t.stored && t.loaded != Ok(None) ==> Answer(store, key, t) == Raises
    ensures other != key ==> (other in StoreAfter(store, key, ttl, t) <==> other in t.between)
    ensures other != key && other in t.between ==> StoreAfter(store, key, ttl, t)[other] == t.between[other]
  {
  }

  class CacheLayer {
    const redis: RedisStore
    var hits: nat
    var misses: nat

    constructor (redis: RedisStore)
      ensures this.redis == redis && hits == 0 && misses == 0
    {
      this.redis, hits, misses := redis, 0, 0;
    }

    /** A lookup that Redis answers is counted as a hit or as a miss. */
    method GetCached(key: string, now: int, ok: bool) returns (cached: Reply<Option<string>>)
      modifies this
      ensures cached == if ok then Ok(Lookup(redis.store, key, now)) else Raises
      ensures hits == old(hits) + (if ok && Lookup(redis.store, key, now).Some? then 1 else 0)
      ensures hits + misses == old(hits) + old(misses) + (if ok then 1 else 0)
    {
      var raw := redis.Get(key, now, ok);
      if raw.Raises? {
        return Raises;
      }
      if raw.value.None? {
        misses := misses + 1;
        return Ok(None);
      }
      hits := hits + 1;
      return raw;
    }

    method SetCached(key: string, value: string, now: int, ttl: nat, ok: bool, applied: bool) returns (done: Reply<()>)
      modifies redis
      ensures redis.store == if applied then Put(old(redis.store), key, value, now, ttl) else old(redis.store)
      ensures done == if ok then Ok(()) else Raises
    {
      done := redis.Set(key, value, now, ttl, ok, applied);
    }

    method Invalidate(key: string, ok: bool, applied: bool) returns (done: Reply<()>)
      modifies redis
      ensures redis.store == if applied then old(redis.store) - {key} else old(redis.store)
      ensures done == if ok then Ok(()) else Raises
    {
      done := redis.Delete(key, ok, applied);
    }

    /** The loader runs, and everyone else goes on meanwhile. */
    method AwaitLoader(t: Timing) returns (value: Reply<Option<string>>)
      modifies this, redis
      ensures value == t.loaded && redis.store == t.between
      ensures hits == old(hits) + t.otherHits && misses == old(misses) + t.otherMisses
    {
      redis.store := t.between;
      hits, misses := hits + t.otherHits, misses + t.otherMisses;
      value := t.loaded;
    }

    /** Check the cache, load on a miss, store what is not None, and answer it. */
    method GetOrSet(key: string, ttl: nat, t: Timing) returns (answer: Reply<Option<string>>)
      modifies this, redis
      ensures answer == Answer(old(redis.store), key, t)
      ensures redis.store == StoreAfter(old(redis.store), key, ttl, t)
      ensures var own, others := if t.got then 1 else 0, if Misses(old(redis.store), key, t) then t.otherHits + t.otherMisses else 0;
        hits + misses == old(hits) + old(misses) + own + others
      ensures hits == old(hits) + (if t.got && Lookup(old(redis.store), key, t.getAt).Some? then 1 else 0)
                      + (if Misses(old(redis.store), key, t) then t.otherHits else 0)
    {
      var cached := GetCached(key, t.getAt, t.got);
      if cached.Raises? {
        return Raises;
      }
      if cached.value.Some? {
        return cached;
      }
      var value := AwaitLoader(t);
      if value.Raises? {
        return Raises;
      }
      if value.value.Some? {
        var done := SetCached(key, value.value.value, t.setAt, ttl, t.stored, t.setApplied);
        if done.Raises? {
          return Raises;
        }
      }
      return value;
    }
  }
}
