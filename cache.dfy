/**
 * The process-local TTL cache: a dictionary from key to (expiry, value),
 * read with lazy eviction, and the `Cache` facade on its local path.
 * The wall clock is an explicit integer instant `now`.
 */
module TtlCache {
  import opened Wrappers

  /** One stored row: the last instant at which it is still served, and the value. */
  datatype Entry<V> = Entry(expiry: int, value: V)

  type Store<V> = map<string, Entry<V>>

  /** `ttl or default`: an absent or zero ttl falls back to the default. */
  function EffectiveTtl(ttl: Option<int>, default: int): int {
    if ttl.Some? && ttl.value != 0 then ttl.value else default
  }

  /** What `get` returns. */
  function Lookup<V>(store: Store<V>, key: string, now: int): Option<V> {
    if key in store && now <= store[key].expiry then Some(store[key].value) else None
  }

  /** What `get` leaves behind: a row found stale is popped. */
  function AfterGet<V>(store: Store<V>, key: string, now: int): Store<V> {
    if key in store && now > store[key].expiry then store - {key} else store
  }

  /** What `set` leaves behind. */
  function AfterSet<V>(store: Store<V>, key: string, value: V, ttl: Option<int>, default: int, now: int): Store<V> {
    store[key := Entry(now + EffectiveTtl(ttl, default), value)]
  }

  // ---------------------------------------------------------------------
  // Properties of the store operations
  // ---------------------------------------------------------------------

  /** A key that was never set reads as absent and the read changes nothing. */
  lemma GetMissing<V>(store: Store<V>, key: string, now: int)
    requires key !in store
    ensures Lookup(store, key, now) == None
    ensures AfterGet(store, key, now) == store
  {
  }

  /** After `set` at `t`, every read up to and including `t + ttl` returns exactly the value set. */
  lemma SetThenGet<V>(store: Store<V>, key: string, value: V, ttl: Option<int>, default: int, t: int, now: int)
    requires now <= t + EffectiveTtl(ttl, default)
    ensures Lookup(AfterSet(store, key, value, ttl, default, t), key, now) == Some(value)
    ensures AfterGet(AfterSet(store, key, value, ttl, default, t), key, now) == AfterSet(store, key, value, ttl, default, t)
  {
  }

  /** The expiry instant itself still serves the value; the next instant does not. */
  lemma ExpiryBoundary<V>(store: Store<V>, key: string, value: V, ttl: Option<int>, default: int, t: int)
    ensures Lookup(AfterSet(store, key, value, ttl, default, t), key, t + EffectiveTtl(ttl, default)) == Some(value)
    ensures Lookup(AfterSet(store, key, value, ttl, default, t), key, t + EffectiveTtl(ttl, default) + 1) == None
  {
  }

  /** Reading a stale row returns nothing, pops that row and touches no other key. */
  lemma StaleGetEvicts<V>(store: Store<V>, key: string, now: int)
    requires key in store && now > store[key].expiry
    ensures Lookup(store, key, now) == None
    ensures AfterGet(store, key, now) == store - {key}
    ensures key !in AfterGet(store, key, now)
  {
  }

  /** A read, live or stale, never changes any key but the one read. */
  lemma GetTouchesOnlyItsKey<V>(store: Store<V>, key: string, now: int)
    ensures AfterGet(store, key, now) - {key} == store - {key}
    ensures AfterGet(store, key, now).Keys <= store.Keys
  {
  }

  /** Two stores that agree off `key` read alike on every other key. */
  lemma LookupOtherKey<V>(store: Store<V>, after: Store<V>, key: string, other: string, now: int)
    requires after - {key} == store - {key}
    requires other != key
    ensures Lookup(after, other, now) == Lookup(store, other, now)
  {
    assert other in after <==> other in after - {key};
    assert other in store <==> other in store - {key};
    if other in store {
      assert store[other] == (store - {key})[other];
      assert after[other] == (after - {key})[other];
    }
  }

  /** A live read leaves the store as it was. */
  lemma LiveGetUnchanged<V>(store: Store<V>, key: string, now: int)
    requires Lookup(store, key, now).Some?
    ensures AfterGet(store, key, now) == store
  {
  }

  /** Reading twice at the same instant is the same as reading once. */
  lemma GetIdempotent<V>(store: Store<V>, key: string, now: int)
    ensures Lookup(AfterGet(store, key, now), key, now) == Lookup(store, key, now)
    ensures AfterGet(AfterGet(store, key, now), key, now) == AfterGet(store, key, now)
  {
  }

  /** Once a row reads as absent it stays absent at every later instant. */
  lemma AbsentStaysAbsent<V>(store: Store<V>, key: string, now: int, later: int)
    requires now <= later
    requires Lookup(store, key, now) == None
    ensures Lookup(store, key, later) == None
    ensures Lookup(AfterGet(store, key, now), key, later) == None
  {
  }

  /** `set` stamps `t + ttl` for a non-zero ttl and `t + default` otherwise, under its key only. */
  lemma SetStamps<V>(store: Store<V>, key: string, value: V, ttl: Option<int>, default: int, t: int)
    ensures key in AfterSet(store, key, value, ttl, default, t)
    ensures ttl.Some? && ttl.value != 0 ==> AfterSet(store, key, value, ttl, default, t)[key] == Entry(t + ttl.value, value)
    ensures ttl == None || ttl == Some(0) ==> AfterSet(store, key, value, ttl, default, t)[key] == Entry(t + default, value)
    ensures AfterSet(store, key, value, ttl, default, t) - {key} == store - {key}
  {
  }

  /** Setting a key again replaces both its expiry and its value, so the old value is never read again. */
  lemma SetOverwrites<V>(store: Store<V>, key: string, v1: V, ttl1: Option<int>, t1: int,
                         v2: V, ttl2: Option<int>, t2: int, default: int, now: int)
    ensures AfterSet(AfterSet(store, key, v1, ttl1, default, t1), key, v2, ttl2, default, t2)
         == AfterSet(store, key, v2, ttl2, default, t2)
    ensures var r := Lookup(AfterSet(AfterSet(store, key, v1, ttl1, default, t1), key, v2, ttl2, default, t2), key, now);
            r == None || r == Some(v2)
  {
  }

  /** Applying `ttl or default` twice with the same default is the same as once. */
  lemma EffectiveTtlIdempotent(ttl: Option<int>, default: int)
    ensures EffectiveTtl(Some(EffectiveTtl(ttl, default)), default) == EffectiveTtl(ttl, default)
  {
  }

  // ---------------------------------------------------------------------
  // InMemoryTTL
  // ---------------------------------------------------------------------

  class InMemoryTtl<V> {
    /** The default lifetime of a row, in clock ticks. */
    const ttl: int
    var store: Store<V>

    constructor (ttl: int)
      ensures this.ttl == ttl && store == map[]
    {
      this.ttl := ttl;
      store := map[];
    }

    method Get(key: string, now: int) returns (r: Option<V>)
      modifies this
      ensures r == Lookup(old(store), key, now)
      ensures store == AfterGet(old(store), key, now)
    {
      if key !in store {
        return None;
      }
      var row := store[key];
      if now > row.expiry {
        store := store - {key};
        return None;
      }
      return Some(row.value);
    }

    method Set(key: string, value: V, ttl: Option<int>, now: int)
      modifies this
      ensures store == AfterSet(old(store), key, value, ttl, this.ttl, now)
    {
      store := store[key := Entry(now + EffectiveTtl(ttl, this.ttl), value)];
    }
  }

  // ---------------------------------------------------------------------
  // Cache facade, local backend
  // ---------------------------------------------------------------------

  class Cache<V> {
    const defaultTtl: int
    const local: InMemoryTtl<V>

    /** The local backend was built with the facade's default ttl. */
    ghost predicate Valid() {
      local.ttl == defaultTtl
    }

    constructor (defaultTtl: int)
      ensures Valid() && fresh(local)
      ensures this.defaultTtl == defaultTtl && local.store == map[]
    {
      this.defaultTtl := defaultTtl;
      local := new InMemoryTtl(defaultTtl);
    }

    /** `aget` without a shared backend is the local `get`. */
    method AGet(key: string, now: int) returns (r: Option<V>)
      modifies local
      ensures r == Lookup(old(local.store), key, now)
      ensures local.store == AfterGet(old(local.store), key, now)
    {
      r := local.Get(key, now);
    }

    /**
     * `aset` without a shared backend is the local `set` with `ttl or defaultTtl`;
     * since the local default is the same, that is also the local `set` with `ttl` itself.
     */
    method ASet(key: string, value: V, ttl: Option<int>, now: int)
      requires Valid()
      modifies local
      ensures local.store == AfterSet(old(local.store), key, value, Some(EffectiveTtl(ttl, defaultTtl)), local.ttl, now)
      ensures local.store == AfterSet(old(local.store), key, value, ttl, defaultTtl, now)
    {
      local.Set(key, value, Some(EffectiveTtl(ttl, defaultTtl)), now);
    }
  }
}
