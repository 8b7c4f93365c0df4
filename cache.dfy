/** The client-side cache of `app/lib/utils/cache.ts`: a key/value store whose entries carry the
    time they were written, and expire lazily when a read finds them too old. `localStorage` is
    the `store` map; the clock is the `now` parameter (milliseconds). */
module Cache {
  import opened Wrappers

  const MillisPerMinute := 60 * 1000

  /** What `JSON.parse` makes of a stored item: a timestamp and the data, or text that does not
      decode into such an object (which makes the read throw). A timestamp that does not parse
      as a date is `None`, the `NaN` of `new Date(timestamp).getTime()`. */
  datatype Stored<D> = Item(timestamp: Option<int>, data: D) | Corrupt

  /** Whether a read at `now` finds `item` expired: `now > timestamp + minutes * 60000`. A `NaN`
      timestamp compares false, so such an entry never expires. */
  predicate Expired<D>(item: Stored<D>, expirationMinutes: int, now: int)
    requires item.Item?
  {
    item.timestamp.Some? && now > item.timestamp.value + expirationMinutes * MillisPerMinute
  }

  /** What `getCache(key, expirationMinutes)` returns. */
  function Lookup<D>(available: bool, store: map<string, Stored<D>>, key: string, expirationMinutes: int, now: int): (r: Option<D>)
    ensures r.Some? <==> available && key in store && store[key].Item? && !Expired(store[key], expirationMinutes, now)
    ensures r.Some? ==> r.value == store[key].data
  {
    if !available || key !in store then None
    else match store[key]
      case Corrupt => None
      case Item(_, data) => if Expired(store[key], expirationMinutes, now) then None else Some(data)
  }

  /** The store after `getCache`: an item the read finds expired is removed, nothing else changes. */
  function StoreAfterGet<D>(available: bool, store: map<string, Stored<D>>, key: string, expirationMinutes: int, now: int): (r: map<string, Stored<D>>)
    ensures available && key in store && store[key].Item? && Expired(store[key], expirationMinutes, now) ==> r == store - {key}
    ensures !(available && key in store && store[key].Item? && Expired(store[key], expirationMinutes, now)) ==> r == store
  {
    if available && key in store && store[key].Item? && Expired(store[key], expirationMinutes, now) then store - {key} else store
  }

  /** The store after `setCache(key, data)` at `now`. */
  function StoreAfterSet<D>(available: bool, store: map<string, Stored<D>>, key: string, data: D, now: int): (r: map<string, Stored<D>>)
    ensures available ==> key in r && r[key] == Item(Some(now), data)
    ensures available ==> forall k :: k != key ==> (k in r <==> k in store) && (k in store ==> r[k] == store[k])
    ensures !available ==> r == store
  {
    if available then store[key := Item(Some(now), data)] else store
  }

  /** The store after `invalidateCache(key)`. */
  function StoreAfterInvalidate<D>(available: bool, store: map<string, Stored<D>>, key: string): (r: map<string, Stored<D>>)
    ensures available ==> key !in r
    ensures forall k :: k != key ==> (k in r <==> k in store) && (k in store ==> r[k] == store[k])
    ensures !available ==> r == store
  {
    if available then store - {key} else store
  }

  /** The cache as one browser tab sees it; `available` is `typeof window !== 'undefined'`. */
  class TtlCache<D> {
    const available: bool
    var store: map<string, Stored<D>>

    constructor (available: bool, initial: map<string, Stored<D>>)
      ensures this.available == available && store == initial
    {
      this.available := available;
      store := initial;
    }

    /** `getCache`. */
    method Get(key: string, expirationMinutes: int, now: int) returns (r: Option<D>)
      modifies this
      ensures r == Lookup(available, old(store), key, expirationMinutes, now)
      ensures store == StoreAfterGet(available, old(store), key, expirationMinutes, now)
    {
      if !available {
        return None;
      }
      if key !in store {
        return None;
      }
      var cached := store[key];
      if cached.Corrupt? {
        return None;
      }
      var expirationTime := if cached.timestamp.Some? then Some(cached.timestamp.value + expirationMinutes * MillisPerMinute) else None;
      if expirationTime.Some? && now > expirationTime.value {
        store := store - {key};
        return None;
      }
      r := Some(cached.data);
    }

    /** `setCache`: the item is written with the current time. */
    method Set(key: string, data: D, now: int)
      modifies this
      ensures store == StoreAfterSet(available, old(store), key, data, now)
    {
      if available {
        store := store[key := Item(Some(now), data)];
      }
    }

    /** `invalidateCache`. */
    method Invalidate(key: string)
      modifies this
      ensures store == StoreAfterInvalidate(available, old(store), key)
    {
      if available {
        store := store - {key};
      }
    }
  }

  /** Reading a key that is not there gives `null` and changes nothing. */
  lemma AbsentKeyMisses<D>(available: bool, store: map<string, Stored<D>>, key: string, minutes: int, now: int)
    requires key !in store
    ensures Lookup(available, store, key, minutes, now) == None
    ensures StoreAfterGet(available, store, key, minutes, now) == store
  {
  }

  /** A timestamped entry is returned exactly while `now <= timestamp + minutes * 60000`; the
      boundary itself still hits. */
  lemma HitWindow<D>(store: map<string, Stored<D>>, key: string, timestamp: int, data: D, minutes: int, now: int)
    requires key in store && store[key] == Item(Some(timestamp), data)
    ensures Lookup(true, store, key, minutes, now) == Some(data) <==> now <= timestamp + minutes * MillisPerMinute
    ensures Lookup(true, store, key, minutes, timestamp + minutes * MillisPerMinute) == Some(data)
  {
  }

  /** A read that finds an entry expired removes it, so every later read misses, whatever its
      time to live and clock. */
  lemma ExpiredStaysGone<D>(store: map<string, Stored<D>>, key: string, minutes: int, now: int, laterMinutes: int, later: int)
    requires key in store && store[key].Item? && Expired(store[key], minutes, now)
    ensures Lookup(true, store, key, minutes, now) == None
    ensures Lookup(true, StoreAfterGet(true, store, key, minutes, now), key, laterMinutes, later) == None
  {
  }

  /** Writing and then reading at once, with a non-negative time to live, gives the data back. */
  lemma SetThenGet<D>(store: map<string, Stored<D>>, key: string, data: D, minutes: int, now: int)
    requires minutes >= 0
    ensures Lookup(true, StoreAfterSet(true, store, key, data, now), key, minutes, now) == Some(data)
    ensures StoreAfterGet(true, StoreAfterSet(true, store, key, data, now), key, minutes, now) == StoreAfterSet(true, store, key, data, now)
  {
  }

  /** Invalidating one key leaves every other key's reads as they were. */
  lemma InvalidateOnlyKey<D>(store: map<string, Stored<D>>, key: string, other: string, minutes: int, now: int)
    requires other != key
    ensures Lookup(true, StoreAfterInvalidate(true, store, key), key, minutes, now) == None
    ensures Lookup(true, StoreAfterInvalidate(true, store, key), other, minutes, now) == Lookup(true, store, other, minutes, now)
  {
  }

  /** Without a window, reads miss and writes do nothing. */
  lemma NoWindow<D>(store: map<string, Stored<D>>, key: string, data: D, minutes: int, now: int)
    ensures Lookup(false, store, key, minutes, now) == None
    ensures StoreAfterGet(false, store, key, minutes, now) == store
    ensures StoreAfterSet(false, store, key, data, now) == store
    ensures StoreAfterInvalidate(false, store, key) == store
  {
  }

  /** An entry that does not decode reads as `null` and stays in the store. */
  lemma CorruptEntryKept<D>(store: map<string, Stored<D>>, key: string, minutes: int, now: int)
    requires key in store && store[key] == Corrupt
    ensures Lookup(true, store, key, minutes, now) == None
    ensures StoreAfterGet(true, store, key, minutes, now) == store
  {
  }

  /** An entry whose timestamp is not a date never expires. */
  lemma UndatedEntryNeverExpires<D>(store: map<string, Stored<D>>, key: string, data: D, minutes: int, now: int)
    requires key in store && store[key] == Item(None, data)
    ensures Lookup(true, store, key, minutes, now) == Some(data)
  {
  }
}
