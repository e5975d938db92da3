/** The ten-minute in-memory cache in front of the weather lookups: a map from key
    to an entry that records when it stops being served. Expiry is lazy: an entry
    is dropped only when a read finds it stale. */
module Cache {
  import opened Basics

  /** Ten minutes, in milliseconds. */
  const TtlMs: nat := 10 * 60 * 1000

  datatype Entry<V> = Entry(expiresAt: int, value: V)

  /** A stale entry: the clock has passed its expiry time. */
  predicate Stale<V>(e: Entry<V>, now: int) {
    now > e.expiresAt
  }

  /** What a read at `now` returns. */
  function Lookup<V>(m: map<string, Entry<V>>, key: string, now: int): (r: Option<V>)
    ensures r.Some? <==> key in m && !Stale(m[key], now)
    ensures r.Some? ==> r.value == m[key].value
  {
    if key !in m then None
    else if Stale(m[key], now) then None
    else Some(m[key].value)
  }

  /** The map a read at `now` leaves behind: a stale entry for `key` is deleted. */
  function AfterLookup<V>(m: map<string, Entry<V>>, key: string, now: int): (m': map<string, Entry<V>>)
    ensures key in m' <==> key in m && !Stale(m[key], now)
    ensures forall k :: k in m' ==> k in m && m'[k] == m[k]
    ensures forall k :: k in m && k != key ==> k in m' && m'[k] == m[k]
  {
    if key in m && Stale(m[key], now) then m - {key} else m
  }

  /** The map a write of `value` at `now` leaves behind. */
  function Store<V>(m: map<string, Entry<V>>, key: string, value: V, now: int): (m': map<string, Entry<V>>)
    ensures key in m' && m'[key] == Entry(now + TtlMs, value)
    ensures forall k :: k != key ==> (k in m' <==> k in m)
    ensures forall k :: k in m && k != key ==> m'[k] == m[k]
  {
    m[key := Entry(now + TtlMs, value)]
  }

  /** A value written at `t` is served for every read up to and including t + TTL,
      and not after. */
  lemma StoreThenLookup<V>(m: map<string, Entry<V>>, key: string, value: V, t: int, now: int)
    ensures Lookup(Store(m, key, value, t), key, now) == (if now <= t + TtlMs then Some(value) else None)
    ensures now > t + TtlMs ==> key !in AfterLookup(Store(m, key, value, t), key, now)
    ensures now <= t + TtlMs ==> AfterLookup(Store(m, key, value, t), key, now) == Store(m, key, value, t)
  {
  }

  /** A write or a read of one key tells nothing new about any other key. */
  lemma OtherKeysUnaffected<V>(m: map<string, Entry<V>>, key: string, other: string, value: V, t: int, now: int)
    requires other != key
    ensures Lookup(Store(m, key, value, t), other, now) == Lookup(m, other, now)
    ensures Lookup(AfterLookup(m, key, t), other, now) == Lookup(m, other, now)
  {
  }

  /** The `CACHE` map and its two operations, with the clock reading passed in. */
  class TtlCache<V> {
    var entries: map<string, Entry<V>>

    constructor ()
      ensures entries == map[]
    {
      entries := map[];
    }

    /** `cacheGet(key)`: the live value, or nothing (deleting the key if it was stale). */
    method Get(key: string, now: int) returns (r: Option<V>)
      modifies this
      ensures r == Lookup(old(entries), key, now)
      ensures entries == AfterLookup(old(entries), key, now)
    {
      if key !in entries {
        return None;
      }
      var hit := entries[key];
      if now > hit.expiresAt {
        entries := entries - {key};
        return None;
      }
      return Some(hit.value);
    }

    /** `cacheSet(key, value)`: store `value`, to expire TTL milliseconds from `now`. */
    method Set(key: string, value: V, now: int)
      modifies this
      ensures entries == Store(old(entries), key, value, now)
    {
      entries := entries[key := Entry(now + TtlMs, value)];
    }
  }
}
