/** The front end's time-limited cache over the browser's local storage:
    entries remember when they were written and are dropped when read more
    than five minutes later. The storage is a map; the clock is a parameter. */
module TtlCache {
  import opened Http

  /** Five minutes in milliseconds. */
  const CacheDuration: int := 5 * 60 * 1000

  /** What `set` stores under a key: the data and the time it was written. */
  datatype Entry<D> = Entry(data: D, timestamp: int)

  predicate Expired<D>(e: Entry<D>, now: int) {
    now - e.timestamp > CacheDuration
  }

  /** `get` as a function of the storage: the answer (None for null) and the
      storage afterwards. */
  function Lookup<D>(items: map<string, Entry<D>>, key: string, now: int): (Option<D>, map<string, Entry<D>>) {
    if key !in items then (None, items)
    else if Expired(items[key], now) then (None, items - {key})
    else (Some(items[key].data), items)
  }

  class Cache<D> {
    var items: map<string, Entry<D>>

    /** A cache over whatever the storage already holds. */
    constructor (stored: map<string, Entry<D>>)
      ensures items == stored
    {
      items := stored;
    }

    method Set(key: string, data: D, now: int)
      modifies this
      ensures items == old(items)[key := Entry(data, now)]
    {
      items := items[key := Entry(data, now)];
    }

    method Get(key: string, now: int) returns (r: Option<D>)
      modifies this
      ensures (r, items) == Lookup(old(items), key, now)
    {
      if key !in items {
        return None;
      }
      var entry := items[key];
      if now - entry.timestamp > CacheDuration {
        items := items - {key};
        return None;
      }
      return Some(entry.data);
    }

    method Clear()
      modifies this
      ensures items == map[]
    {
      items := map[];
    }
  }

  /** After `set(k, d)` at time t, reading k within five minutes (the
      boundary included) gives d back and leaves the storage as it is. */
  lemma SetThenGet<D>(items: map<string, Entry<D>>, key: string, data: D, t: int, now: int)
    requires now - t <= CacheDuration
    ensures var s := items[key := Entry(data, t)]; Lookup(s, key, now) == (Some(data), s)
  {
  }

  /** `set` of one key does not change what any other key reads. */
  lemma SetKeepsOthers<D>(items: map<string, Entry<D>>, key: string, other: string, data: D, t: int, now: int)
    requires other != key
    ensures Lookup(items[key := Entry(data, t)], other, now).0 == Lookup(items, other, now).0
  {
  }

  /** A key with no entry reads as null and nothing changes. */
  lemma GetMissing<D>(items: map<string, Entry<D>>, key: string, now: int)
    requires key !in items
    ensures Lookup(items, key, now) == (None, items)
  {
  }

  /** An entry older than five minutes reads as null and is removed, and no
      other entry is touched. */
  lemma GetExpired<D>(items: map<string, Entry<D>>, key: string, now: int)
    requires key in items && now - items[key].timestamp > CacheDuration
    ensures var (r, s) := Lookup(items, key, now);
      && r == None && key !in s
      && forall k | k in items && k != key :: k in s && s[k] == items[k]
  {
  }

  /** The boundary: exactly five minutes after writing is still a hit, one
      millisecond later is a miss. */
  lemma ExpiryBoundary<D>(items: map<string, Entry<D>>, key: string, data: D, t: int)
    ensures var s := items[key := Entry(data, t)];
      && Lookup(s, key, t + 300000).0 == Some(data)
      && Lookup(s, key, t + 300001).0 == None
  {
  }

  /** A read that answers null leaves nothing behind for the key, so every
      later read of it answers null too and changes nothing. */
  lemma MissIsSticky<D>(items: map<string, Entry<D>>, key: string, now: int, later: int)
    requires Lookup(items, key, now).0 == None
    ensures var s := Lookup(items, key, now).1; Lookup(s, key, later) == (None, s)
  {
  }

  /** A read never adds or alters entries; it can only remove its own key. */
  lemma GetOnlyShrinks<D>(items: map<string, Entry<D>>, key: string, now: int)
    ensures var s := Lookup(items, key, now).1;
      && s.Keys <= items.Keys && items.Keys - s.Keys <= {key}
      && forall k | k in s :: s[k] == items[k]
  {
  }

  /** After `clear` every key reads as null. */
  lemma ClearThenGet<D>(key: string, now: int)
    ensures var empty: map<string, Entry<D>> := map[]; Lookup(empty, key, now) == (None, empty)
  {
  }
}
